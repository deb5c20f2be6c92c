/**
 The waiting line behind one capacity resource: a queue per lane and a ring of the
 lanes that have waiters. The theorem of this module is that nobody waits long.
 */
module CapacityLine {
  type Waiter = nat

  datatype Lane = Lane(tenant: string, app: string, scope: string)

  datatype Line = Line(queues: map<Lane, seq<Waiter>>, ring: seq<Lane>)

  const EMPTY: Line := Line(map[], [])

  ghost predicate NoRepeats<T(!new)>(xs: seq<T>) {
    forall a, b :: 0 <= a < b < |xs| ==> xs[a] != xs[b]
  }

  /** The ring lists each lane with waiters once, no queue is empty, and nobody waits twice. */
  ghost predicate WellFormed(line: Line) {
    && NoRepeats(line.ring)
    && (forall lane :: lane in line.queues <==> lane in line.ring)
    && (forall lane :: lane in line.queues ==> line.queues[lane] != [] && NoRepeats(line.queues[lane]))
    && (forall lane, other, w ::
          (lane in line.queues && other in line.queues && w in line.queues[lane] && w in line.queues[other])
          ==> lane == other)
  }

  ghost predicate Waits(line: Line, w: Waiter) {
    exists lane :: lane in line.queues && w in line.queues[lane]
  }

  /** `w` is `q` places from the head of `lane`, which is `p` places from the front of the ring. */
  ghost predicate Stands(line: Line, w: Waiter, lane: Lane, q: nat, p: nat) {
    && lane in line.queues && q < |line.queues[lane]| && line.queues[lane][q] == w
    && p < |line.ring| && line.ring[p] == lane
  }

  // ------------------------------------------------------------------- steps

  function Joined(line: Line, lane: Lane, w: Waiter): Line {
    if lane in line.queues then line.(queues := line.queues[lane := line.queues[lane] + [w]])
    else Line(line.queues[lane := [w]], line.ring + [lane])
  }

  /** Serves the head of the first lane; the lane goes to the back of the ring if somebody is left in it. */
  function Served(line: Line): Line
    requires line.ring != [] && line.ring[0] in line.queues && line.queues[line.ring[0]] != []
  {
    var lane := line.ring[0];
    var rest := line.queues[lane][1..];
    if rest != [] then Line(line.queues[lane := rest], line.ring[1..] + [lane])
    else Line(line.queues - {lane}, line.ring[1..])
  }

  function First(line: Line): Waiter
    requires line.ring != [] && line.ring[0] in line.queues && line.queues[line.ring[0]] != []
  {
    line.queues[line.ring[0]][0]
  }

  function Without<T(==)>(xs: seq<T>, x: T): seq<T> {
    if xs == [] then []
    else if xs[0] == x then xs[1..]
    else [xs[0]] + Without(xs[1..], x)
  }

  function Left(line: Line, lane: Lane, w: Waiter): Line {
    if lane !in line.queues then line
    else
      var rest := Without(line.queues[lane], w);
      if rest != [] then line.(queues := line.queues[lane := rest])
      else Line(line.queues - {lane}, Without(line.ring, lane))
  }

  // ---------------------------------------------------- removing from a list

  lemma {:induction false} WithoutAbsent<T>(xs: seq<T>, x: T)
    requires x !in xs
    ensures Without(xs, x) == xs
  {
    if xs != [] {
      WithoutAbsent(xs[1..], x);
    }
  }

  /** Removing an element closes the gap it leaves. */
  lemma {:induction false} WithoutPresent<T(!new)>(xs: seq<T>, at: nat)
    requires at < |xs| && NoRepeats(xs)
    ensures Without(xs, xs[at]) == xs[..at] + xs[at + 1..]
    ensures NoRepeats(Without(xs, xs[at]))
    ensures forall x :: x in Without(xs, xs[at]) <==> x in xs && x != xs[at]
  {
    if at > 0 {
      WithoutPresent(xs[1..], at - 1);
      assert xs[1..][..at - 1] == xs[1..at] && xs[1..][at..] == xs[at + 1..];
      assert xs[..at] == [xs[0]] + xs[1..at];
    }
    var rest := xs[..at] + xs[at + 1..];
    assert forall a :: 0 <= a < |rest| ==> rest[a] == if a < at then xs[a] else xs[a + 1];
    forall x | x in xs && x != xs[at]
      ensures x in rest
    {
      var b :| 0 <= b < |xs| && xs[b] == x;
      assert x == if b < at then rest[b] else rest[b - 1];
    }
  }

  // ---------------------------------------------------- steps keep the shape

  lemma {:induction false} JoinedIsWellFormed(line: Line, lane: Lane, w: Waiter)
    requires WellFormed(line) && !Waits(line, w)
    ensures WellFormed(Joined(line, lane, w))
    ensures forall x :: Waits(Joined(line, lane, w), x) <==> Waits(line, x) || x == w
  {
    var after := Joined(line, lane, w);
    assert forall other :: other in line.queues ==> w !in line.queues[other];
    forall x
      ensures Waits(after, x) <==> Waits(line, x) || x == w
    {
      assert w in after.queues[lane];
      if Waits(line, x) {
        var other :| other in line.queues && x in line.queues[other];
        assert x in after.queues[other];
      }
    }
  }

  lemma {:induction false} ServedIsWellFormed(line: Line)
    requires WellFormed(line) && line.ring != []
    ensures line.ring[0] in line.queues && line.queues[line.ring[0]] != []
    ensures WellFormed(Served(line)) && !Waits(Served(line), First(line))
    ensures forall x :: x != First(line) ==> (Waits(Served(line), x) <==> Waits(line, x))
  {
    assert line.ring[0] in line.queues;
    var lane := line.ring[0];
    var after := Served(line);
    var queue := line.queues[lane];
    assert forall a :: 0 <= a < |queue| - 1 ==> queue[1..][a] == queue[a + 1];
    assert forall other :: other in line.ring <==> other == lane || other in line.ring[1..];
    assert lane !in line.ring[1..];
    forall x | x != First(line)
      ensures Waits(after, x) <==> Waits(line, x)
    {
      if Waits(line, x) {
        var other :| other in line.queues && x in line.queues[other];
        if other == lane {
          var i :| 0 <= i < |queue| && queue[i] == x;
          assert queue[1..][i - 1] == x;
        }
        assert other in after.queues && x in after.queues[other];
      }
    }
  }

  lemma {:induction false} LeftIsWellFormed(line: Line, lane: Lane, w: Waiter)
    requires WellFormed(line)
    requires lane in line.queues && w in line.queues[lane]
    ensures WellFormed(Left(line, lane, w)) && !Waits(Left(line, lane, w), w)
    ensures forall x :: x != w ==> (Waits(Left(line, lane, w), x) <==> Waits(line, x))
  {
    var at :| 0 <= at < |line.queues[lane]| && line.queues[lane][at] == w;
    WithoutPresent(line.queues[lane], at);
    var p :| 0 <= p < |line.ring| && line.ring[p] == lane;
    WithoutPresent(line.ring, p);
    var after := Left(line, lane, w);
    forall x | x != w
      ensures Waits(after, x) <==> Waits(line, x)
    {
      if Waits(line, x) {
        var other :| other in line.queues && x in line.queues[other];
        assert other in after.queues && x in after.queues[other];
      }
    }
  }

  // --------------------------------------------------------- bounded waiting

  datatype Event = Join(lane: Lane, w: Waiter) | Leave(lane: Lane, w: Waiter) | Grant

  predicate Servable(line: Line) {
    line.ring != [] && line.ring[0] in line.queues && line.queues[line.ring[0]] != []
  }

  ghost predicate Step(before: Line, e: Event, after: Line) {
    match e
    case Join(lane, w) => !Waits(before, w) && after == Joined(before, lane, w)
    case Leave(lane, w) => lane in before.queues && w in before.queues[lane] && after == Left(before, lane, w)
    case Grant => Servable(before) && after == Served(before)
  }

  /** A run of the line through any mixture of arrivals, departures and grants. */
  ghost predicate Run(lines: seq<Line>, events: seq<Event>) {
    && |lines| == |events| + 1 && WellFormed(lines[0])
    && forall i :: 0 <= i < |events| ==> Step(lines[i], events[i], lines[i + 1])
  }

  function Grants(events: seq<Event>): nat {
    if events == [] then 0 else (if events[0] == Grant then 1 else 0) + Grants(events[1..])
  }

  lemma {:induction false} StepIsWellFormed(before: Line, e: Event, after: Line)
    requires WellFormed(before) && Step(before, e, after)
    ensures WellFormed(after)
  {
    match e
    case Join(lane, w) => JoinedIsWellFormed(before, lane, w);
    case Leave(lane, w) => LeftIsWellFormed(before, lane, w);
    case Grant => ServedIsWellFormed(before);
  }

  /** Nobody overtakes by arriving. */
  lemma {:induction false} StandsAfterJoin(line: Line, w: Waiter, lane: Lane, q: nat, p: nat, other: Lane, x: Waiter)
    requires Stands(line, w, lane, q, p)
    ensures Stands(Joined(line, other, x), w, lane, q, p)
  {
  }

  /** Nobody falls back because another one leaves. */
  lemma {:induction false} StandsAfterLeave(
    line: Line, w: Waiter, lane: Lane, q: nat, p: nat, other: Lane, x: Waiter) returns (q': nat, p': nat)
    requires WellFormed(line) && Stands(line, w, lane, q, p)
    requires other in line.queues && x in line.queues[other] && x != w
    ensures Stands(Left(line, other, x), w, lane, q', p') && q' <= q && p' <= p
  {
    var at :| 0 <= at < |line.queues[other]| && line.queues[other][at] == x;
    WithoutPresent(line.queues[other], at);
    var o :| 0 <= o < |line.ring| && line.ring[o] == other;
    WithoutPresent(line.ring, o);
    q' := if lane == other && at < q then q - 1 else q;
    p' := if o < p && |line.queues[other]| == 1 then p - 1 else p;
  }

  /** A grant to somebody else brings `w` strictly closer: `q * lanes + p` goes down. */
  lemma {:induction false} StandsAfterGrant(line: Line, w: Waiter, lane: Lane, q: nat, p: nat, lanes: nat)
    returns (q': nat, p': nat)
    requires WellFormed(line) && Stands(line, w, lane, q, p) && Servable(line)
    requires First(line) != w && |line.ring| <= lanes
    ensures Stands(Served(line), w, lane, q', p') && q' * lanes + p' < q * lanes + p
  {
    if p == 0 {
      q', p' := q - 1, |line.ring| - 1;
      assert (q - 1) * lanes == q * lanes - lanes;
      assert line.queues[lane][1..][q - 1] == w;
    } else {
      q', p' := q, p - 1;
    }
  }

  lemma {:induction false} TimesKeepsOrder(a: nat, b: nat, c: nat)
    requires a <= b
    ensures a * c <= b * c
  {
  }

  lemma {:induction false} StandsAfterEvent(
    before: Line, e: Event, after: Line, w: Waiter, lane: Lane, q: nat, p: nat, lanes: nat)
    returns (q': nat, p': nat)
    requires WellFormed(before) && Step(before, e, after) && Stands(before, w, lane, q, p)
    requires |before.ring| <= lanes && !(e.Leave? && e.w == w)
    requires e == Grant && Servable(before) ==> First(before) != w
    ensures Stands(after, w, lane, q', p')
    ensures q' * lanes + p' + (if e == Grant then 1 else 0) <= q * lanes + p
  {
    match e
    case Join(other, x) =>
      StandsAfterJoin(before, w, lane, q, p, other, x);
      q', p' := q, p;
    case Leave(other, x) =>
      q', p' := StandsAfterLeave(before, w, lane, q, p, other, x);
      TimesKeepsOrder(q', q, lanes);
    case Grant =>
      q', p' := StandsAfterGrant(before, w, lane, q, p, lanes);
  }

  lemma {:induction false} RunGoesOn(lines: seq<Line>, events: seq<Event>)
    requires Run(lines, events) && events != []
    ensures Run(lines[1..], events[1..])
  {
    assert Step(lines[0], events[0], lines[0 + 1]);
    StepIsWellFormed(lines[0], events[0], lines[1]);
    var later, rest := lines[1..], events[1..];
    forall i | 0 <= i < |rest|
      ensures Step(later[i], rest[i], later[i + 1])
    {
      assert Step(lines[i + 1], events[i + 1], lines[i + 1 + 1]);
    }
  }

  /**
   Bounded waiting: as long as `w` neither leaves nor is served, at most
   `q * lanes + p` grants have been made, whatever arrives or leaves meanwhile and
   in however many lanes up to `lanes`.
   */
  lemma {:induction false} WaitIsBounded(
    lines: seq<Line>, events: seq<Event>, w: Waiter, lane: Lane, q: nat, p: nat, lanes: nat)
    requires Run(lines, events) && Stands(lines[0], w, lane, q, p)
    requires forall i :: 0 <= i < |lines| ==> |lines[i].ring| <= lanes
    requires forall i :: 0 <= i < |events| ==> !(events[i].Leave? && events[i].w == w)
    requires forall i :: 0 <= i < |events| && events[i] == Grant && Servable(lines[i]) ==> First(lines[i]) != w
    ensures Grants(events) <= q * lanes + p
    ensures Waits(lines[|events|], w)
    decreases |events|
  {
    if events == [] {
      assert lane in lines[0].queues && w in lines[0].queues[lane];
    } else {
      assert Step(lines[0], events[0], lines[0 + 1]);
      var q', p' := StandsAfterEvent(lines[0], events[0], lines[1], w, lane, q, p, lanes);
      RunGoesOn(lines, events);
      WaitIsBounded(lines[1..], events[1..], w, lane, q', p', lanes);
    }
  }

  /** So `w` is served by grant number `q * lanes + p + 1` at the latest. */
  lemma {:induction false} ServedInTime(
    lines: seq<Line>, events: seq<Event>, w: Waiter, lane: Lane, q: nat, p: nat, lanes: nat) returns (i: nat)
    requires Run(lines, events) && Stands(lines[0], w, lane, q, p)
    requires forall i :: 0 <= i < |lines| ==> |lines[i].ring| <= lanes
    requires forall i :: 0 <= i < |events| ==> !(events[i].Leave? && events[i].w == w)
    requires Grants(events) > q * lanes + p
    ensures i < |events| && events[i] == Grant && Servable(lines[i]) && First(lines[i]) == w
  {
    if forall i :: 0 <= i < |events| && events[i] == Grant && Servable(lines[i]) ==> First(lines[i]) != w {
      WaitIsBounded(lines, events, w, lane, q, p, lanes);
    }
    i :| 0 <= i < |events| && events[i] == Grant && Servable(lines[i]) && First(lines[i]) == w;
  }
}
