/** The in-process gate that hands out a limited number of permits per resource, fairly between lanes. */
module CapacityGate {
  import opened Outcomes
  import opened CapacityLine

  /**
   One resource. `done` are the waiters whose permit was granted at some time, in
   the order of `log`; `held` are the permits not yet given back.
   */
  datatype State = State(
    limit: nat, inUse: int, line: Line, done: set<Waiter>, held: set<Waiter>, log: seq<Waiter>)

  datatype AcquireError = BadArguments | LimitChanged

  /** Everything that holds even while permits are still being handed out. */
  ghost predicate Sane(s: State) {
    && 1 <= s.limit && s.inUse == |s.held| && s.inUse <= s.limit && s.held <= s.done
    && WellFormed(s.line)
    && (forall w :: Waits(s.line, w) ==> w !in s.done)
    && (forall w :: w in s.done <==> w in s.log)
  }

  /** Nobody waits while a permit is free. */
  ghost predicate Good(s: State) {
    Sane(s) && (s.inUse < s.limit ==> s.line == EMPTY)
  }

  function Fresh(limit: nat): State {
    State(limit, 0, EMPTY, {}, {}, [])
  }

  function GivenTo(s: State, w: Waiter): State {
    s.(inUse := s.inUse + 1, done := s.done + {w}, held := s.held + {w}, log := s.log + [w])
  }

  function TakenBack(s: State, w: Waiter): State {
    s.(inUse := s.inUse - 1, held := s.held - {w})
  }

  /** The line after its first `k` waiters, as far as there are that many, were served in turn. */
  function AfterServing(s: State, k: nat): (t: State)
    ensures t.limit == s.limit && t.inUse <= s.inUse + k
    decreases k
  {
    if k == 0 || !Servable(s.line) then s
    else AfterServing(GivenTo(s.(line := Served(s.line)), First(s.line)), k - 1)
  }

  lemma {:induction false} ServeOneMore(s: State, k: nat)
    requires Servable(AfterServing(s, k).line)
    ensures AfterServing(s, k + 1)
         == GivenTo(AfterServing(s, k).(line := Served(AfterServing(s, k).line)), First(AfterServing(s, k).line))
    decreases k
  {
    if k > 0 && Servable(s.line) {
      ServeOneMore(GivenTo(s.(line := Served(s.line)), First(s.line)), k - 1);
    }
  }

  lemma {:induction false} SaneAfterGrant(s: State)
    requires Sane(s) && s.inUse < s.limit && s.line.ring != []
    ensures Servable(s.line) && First(s.line) !in s.done
    ensures Sane(GivenTo(s.(line := Served(s.line)), First(s.line)))
  {
    ServedIsWellFormed(s.line);
    var w := First(s.line);
    assert Waits(s.line, w) by {
      assert s.line.ring[0] in s.line.queues && w in s.line.queues[s.line.ring[0]];
    }
  }

  lemma {:induction false} NobodyInEmptyRing(line: Line)
    requires WellFormed(line) && line.ring == []
    ensures line == EMPTY
  {
  }

  /** What a permit that comes back does: the first waiter in turn gets it, if anybody waits. */
  function HandedOn(s: State, w: Waiter): State {
    AfterServing(TakenBack(s, w), 1)
  }

  class FairCapacityGate {
    var resources: map<string, State>

    ghost predicate Valid()
      reads this
    {
      forall r :: r in resources ==> Good(resources[r])
    }

    constructor ()
      ensures Valid() && resources == map[]
    {
      resources := map[];
    }

    /**
     Grants in ring order until the permits or the waiters run out. A waiter taken
     from a queue has never been granted before, so the skip below is never used.
     */
    static method Dispatch(s: State) returns (t: State, ghost k: nat)
      requires Sane(s)
      ensures Good(t) && t == AfterServing(s, k)
      ensures t.inUse == s.inUse + k && |t.log| == |s.log| + k
      ensures forall w :: Waits(s.line, w) || w in s.log <==> Waits(t.line, w) || w in t.log
    {
      t, k := s, 0;
      while t.inUse < t.limit && t.line.ring != []
        invariant Sane(t) && t == AfterServing(s, k)
        invariant t.limit == s.limit && t.inUse == s.inUse + k && |t.log| == |s.log| + k
        invariant forall w :: Waits(s.line, w) || w in s.log <==> Waits(t.line, w) || w in t.log
        decreases t.limit - t.inUse
      {
        SaneAfterGrant(t);
        ServedIsWellFormed(t.line);
        ServeOneMore(s, k);
        var future := First(t.line);
        var line := Served(t.line);
        assert Waits(t.line, future) by {
          assert t.line.ring[0] in t.line.queues && future in t.line.queues[t.line.ring[0]];
        }
        t := t.(line := line);
        if future !in t.done {
          t := GivenTo(t, future);
          k := k + 1;
        }
      }
      if t.line.ring == [] {
        NobodyInEmptyRing(t.line);
      }
    }

    function Before(r: string, limit: nat): State
      reads this
    {
      if r in resources then resources[r] else Fresh(limit)
    }

    /** The part of acquiring a permit that happens before the caller starts to wait. */
    method Acquire(r: string, lane: Lane, w: Waiter, limit: int) returns (result: Result<(), AcquireError>)
      requires Valid()
      requires r in resources ==> !Waits(resources[r].line, w) && w !in resources[r].done
      modifies this
      ensures Valid()
      ensures result.Err? ==> resources == old(resources)
      ensures (r == "" || limit < 1) <==> result == Err(BadArguments)
      ensures result == Err(LimitChanged) <==> r != "" && limit >= 1 && r in old(resources) && old(resources)[r].limit != limit
      ensures result.Ok? ==>
                var s := old(Before(r, limit));
                resources == old(resources)[r :=
                  if s.inUse < s.limit then GivenTo(s, w) else s.(line := Joined(s.line, lane, w))]
    {
      if r == "" || limit < 1 {
        return Err(BadArguments);
      }
      if r in resources && resources[r].limit != limit {
        return Err(LimitChanged);
      }
      var t := Enter(Before(r, limit), lane, w);
      resources := resources[r := t];
      result := Ok(());
    }

    /** Joining the line and dispatching: served at once when a permit is free, queued otherwise. */
    static method Enter(s: State, lane: Lane, w: Waiter) returns (t: State)
      requires Good(s) && !Waits(s.line, w) && w !in s.done
      ensures Good(t) && t == if s.inUse < s.limit then GivenTo(s, w) else s.(line := Joined(s.line, lane, w))
    {
      JoinedIsWellFormed(s.line, lane, w);
      var joined := s.(line := Joined(s.line, lane, w));
      assert Sane(joined);
      ghost var k;
      t, k := Dispatch(joined);
      if s.inUse < s.limit {
        AloneIsServedAtOnce(s, lane, w, k);
      } else {
        assert k == 0;
      }
    }

    /** Gives back the permit of `w`; the gate itself only counts permits. */
    method Release(r: string, w: Waiter) returns (ok: bool)
      requires Valid() && r in resources
      requires resources[r].inUse >= 1 ==> w in resources[r].held
      modifies this
      ensures Valid()
      ensures ok <==> old(resources)[r].inUse >= 1
      ensures resources == if ok then old(resources)[r := HandedOn(old(resources)[r], w)] else old(resources)
    {
      ok := resources[r].inUse >= 1;
      if ok {
        PassOn(r, w);
      }
    }

    /** A waiter gives up: it hands on the permit it just got, or it leaves its queue. */
    method CancelWaiter(r: string, lane: Lane, w: Waiter)
      requires Valid() && r in resources
      requires w in resources[r].done ==> w in resources[r].held
      modifies this
      ensures Valid()
      ensures resources == old(resources)[r :=
                if w in old(resources)[r].done then HandedOn(old(resources)[r], w)
                else if lane in old(resources)[r].line.queues && w in old(resources)[r].line.queues[lane]
                then old(resources)[r].(line := Left(old(resources)[r].line, lane, w))
                else old(resources)[r]]
    {
      var s := resources[r];
      if w in s.done {
        PassOn(r, w);
        return;
      }
      if lane in s.line.queues {
        if w in s.line.queues[lane] {
          LeftIsWellFormed(s.line, lane, w);
        } else {
          WithoutAbsent(s.line.queues[lane], w);
          assert s.line.(queues := s.line.queues[lane := s.line.queues[lane]]) == s.line;
        }
        resources := resources[r := s.(line := Left(s.line, lane, w))];
      }
      assert resources == resources[r := resources[r]];
    }

    method PassOn(r: string, w: Waiter)
      requires Valid() && r in resources && w in resources[r].held
      modifies this
      ensures Valid() && resources == old(resources)[r := HandedOn(old(resources)[r], w)]
    {
      var s := resources[r];
      var t, k := Dispatch(TakenBack(s, w));
      OnePermitOnePass(s, w, k);
      resources := resources[r := t];
    }
  }

  /** With a permit free on arrival, the line was empty and the newcomer is served at once. */
  lemma {:induction false} AloneIsServedAtOnce(s: State, lane: Lane, w: Waiter, k: nat)
    requires Good(s) && s.inUse < s.limit && !Waits(s.line, w) && w !in s.done
    requires Good(AfterServing(s.(line := Joined(s.line, lane, w)), k))
    ensures AfterServing(s.(line := Joined(s.line, lane, w)), k) == GivenTo(s, w)
  {
    var joined := s.(line := Joined(s.line, lane, w));
    assert joined.line == Line(map[lane := [w]], [lane]);
    assert Served(joined.line) == EMPTY;
    assert k > 0;
    var once := GivenTo(joined.(line := Served(joined.line)), First(joined.line));
    assert once == GivenTo(s, w);
    assert AfterServing(once, k - 1) == once;
  }

  /** One permit that comes back is passed to exactly the first waiter in turn. */
  lemma {:induction false} OnePermitOnePass(s: State, w: Waiter, k: nat)
    requires Good(s) && w in s.held && Good(AfterServing(TakenBack(s, w), k))
    requires AfterServing(TakenBack(s, w), k).inUse == TakenBack(s, w).inUse + k
    ensures AfterServing(TakenBack(s, w), k) == HandedOn(s, w)
  {
    if s.line.ring != [] {
      ServedIsWellFormed(s.line);
      assert s.inUse == s.limit && k == 1;
    } else {
      assert AfterServing(TakenBack(s, w), k) == TakenBack(s, w) == AfterServing(TakenBack(s, w), 1);
    }
  }

  /** Handing on a permit is one step of the line, so the waiting bound counts these steps. */
  lemma {:induction false} HandingOnIsOneGrant(s: State, w: Waiter)
    requires Good(s) && w in s.held
    ensures if s.line == EMPTY then HandedOn(s, w) == TakenBack(s, w)
            else
              && Step(s.line, Grant, HandedOn(s, w).line)
              && HandedOn(s, w).log == s.log + [First(s.line)]
              && HandedOn(s, w).inUse == s.inUse
  {
    if s.line.ring == [] {
      NobodyInEmptyRing(s.line);
    } else {
      ServedIsWellFormed(s.line);
      var t := TakenBack(s, w);
      assert AfterServing(t, 1) == AfterServing(GivenTo(t.(line := Served(t.line)), First(t.line)), 0);
    }
  }

  // ------------------------------------------------ the gate as a run of the line

  /** The gate goes from `s` to `t` by steps of the waiting line, with one grant per permit given out. */
  ghost predicate LineRun(s: State, t: State, lines: seq<Line>, events: seq<Event>) {
    && Run(lines, events) && lines[0] == s.line && lines[|events|] == t.line
    && s.log <= t.log && Grants(events) == |t.log| - |s.log|
  }

  lemma {:induction false} EntryIsLineRun(s: State, lane: Lane, w: Waiter) returns (lines: seq<Line>, events: seq<Event>)
    requires Good(s) && !Waits(s.line, w) && w !in s.done
    ensures var t := if s.inUse < s.limit then GivenTo(s, w) else s.(line := Joined(s.line, lane, w));
            LineRun(s, t, lines, events)
  {
    var joined := Joined(s.line, lane, w);
    if s.inUse < s.limit {
      assert joined == Line(map[lane := [w]], [lane]) && Servable(joined) && Served(joined) == EMPTY;
      lines, events := [s.line, joined, EMPTY], [Join(lane, w), Grant];
      assert events[1..] == [Grant] && [Grant][1..] == [];
      assert Grants([Grant]) == 1;
    } else {
      lines, events := [s.line, joined], [Join(lane, w)];
      assert events[1..] == [];
    }
  }

  lemma {:induction false} HandingOnIsLineRun(s: State, w: Waiter) returns (lines: seq<Line>, events: seq<Event>)
    requires Good(s) && w in s.held
    ensures LineRun(s, HandedOn(s, w), lines, events)
  {
    HandingOnIsOneGrant(s, w);
    if s.line == EMPTY {
      lines, events := [s.line], [];
    } else {
      lines, events := [s.line, HandedOn(s, w).line], [Grant];
      assert events[1..] == [];
    }
  }

  lemma {:induction false} LeavingIsLineRun(s: State, lane: Lane, w: Waiter) returns (lines: seq<Line>, events: seq<Event>)
    requires Good(s) && lane in s.line.queues && w in s.line.queues[lane]
    ensures LineRun(s, s.(line := Left(s.line, lane, w)), lines, events)
  {
    lines, events := [s.line, Left(s.line, lane, w)], [Leave(lane, w)];
    assert events[1..] == [];
  }
}
