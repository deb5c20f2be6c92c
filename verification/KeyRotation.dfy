/** Moving every stored envelope from one master key to another, restartable at any point. */
module KeyRotation {
  import opened Outcomes
  import opened EnvelopeCipher

  /** One stored envelope and the place it is bound to. */
  datatype Slot = Slot(aad: string, envelope: Envelope)

  datatype Marker = Marker(previous: string, next: string)

  datatype Refusal = SameKeyName | OtherRotation | BadEnvelope(error: CipherError) | VerificationFailed

  datatype Outcome = Crashed | Refused(why: Refusal) | Rotated(database: nat, blobs: nat)

  /** The envelope opens to `plain` under the one key of the two that its key name names. */
  predicate Readable(s: Slot, plain: string, current: MasterKey, target: MasterKey) {
    || (s.envelope.keyId == current.id && Decrypt(current, s.envelope, s.aad) == Ok(plain))
    || (s.envelope.keyId == target.id && Decrypt(target, s.envelope, s.aad) == Ok(plain))
  }

  predicate AllReadable(slots: seq<Slot>, plains: seq<string>, current: MasterKey, target: MasterKey) {
    |slots| == |plains| && forall i :: 0 <= i < |slots| ==> Readable(slots[i], plains[i], current, target)
  }

  predicate AllUnder(slots: seq<Slot>, keyId: string) {
    forall i :: 0 <= i < |slots| ==> slots[i].envelope.keyId == keyId
  }

  function NotYet(slots: seq<Slot>, keyId: string): nat {
    if slots == [] then 0
    else NotYet(slots[..|slots| - 1], keyId) + if slots[|slots| - 1].envelope.keyId == keyId then 0 else 1
  }

  // ------------------------------------------------------- moving one envelope

  /** What keeps an envelope from being moved: it is foreign, under a third key, or the current key does not open it. */
  function Obstacle(s: Slot, current: MasterKey, target: MasterKey): Option<CipherError> {
    match Rewrap(current, s.envelope, s.aad, target, 0)
    case Err(e) => Some(e)
    case Ok(_) => None
  }

  predicate Unobstructed(slots: seq<Slot>, current: MasterKey, target: MasterKey) {
    forall i :: 0 <= i < |slots| ==> Obstacle(slots[i], current, target) == None
  }

  /** `b` is `a` rewrapped for the target, or `a` itself if it was under the target's name already. */
  predicate MovedTo(a: Slot, b: Slot, current: MasterKey, target: MasterKey) {
    b.aad == a.aad && Rewrap(current, a.envelope, a.aad, target, b.envelope.wrapNonce) == Ok(b.envelope)
  }

  predicate AllMoved(before: seq<Slot>, after: seq<Slot>, current: MasterKey, target: MasterKey) {
    |before| == |after| && forall i :: 0 <= i < |before| ==> MovedTo(before[i], after[i], current, target)
  }

  predicate SomeMoved(before: seq<Slot>, after: seq<Slot>, current: MasterKey, target: MasterKey) {
    |before| == |after|
    && forall i :: 0 <= i < |before| ==> after[i] == before[i] || MovedTo(before[i], after[i], current, target)
  }

  /** Same places, and bodies never re-encrypted. */
  predicate SameBodies(a: seq<Slot>, b: seq<Slot>) {
    && |a| == |b|
    && forall i :: 0 <= i < |a| ==> b[i].aad == a[i].aad && b[i].envelope.body == a[i].envelope.body
  }

  /** The first `i` slots are moved, the rest are as before. */
  predicate MovedUpTo(before: seq<Slot>, slots: seq<Slot>, i: nat, current: MasterKey, target: MasterKey) {
    && i <= |before| == |slots|
    && (forall j :: 0 <= j < i ==> MovedTo(before[j], slots[j], current, target))
    && (forall j :: i <= j < |slots| ==> slots[j] == before[j])
  }

  lemma {:induction false} MovedMeans(a: Slot, b: Slot, current: MasterKey, target: MasterKey)
    requires current.id != target.id && MovedTo(a, b, current, target)
    ensures b.envelope.keyId == target.id && b.envelope.body == a.envelope.body
    ensures Obstacle(a, current, target) == None
    ensures b == a <==> a.envelope.keyId == target.id
    ensures a.envelope.keyId == current.id ==> Decrypt(target, b.envelope, b.aad) == Decrypt(current, a.envelope, a.aad)
  {
    if a.envelope.keyId == current.id {
      RewrapKeepsMeaning(current, a.envelope, a.aad, target, b.envelope.wrapNonce);
    }
  }

  /** Rewraps one envelope under a fresh nonce; it fails exactly on an obstacle and changes nothing but the wrapping. */
  method MoveOne(s: Slot, current: MasterKey, target: MasterKey) returns (r: Result<Slot, CipherError>)
    requires current.id != target.id
    ensures r.Err? <==> Obstacle(s, current, target).Some?
    ensures r.Err? ==> Obstacle(s, current, target) == Some(r.error)
    ensures r.Ok? ==> MovedTo(s, r.value, current, target)
  {
    var nonce: Nonce := *;
    var moved := Rewrap(current, s.envelope, s.aad, target, nonce);
    r := if moved.Ok? then Ok(s.(envelope := moved.value)) else Err(moved.error);
  }

  lemma {:induction false} MoveStep(
    before: seq<Slot>, slots: seq<Slot>, i: nat, moved: Slot, current: MasterKey, target: MasterKey)
    requires current.id != target.id && MovedUpTo(before, slots, i, current, target) && i < |slots|
    requires MovedTo(slots[i], moved, current, target)
    ensures MovedUpTo(before, slots[i := moved], i + 1, current, target)
    ensures NotYet(before[..i + 1], target.id) == NotYet(before[..i], target.id) + if moved == slots[i] then 0 else 1
  {
    assert before[..i + 1][..i] == before[..i];
    MovedMeans(slots[i], moved, current, target);
  }

  lemma {:induction false} MovedAll(before: seq<Slot>, slots: seq<Slot>, current: MasterKey, target: MasterKey)
    requires current.id != target.id && MovedUpTo(before, slots, |slots|, current, target)
    ensures AllMoved(before, slots, current, target) && Unobstructed(before, current, target)
    ensures AllUnder(slots, target.id) && before[..|slots|] == before
  {
    forall j | 0 <= j < |slots|
      ensures slots[j].envelope.keyId == target.id && Obstacle(before[j], current, target) == None
    {
      MovedMeans(before[j], slots[j], current, target);
    }
  }

  /** A slot that can be read can be moved, and can be read afterwards. */
  lemma {:induction false} ReadableMoves(a: Slot, b: Slot, plain: string, current: MasterKey, target: MasterKey)
    requires current.id != target.id && Readable(a, plain, current, target)
    ensures Obstacle(a, current, target) == None
    ensures MovedTo(a, b, current, target) ==> Readable(b, plain, current, target)
  {
    if a.envelope.keyId == current.id {
      RewrapKeepsMeaning(current, a.envelope, a.aad, target, 0);
    }
    if MovedTo(a, b, current, target) {
      MovedMeans(a, b, current, target);
    }
  }

  lemma {:induction false} StaysReadable(
    before: seq<Slot>, after: seq<Slot>, plains: seq<string>, current: MasterKey, target: MasterKey)
    requires current.id != target.id && AllReadable(before, plains, current, target)
    ensures Unobstructed(before, current, target)
    ensures SomeMoved(before, after, current, target) ==> AllReadable(after, plains, current, target)
  {
    forall i | 0 <= i < |before|
      ensures Obstacle(before[i], current, target) == None
      ensures SomeMoved(before, after, current, target) ==> Readable(after[i], plains[i], current, target)
    {
      assert Readable(before[i], plains[i], current, target);
      if SomeMoved(before, after, current, target) {
        ReadableMoves(before[i], after[i], plains[i], current, target);
      } else {
        ReadableMoves(before[i], before[i], plains[i], current, target);
      }
    }
  }

  lemma {:induction false} BodiesStay(before: seq<Slot>, after: seq<Slot>, current: MasterKey, target: MasterKey)
    requires current.id != target.id && SomeMoved(before, after, current, target)
    ensures SameBodies(before, after)
  {
    forall i | 0 <= i < |before|
      ensures after[i].aad == before[i].aad && after[i].envelope.body == before[i].envelope.body
    {
      if after[i] != before[i] {
        MovedMeans(before[i], after[i], current, target);
      }
    }
  }

  class DataDirectory {
    var database: seq<Slot>
    var blobs: seq<Slot>
    var marker: Option<Marker>
    var audits: nat
    ghost const databasePlain: seq<string>
    ghost const blobPlain: seq<string>

    /** All stored data encrypted under one key and no rotation under way. */
    constructor (key: MasterKey, database: seq<Slot>, blobs: seq<Slot>,
                 ghost databasePlain: seq<string>, ghost blobPlain: seq<string>)
      requires AllReadable(database, databasePlain, key, key) && AllReadable(blobs, blobPlain, key, key)
      ensures this.database == database && this.blobs == blobs && marker == None
      ensures this.databasePlain == databasePlain && this.blobPlain == blobPlain
      ensures forall target: MasterKey :: Safe(key, target)
    {
      this.database, this.blobs, marker, audits := database, blobs, None, 0;
      this.databasePlain, this.blobPlain := databasePlain, blobPlain;
    }

    /** Every plaintext can be read, and keys are mixed only while the marker of this rotation is there. */
    ghost predicate Safe(current: MasterKey, target: MasterKey)
      reads this
    {
      && AllReadable(database, databasePlain, current, target)
      && AllReadable(blobs, blobPlain, current, target)
      && (marker.None? ==>
            || (AllUnder(database, current.id) && AllUnder(blobs, current.id))
            || (AllUnder(database, target.id) && AllUnder(blobs, target.id)))
    }

    /**
     One run, on any directory. It may die after any step that touches the disk, and
     it stops at the first envelope it cannot open. Whatever happens, every slot is
     as it was or moved to the target. A run that finishes has moved everything and
     removed the marker.
     */
    method Rotate(current: MasterKey, target: MasterKey) returns (outcome: Outcome)
      modifies this
      ensures SomeMoved(old(database), database, current, target) && SomeMoved(old(blobs), blobs, current, target)
      ensures outcome == Refused(SameKeyName) <==> current.id == target.id
      ensures outcome == Refused(OtherRotation) <==>
                current.id != target.id && old(marker).Some? && old(marker).value != Marker(current.id, target.id)
      ensures outcome == Refused(SameKeyName) || outcome == Refused(OtherRotation) ==>
                database == old(database) && blobs == old(blobs) && marker == old(marker)
      ensures outcome != Refused(VerificationFailed)
      ensures outcome.Refused? && outcome.why.BadEnvelope? ==>
                && marker == Some(Marker(current.id, target.id))
                && !(Unobstructed(old(database), current, target) && Unobstructed(old(blobs), current, target))
                && (!Unobstructed(old(database), current, target) ==> database == old(database) && blobs == old(blobs))
      ensures outcome == Crashed ==>
                marker == Some(Marker(current.id, target.id))
                || (marker == old(marker) == None && database == old(database) && blobs == old(blobs))
      ensures outcome.Rotated? ==>
                && marker == None && AllUnder(database, target.id) && AllUnder(blobs, target.id)
                && Unobstructed(old(database), current, target) && Unobstructed(old(blobs), current, target)
                && AllMoved(old(database), database, current, target) && AllMoved(old(blobs), blobs, current, target)
                && outcome.database == NotYet(old(database), target.id)
                && outcome.blobs == NotYet(old(blobs), target.id)
    {
      if current.id == target.id {
        return Refused(SameKeyName);
      }
      if marker.Some? {
        if marker.value != Marker(current.id, target.id) {
          return Refused(OtherRotation);
        }
      } else {
        var early: bool := *;
        if early {
          return Crashed;
        }
        marker := Some(Marker(current.id, target.id));
      }
      var dies: bool := *;
      if dies {
        return Crashed;
      }
      var rows := RotateDatabase(current, target);
      if rows.Err? {
        return Refused(BadEnvelope(rows.error));
      }
      dies := *;
      if dies {
        return Crashed;
      }
      var files;
      dies, files := RotateBlobs(current, target);
      if dies {
        return Crashed;
      }
      if files.Err? {
        return Refused(BadEnvelope(files.error));
      }
      if !Verify(target.id) {
        assert false;
        return Refused(VerificationFailed);
      }
      dies := *;
      if dies {
        return Crashed;
      }
      marker := None;
      outcome := Rotated(rows.value, files.value);
    }

    /** Compares key names only. */
    predicate Verify(keyId: string)
      reads this
    {
      AllUnder(database, keyId) && AllUnder(blobs, keyId)
    }

    /** Rewraps all rows in one transaction: either all of them are replaced or none. */
    method RotateDatabase(current: MasterKey, target: MasterKey) returns (r: Result<nat, CipherError>)
      requires current.id != target.id
      modifies this`database, this`audits
      ensures r.Ok? <==> Unobstructed(old(database), current, target)
      ensures r.Err? ==> database == old(database) && audits == old(audits)
      ensures r.Ok? ==>
                && AllMoved(old(database), database, current, target) && AllUnder(database, target.id)
                && r.value == NotYet(old(database), target.id)
    {
      var rows, count := database, 0;
      for i := 0 to |database|
        invariant database == old(database) && audits == old(audits)
        invariant MovedUpTo(database, rows, i, current, target)
        invariant count == NotYet(database[..i], target.id)
      {
        var moved := MoveOne(rows[i], current, target);
        if moved.Err? {
          return Err(moved.error);
        }
        MoveStep(database, rows, i, moved.value, current, target);
        if moved.value != rows[i] {
          count := count + 1;
        }
        rows := rows[i := moved.value];
      }
      MovedAll(database, rows, current, target);
      database := rows;
      audits := audits + 1;
      r := Ok(count);
    }

    /** Replaces blob files one at a time; each replacement is atomic, and the run may die or fail between two. */
    method RotateBlobs(current: MasterKey, target: MasterKey) returns (dies: bool, r: Result<nat, CipherError>)
      requires current.id != target.id
      modifies this`blobs
      ensures SomeMoved(old(blobs), blobs, current, target)
      ensures !dies ==> (r.Ok? <==> Unobstructed(old(blobs), current, target))
      ensures !dies && r.Ok? ==>
                && AllMoved(old(blobs), blobs, current, target) && AllUnder(blobs, target.id)
                && r.value == NotYet(old(blobs), target.id)
    {
      ghost var before := blobs;
      var count := 0;
      r := Ok(0);
      for i := 0 to |blobs|
        invariant MovedUpTo(before, blobs, i, current, target)
        invariant count == NotYet(before[..i], target.id)
      {
        var moved := MoveOne(blobs[i], current, target);
        if moved.Err? {
          return false, Err(moved.error);
        }
        MoveStep(before, blobs, i, moved.value, current, target);
        if moved.value != blobs[i] {
          blobs := blobs[i := moved.value];
          count := count + 1;
        }
        dies := *;
        if dies {
          return true, r;
        }
      }
      MovedAll(before, blobs, current, target);
      dies, r := false, Ok(count);
    }

    /** A run with the pair of keys the data is under keeps everything readable, at every crash point, and is never stopped. */
    method RotateSafely(current: MasterKey, target: MasterKey) returns (outcome: Outcome)
      requires Safe(current, target) && current.id != target.id
      modifies this
      ensures Safe(current, target) && SameBodies(old(database), database) && SameBodies(old(blobs), blobs)
      ensures outcome.Refused? ==> outcome == Refused(OtherRotation)
      ensures outcome == Refused(OtherRotation) <==> old(marker).Some? && old(marker).value != Marker(current.id, target.id)
      ensures outcome == Crashed ==> marker == None || marker == Some(Marker(current.id, target.id))
      ensures outcome.Rotated? ==> marker == None && AllUnder(database, target.id) && AllUnder(blobs, target.id)
    {
      ghost var rows, files := database, blobs;
      outcome := Rotate(current, target);
      StaysReadable(rows, database, databasePlain, current, target);
      StaysReadable(files, blobs, blobPlain, current, target);
      BodiesStay(rows, database, current, target);
      BodiesStay(files, blobs, current, target);
    }
  }

  /** Whatever happened before, runs with the same pair of keys lead to the target as soon as one survives. */
  method RotateUntilDone(d: DataDirectory, current: MasterKey, target: MasterKey, runs: nat) returns (outcome: Outcome)
    requires d.Safe(current, target) && current.id != target.id
    requires d.marker.Some? ==> d.marker.value == Marker(current.id, target.id)
    modifies d
    ensures d.Safe(current, target) && !outcome.Refused?
    ensures outcome.Rotated? ==>
              && AllUnder(d.database, target.id) && AllUnder(d.blobs, target.id) && d.marker == None
              && AllReadable(d.database, d.databasePlain, target, target) && AllReadable(d.blobs, d.blobPlain, target, target)
  {
    outcome := Crashed;
    var left := runs;
    while left > 0 && outcome == Crashed
      invariant d.Safe(current, target) && !outcome.Refused?
      invariant d.marker.Some? ==> d.marker.value == Marker(current.id, target.id)
      invariant outcome.Rotated? ==> AllUnder(d.database, target.id) && AllUnder(d.blobs, target.id) && d.marker == None
    {
      outcome := d.RotateSafely(current, target);
      left := left - 1;
    }
    if outcome.Rotated? {
      ReadableUnderTarget(d.database, d.databasePlain, current, target);
      ReadableUnderTarget(d.blobs, d.blobPlain, current, target);
    }
  }

  lemma {:induction false} ReadableUnderTarget(
    slots: seq<Slot>, plains: seq<string>, current: MasterKey, target: MasterKey)
    requires current.id != target.id && AllReadable(slots, plains, current, target) && AllUnder(slots, target.id)
    ensures AllReadable(slots, plains, target, target)
  {
    forall i | 0 <= i < |slots|
      ensures Readable(slots[i], plains[i], target, target)
    {
      assert Readable(slots[i], plains[i], current, target);
    }
  }

  predicate NoneUnder(slots: seq<Slot>, keyId: string) {
    forall i :: 0 <= i < |slots| ==> slots[i].envelope.keyId != keyId
  }

  /** After such a move a slot opens under the rerun's key exactly when it was not yet under the name, or the bytes agree. */
  lemma {:induction false} OpensAfterRerun(
    a: Slot, b: Slot, plain: string, current: MasterKey, target: MasterKey, again: MasterKey)
    requires current.id != target.id && again.id == target.id && Readable(a, plain, current, target)
    requires MovedTo(a, b, current, again)
    ensures Readable(b, plain, again, again) <==> again.secret == target.secret || a.envelope.keyId != target.id
  {
    MovedMeans(a, b, current, again);
    if a.envelope.keyId == target.id {
      RerunNeedsTheSameBytes(current, a.envelope, a.aad, target, again, 0);
    }
  }

  lemma {:induction false} AllOpenAfterRerun(
    before: seq<Slot>, after: seq<Slot>, plains: seq<string>, current: MasterKey, target: MasterKey, again: MasterKey)
    requires current.id != target.id && again.id == target.id && AllReadable(before, plains, current, target)
    requires AllMoved(before, after, current, again)
    ensures AllReadable(after, plains, again, again) <==> again.secret == target.secret || NoneUnder(before, target.id)
  {
    forall i | 0 <= i < |before|
      ensures Readable(after[i], plains[i], again, again)
              <==> again.secret == target.secret || before[i].envelope.keyId != target.id
    {
      assert Readable(before[i], plains[i], current, target) && MovedTo(before[i], after[i], current, again);
      OpensAfterRerun(before[i], after[i], plains[i], current, target, again);
    }
    if AllReadable(after, plains, again, again) && again.secret != target.secret {
      assert forall i :: 0 <= i < |before| ==> Readable(after[i], plains[i], again, again);
    }
  }

  lemma {:induction false} NothingInTheWay(
    slots: seq<Slot>, plains: seq<string>, current: MasterKey, target: MasterKey, again: MasterKey)
    requires current.id != target.id && again.id == target.id && AllReadable(slots, plains, current, target)
    ensures Unobstructed(slots, current, again)
  {
    forall i | 0 <= i < |slots|
      ensures Obstacle(slots[i], current, again) == None
    {
      assert Readable(slots[i], plains[i], current, target);
      if slots[i].envelope.keyId == current.id {
        RewrapKeepsMeaning(current, slots[i].envelope, slots[i].aad, again, 0);
      }
    }
  }

  /**
   An interrupted rotation picked up with a target of the same name. It is never
   refused; if it does not die it reports success and removes the marker; and then
   everything opens under the new target if and only if its bytes are those of the
   first one, or nothing had been moved yet.
   */
  method RerunUnderSameName(d: DataDirectory, current: MasterKey, target: MasterKey, again: MasterKey)
    returns (outcome: Outcome)
    requires d.Safe(current, target) && current.id != target.id && again.id == target.id
    requires d.marker == Some(Marker(current.id, target.id))
    modifies d
    ensures outcome == Crashed || outcome.Rotated?
    ensures outcome.Rotated? ==>
              && d.marker == None
              && (AllReadable(d.database, d.databasePlain, again, again) && AllReadable(d.blobs, d.blobPlain, again, again)
                  <==> || again.secret == target.secret
                       || (NoneUnder(old(d.database), target.id) && NoneUnder(old(d.blobs), target.id)))
  {
    ghost var rows, files := d.database, d.blobs;
    outcome := d.Rotate(current, again);
    NothingInTheWay(rows, d.databasePlain, current, target, again);
    NothingInTheWay(files, d.blobPlain, current, target, again);
    if outcome.Rotated? {
      AllOpenAfterRerun(rows, d.database, d.databasePlain, current, target, again);
      AllOpenAfterRerun(files, d.blobs, d.blobPlain, current, target, again);
    }
  }
}
