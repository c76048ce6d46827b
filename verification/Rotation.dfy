/** Rotation of the server's log file: slot 0 is the log itself, slots 1 to 5 its rotated
    segments, newest first. */
module Rotation {
  import opened Wrappers

  type Segment = string

  const MAX_FILE_SIZE := 50 * 1024 * 1024
  const MAX_ROTATED := 5

  type Files = map<nat, Segment>

  /** The step whose file operation throws, if one does: the unlink of slot 5, or the rename of a
      lower slot. A step without a file makes no operation. */
  type Fault = Option<nat>

  predicate Due(files: Files) {
    0 in files && |files[0]| >= MAX_FILE_SIZE
  }

  ghost predicate MovedUp(before: Files, after: Files, k: nat)
    requires k >= 1
  {
    (k in after <==> k - 1 in before) && (k in after ==> after[k] == before[k - 1])
  }

  ghost predicate Kept(before: Files, after: Files, k: nat) {
    (k in after <==> k in before) && (k in after ==> after[k] == before[k])
  }

  /** A rotation stopped part way: slots above i hold what was one below, slot i is free, and
      those under it have not moved. Only the old slot 5 is gone. */
  ghost predicate PartlyShifted(before: Files, after: Files, i: nat) {
    && i <= MAX_ROTATED && i !in after
    && forall k: nat | k != i :: if i < k <= MAX_ROTATED then MovedUp(before, after, k) else Kept(before, after, k)
  }

  /** Slot k + 1 becomes slot k, present or absent; the log and the old slot 5 are gone. */
  ghost predicate Shifted(before: Files, after: Files) {
    PartlyShifted(before, after, 0)
  }

  lemma ShiftedUnique(before: Files, a: Files, b: Files)
    requires Shifted(before, a) && Shifted(before, b)
    ensures a == b
  {
    forall k: nat ensures k in a <==> k in b
                  ensures k in a ==> a[k] == b[k]
    {
      assert k != 0 ==> (MovedUp(before, a, k) && MovedUp(before, b, k)) || (Kept(before, a, k) && Kept(before, b, k));
    }
  }

  /** Moving slot i into the free slot above it. */
  lemma ShiftOne(before: Files, files: Files, i: nat)
    requires PartlyShifted(before, files, i + 1)
    ensures i in files <==> i in before
    ensures PartlyShifted(before, if i in files then (files - {i})[i + 1 := files[i]] else files, i)
  {
    assert Kept(before, files, i);
    var next := if i in files then (files - {i})[i + 1 := files[i]] else files;
    forall k: nat | k != i
      ensures if i < k <= MAX_ROTATED then MovedUp(before, next, k) else Kept(before, next, k)
    {
      assert k != i + 1 ==> if i + 1 < k <= MAX_ROTATED then MovedUp(before, files, k) else Kept(before, files, k);
    }
  }

  /** Where a rotation of these files stops. */
  function StopsAt(files: Files, fault: Fault): Fault {
    if Due(files) && fault.Some? && fault.value <= MAX_ROTATED && fault.value in files then fault else None
  }

  /** What a rotation leaves, whether it goes through or stops. */
  ghost predicate Rotated(before: Files, after: Files, fault: Fault) {
    if !Due(before) then after == before
    else
      match StopsAt(before, fault)
      case None => Shifted(before, after)
      case Some(i) => if i == MAX_ROTATED then after == before else PartlyShifted(before, after, i + 1)
  }

  /** Stopped anywhere, a rotation has lost nothing but the old slot 5. */
  lemma RotationLosesOnlyTheOldest(before: Files, after: Files, fault: Fault, k: nat)
    requires Rotated(before, after, fault) && k in before && k != MAX_ROTATED
    ensures (k in after && after[k] == before[k]) || (k + 1 in after && after[k + 1] == before[k])
  {
    if Due(before) {
      match StopsAt(before, fault)
      case None => InterruptedLosesOnlyTheOldest(before, after, 0, k);
      case Some(i) =>
        if i != MAX_ROTATED {
          InterruptedLosesOnlyTheOldest(before, after, i + 1, k);
        }
    }
  }

  lemma InterruptedLosesOnlyTheOldest(before: Files, after: Files, i: nat, k: nat)
    requires PartlyShifted(before, after, i) && k in before && k != MAX_ROTATED
    ensures (k in after && after[k] == before[k]) || (k + 1 in after && after[k + 1] == before[k])
  {
    assert k + 1 != i && i < k + 1 <= MAX_ROTATED ==> MovedUp(before, after, k + 1);
    assert k != i && !(i < k <= MAX_ROTATED) ==> Kept(before, after, k);
  }

  /** A log below 50 MiB stays; from there on it becomes slot 1, unless an operation throws. */
  lemma RotatesFromFiftyMebibytes(before: Files, after: Files)
    requires Rotated(before, after, None)
    ensures 0 !in before || |before[0]| < 52_428_800 ==> after == before
    ensures 0 in before && |before[0]| >= 52_428_800 ==> 0 !in after && 1 in after && after[1] == before[0]
  {
    if Due(before) {
      assert MovedUp(before, after, 1);
    }
  }

  class LogDirectory {
    var files: Files

    constructor ()
      ensures files == map[]
    {
      files := map[];
    }

    /** renameSync, with what rotation owes it: a source to move and a free name to move it to.
        It may throw instead. */
    method Rename(src: nat, dst: nat, throws: bool) returns (ok: bool)
      requires src in files && dst !in files
      modifies this
      ensures ok == !throws
      ensures files == if ok then (old(files) - {src})[dst := old(files)[src]] else old(files)
    {
      if throws {
        return false;
      }
      files := (files - {src})[dst := files[src]];
      return true;
    }

    method Unlink(slot: nat, throws: bool) returns (ok: bool)
      modifies this
      ensures ok == !throws
      ensures files == if ok then old(files) - {slot} else old(files)
    {
      if throws {
        return false;
      }
      files := files - {slot};
      return true;
    }

    /** The first operation that throws ends the rotation; what it answers is where. */
    method RotateIfNeeded(fault: Fault) returns (stopped: Fault)
      modifies this
      ensures stopped == StopsAt(old(files), fault)
      ensures Rotated(old(files), files, fault)
    {
      if 0 !in files {
        return None;
      }
      if |files[0]| < MAX_FILE_SIZE {
        return None;
      }
      if MAX_ROTATED in files {
        var ok := Unlink(MAX_ROTATED, fault == Some(MAX_ROTATED));
        if !ok {
          return fault;
        }
      }
      var i := MAX_ROTATED - 1;
      while i >= 1
        invariant 0 <= i < MAX_ROTATED
        invariant PartlyShifted(old(files), files, i + 1)
        invariant fault.Some? && i < fault.value <= MAX_ROTATED ==> fault.value !in old(files)
      {
        ShiftOne(old(files), files, i);
        if i in files {
          var ok := Rename(i, i + 1, fault == Some(i));
          if !ok {
            return fault;
          }
        }
        i := i - 1;
      }
      ShiftOne(old(files), files, 0);
      var ok := Rename(0, 1, fault == Some(0));
      if !ok {
        return fault;
      }
      return None;
    }

    method Append(text: Segment)
      modifies this
      ensures files == old(files)[0 := (if 0 in old(files) then old(files)[0] else "") + text]
    {
      files := files[0 := (if 0 in files then files[0] else "") + text];
    }
  }

  // ---------- Over all runs ----------

  datatype Event = Append(text: Segment) | Rotate(fault: Fault)

  /** `rotated` lists the segments rotated so far, newest first. */
  datatype State = State(files: Files, rotated: seq<Segment>)

  ghost predicate Step(s: State, e: Event, t: State) {
    match e
    case Append(text) =>
      && t.files == s.files[0 := (if 0 in s.files then s.files[0] else "") + text]
      && t.rotated == s.rotated
    case Rotate(fault) =>
      && Rotated(s.files, t.files, fault)
      && t.rotated == (if Due(s.files) && StopsAt(s.files, fault).None? then [s.files[0]] else []) + s.rotated
  }

  ghost predicate IsRun(events: seq<Event>, states: seq<State>) {
    && |states| == |events| + 1
    && states[0] == State(map[], [])
    && forall i | 0 <= i < |events| :: Step(states[i], events[i], states[i + 1])
  }

  /** Slot k holds the k-th most recently rotated segment, and is absent when fewer exist. */
  ghost predicate NewestFirst(s: State) {
    forall k: nat | 1 <= k <= MAX_ROTATED ::
      (k in s.files <==> k <= |s.rotated|) && (k in s.files ==> s.files[k] == s.rotated[k - 1])
  }

  lemma StepKeepsOrder(s: State, e: Event, t: State)
    requires Step(s, e, t) && NewestFirst(s) && (e.Rotate? ==> e.fault.None?)
    ensures NewestFirst(t)
  {
    if e.Rotate? && Due(s.files) {
      forall k: nat | 1 <= k <= MAX_ROTATED
        ensures (k in t.files <==> k <= |t.rotated|) && (k in t.files ==> t.files[k] == t.rotated[k - 1])
      {
        assert MovedUp(s.files, t.files, k);
        if k > 1 {
          assert k - 1 in s.files <==> k - 1 <= |s.rotated|;
        }
      }
    } else if e.Rotate? {
      assert t.rotated == s.rotated;
    }
  }

  /** While no file operation throws. */
  lemma {:induction false} SlotsHoldNewestFirst(events: seq<Event>, states: seq<State>, n: nat)
    requires IsRun(events, states) && n <= |events|
    requires forall i | 0 <= i < n && events[i].Rotate? :: events[i].fault.None?
    ensures NewestFirst(states[n])
  {
    if n > 0 {
      SlotsHoldNewestFirst(events, states, n - 1);
      assert Step(states[n - 1], events[n - 1], states[n - 1 + 1]);
      StepKeepsOrder(states[n - 1], events[n - 1], states[n]);
    }
  }

  /** There is never a sixth slot. */
  lemma {:induction false} FiveSlots(events: seq<Event>, states: seq<State>, n: nat)
    requires IsRun(events, states) && n <= |events|
    ensures forall k | k in states[n].files :: k <= 5
  {
    if n > 0 {
      FiveSlots(events, states, n - 1);
      assert Step(states[n - 1], events[n - 1], states[n - 1 + 1]);
      forall k | k in states[n].files ensures k <= 5 {
        assert k > 5 ==> Kept(states[n - 1].files, states[n].files, k);
      }
    }
  }

  /** While no file operation throws, the five newest of the rotated segments are kept, one in each
      slot. */
  lemma FiveNewestKept(events: seq<Event>, states: seq<State>, n: nat)
    requires IsRun(events, states) && n <= |events|
    requires forall i | 0 <= i < n && events[i].Rotate? :: events[i].fault.None?
    ensures forall k: nat | k > 0 ::
              && (k in states[n].files <==> k <= 5 && k <= |states[n].rotated|)
              && (k in states[n].files ==> states[n].files[k] == states[n].rotated[k - 1])
  {
    SlotsHoldNewestFirst(events, states, n);
    FiveSlots(events, states, n);
  }

  /** No segment is rotated before it has 50 MiB. */
  lemma {:induction false} SegmentsAreFull(events: seq<Event>, states: seq<State>, n: nat)
    requires IsRun(events, states) && n <= |events|
    ensures forall k | 0 <= k < |states[n].rotated| :: |states[n].rotated[k]| >= 52_428_800
  {
    if n > 0 {
      SegmentsAreFull(events, states, n - 1);
      assert Step(states[n - 1], events[n - 1], states[n - 1 + 1]);
    }
  }

  /** `age` says which rotated segment each slot holds, counted from the newest: every slot holds
      one, and a lower slot a newer one. */
  ghost predicate Ordered(s: State, age: map<nat, nat>) {
    && (forall k: nat | 1 <= k <= MAX_ROTATED ::
          (k in s.files <==> k in age) && (k in age ==> age[k] < |s.rotated| && s.files[k] == s.rotated[age[k]]))
    && Ascending(age)
  }

  ghost predicate InSlots(age: map<nat, nat>) {
    forall k | k in age :: 1 <= k <= MAX_ROTATED
  }

  /** A rotation that goes through makes every rotated segment one older. */
  lemma ShiftKeepsAges(s: State, t: State, age: map<nat, nat>) returns (next: map<nat, nat>)
    requires Due(s.files) && Shifted(s.files, t.files) && t.rotated == [s.files[0]] + s.rotated
    requires Ordered(s, age) && InSlots(age)
    ensures Ordered(t, next) && InSlots(next)
  {
    next := map k: nat | 1 <= k <= MAX_ROTATED && k in t.files && (k > 1 ==> k - 1 in age) ::
              if k == 1 then 0 else age[k - 1] + 1;
    forall k: nat | 1 <= k <= MAX_ROTATED
      ensures (k in t.files <==> k in next) && (k in next ==> next[k] < |t.rotated| && t.files[k] == t.rotated[next[k]])
    {
      assert MovedUp(s.files, t.files, k);
    }
  }

  function CameFrom(k: nat, free: nat): (j: nat)
    requires k >= 1
  {
    if k < free then k else k - 1
  }

  ghost predicate Ascending(age: map<nat, nat>) {
    forall k, l | k in age && l in age && k < l :: age[k] < age[l]
  }

  /** The ages with those of the slots above the free one moved up. */
  lemma AgesMoved(age: map<nat, nat>, free: nat) returns (next: map<nat, nat>)
    requires InSlots(age) && Ascending(age)
    ensures forall k: nat | 1 <= k <= MAX_ROTATED ::
              && (k in next <==> k != free && CameFrom(k, free) in age)
              && (k in next ==> next[k] == age[CameFrom(k, free)])
    ensures InSlots(next) && Ascending(next)
  {
    next := map k: nat | 1 <= k <= MAX_ROTATED && k != free && CameFrom(k, free) in age :: age[CameFrom(k, free)];
  }

  /** One that stops moves segments up and leaves the rest. */
  lemma StopKeepsAges(s: State, t: State, free: nat, age: map<nat, nat>) returns (next: map<nat, nat>)
    requires 1 <= free && PartlyShifted(s.files, t.files, free) && t.rotated == s.rotated
    requires Ordered(s, age) && InSlots(age)
    ensures Ordered(t, next) && InSlots(next)
  {
    hide PartlyShifted, MovedUp, Kept;
    next := AgesMoved(age, free);
    forall k: nat | 1 <= k <= MAX_ROTATED
      ensures (k in t.files <==> k in next) && (k in next ==> next[k] < |t.rotated| && t.files[k] == t.rotated[next[k]])
    {
      FileCameFrom(s.files, t.files, free, k);
    }
  }

  lemma FileCameFrom(before: Files, after: Files, free: nat, k: nat)
    requires 1 <= free && PartlyShifted(before, after, free) && 1 <= k <= MAX_ROTATED
    ensures k == free ==> k !in after
    ensures var j := CameFrom(k, free);
            k != free ==> (k in after <==> j in before) && (k in after ==> after[k] == before[j])
  {
    if k < free {
      assert Kept(before, after, k);
    } else if k > free {
      assert MovedUp(before, after, k);
    }
  }

  lemma StepKeepsAges(s: State, e: Event, t: State, age: map<nat, nat>) returns (next: map<nat, nat>)
    requires Step(s, e, t) && Ordered(s, age) && InSlots(age)
    ensures Ordered(t, next) && InSlots(next)
  {
    hide PartlyShifted;
    if e.Append? || !Due(s.files) || StopsAt(s.files, e.fault) == Some(MAX_ROTATED) {
      assert t.rotated == s.rotated;
      next := age;
    } else if StopsAt(s.files, e.fault).None? {
      next := ShiftKeepsAges(s, t, age);
    } else {
      next := StopKeepsAges(s, t, e.fault.value + 1, age);
    }
  }

  /** Whatever throws and when, every slot holds a rotated segment and lower slots newer ones. */
  lemma {:induction false} SlotsStayOrdered(events: seq<Event>, states: seq<State>, n: nat) returns (age: map<nat, nat>)
    requires IsRun(events, states) && n <= |events|
    ensures Ordered(states[n], age) && InSlots(age)
  {
    if n == 0 {
      age := map[];
    } else {
      age := SlotsStayOrdered(events, states, n - 1);
      assert Step(states[n - 1], events[n - 1], states[n - 1 + 1]);
      age := StepKeepsAges(states[n - 1], events[n - 1], states[n], age);
    }
  }
}
