/** The trace-session cache of the log server: a slot, a version, and loads shared between
    readers. Steps are the stretches of code between two awaits; any interleaving is a run. */
module SessionCache {
  import opened Wrappers

  type Session = int
  type LoadId = nat
  type ReadId = nat
  /** An array object: an index into the heap, where its contents stand beside its allocator. */
  type Ref = nat
  datatype Owner = ByLoad(load: LoadId) | ByReader(read: ReadId)
  datatype Cell = Cell(owner: Owner, rows: seq<Session>)

  datatype Slot = Slot(sessions: Option<Ref>, promise: Option<LoadId>, sourceMtime: nat)

  datatype Outcome =
    | InFlight
    | Loaded(rows: Ref, produced: seq<Session>, endMtime: nat)
    | Failed

  /** A load with what its callbacks captured: the version and the stale copy to put back. */
  datatype Load = Load(begunAt: nat, version: nat, sourceMtime: nat,
                       stale: Option<Ref>, staleMtime: nat, outcome: Outcome)

  datatype Phase =
    | Waiting(load: LoadId)
    | Returned(rows: Ref, origin: Ref)
    | Rejected

  datatype Read = Read(begunAt: nat, phase: Phase)

  datatype State = State(slot: Option<Slot>, version: nat, mtime: nat, clock: nat,
                         loads: seq<Load>, readers: seq<Read>, heap: seq<Cell>)

  datatype Event =
    | BeginRead
    | LoadSucceeds(load: LoadId, rows: seq<Session>)
    | LoadFails(load: LoadId)
    | ResumeRead(read: ReadId)
    | Invalidate
    | SourceChanges(mtime: nat)
    | CallerWrites(read: ReadId, rows: seq<Session>)

  const INITIAL := State(None, 0, 0, 0, [], [], [])

  // ---------- Steps ----------

  predicate InFlightLoad(s: State, id: LoadId) {
    id < |s.loads| && s.loads[id].outcome.InFlight?
  }

  predicate ReturnedRead(s: State, r: ReadId) {
    r < |s.readers| && s.readers[r].phase.Returned?
  }

  predicate Resumable(s: State, r: ReadId) {
    && r < |s.readers| && s.readers[r].phase.Waiting?
    && s.readers[r].phase.load < |s.loads| && !s.loads[s.readers[r].phase.load].outcome.InFlight?
  }

  predicate Enabled(s: State, e: Event) {
    match e
    case BeginRead => s.slot.Some? && s.slot.value.sessions.Some? ==> s.slot.value.sessions.value < |s.heap|
    case LoadSucceeds(id, _) => InFlightLoad(s, id)
    case LoadFails(id) => InFlightLoad(s, id)
    case ResumeRead(r) =>
      && Resumable(s, r)
      && var outcome := s.loads[s.readers[r].phase.load].outcome;
      outcome.Loaded? ==> outcome.rows < |s.heap|
    case Invalidate => true
    case SourceChanges(_) => true
    case CallerWrites(r, _) => ReturnedRead(s, r) && s.readers[r].phase.rows < |s.heap|
  }

  predicate Hit(s: State) {
    s.slot.Some? && s.slot.value.sessions.Some? && s.slot.value.sourceMtime == s.mtime
  }

  predicate Join(s: State) {
    !Hit(s) && s.slot.Some? && s.slot.value.promise.Some?
  }

  function Stale(s: State): Option<Ref> {
    if s.slot.Some? then s.slot.value.sessions else None
  }

  function StaleMtime(s: State): nat {
    if s.slot.Some? then s.slot.value.sourceMtime else 0
  }

  /** readAllTraceSessions up to its first await (or its return, on a hit). */
  function Begin(s: State): State
    requires Enabled(s, BeginRead)
  {
    if Hit(s) then
      s.(readers := s.readers + [Read(s.clock, Returned(|s.heap|, s.slot.value.sessions.value))],
         heap := s.heap + [Cell(ByReader(|s.readers|), s.heap[s.slot.value.sessions.value].rows)])
    else if Join(s) then
      s.(readers := s.readers + [Read(s.clock, Waiting(s.slot.value.promise.value))])
    else
      s.(loads := s.loads + [Load(s.clock, s.version, s.mtime, Stale(s), StaleMtime(s), InFlight)],
         readers := s.readers + [Read(s.clock, Waiting(|s.loads|))],
         slot := Some(Slot(Stale(s), Some(|s.loads|), StaleMtime(s))))
  }

  /** The callbacks' guard: the slot still waits for this load, under this version. */
  predicate Current(s: State, id: LoadId)
    requires id < |s.loads|
  {
    s.version == s.loads[id].version && s.slot.Some? && s.slot.value.promise == Some(id)
  }

  function Restored(load: Load): Option<Slot> {
    if load.stale.Some? then Some(Slot(load.stale, None, load.staleMtime)) else None
  }

  function Succeed(s: State, id: LoadId, rows: seq<Session>): State
    requires InFlightLoad(s, id)
  {
    var load := s.loads[id];
    var slot :=
      if !Current(s, id) then s.slot
      else if s.mtime == load.sourceMtime then Some(Slot(Some(|s.heap|), None, load.sourceMtime))
      else Restored(load);
    s.(slot := slot, heap := s.heap + [Cell(ByLoad(id), rows)],
       loads := s.loads[id := load.(outcome := Loaded(|s.heap|, rows, s.mtime))])
  }

  function Fail(s: State, id: LoadId): State
    requires InFlightLoad(s, id)
  {
    var load := s.loads[id];
    s.(slot := if Current(s, id) then Restored(load) else s.slot,
       loads := s.loads[id := load.(outcome := Failed)])
  }

  /** After the await: copy the shared rows, or rethrow. */
  function Resume(s: State, r: ReadId): State
    requires Enabled(s, ResumeRead(r))
  {
    var outcome := s.loads[s.readers[r].phase.load].outcome;
    if outcome.Failed? then s.(readers := s.readers[r := s.readers[r].(phase := Rejected)])
    else s.(readers := s.readers[r := s.readers[r].(phase := Returned(|s.heap|, outcome.rows))],
            heap := s.heap + [Cell(ByReader(r), s.heap[outcome.rows].rows)])
  }

  function Next(s: State, e: Event): State
    requires Enabled(s, e)
  {
    var t := match e
      case BeginRead => Begin(s)
      case LoadSucceeds(id, rows) => Succeed(s, id, rows)
      case LoadFails(id) => Fail(s, id)
      case ResumeRead(r) => Resume(s, r)
      case Invalidate => s.(slot := None, version := s.version + 1)
      case SourceChanges(mtime) => s.(mtime := mtime)
      case CallerWrites(r, rows) =>
        var ref := s.readers[r].phase.rows;
        s.(heap := s.heap[ref := s.heap[ref].(rows := rows)]);
    t.(clock := s.clock + 1)
  }

  /** The states along a run: event i leads from state i to state i + 1. */
  ghost predicate IsRun(events: seq<Event>, states: seq<State>) {
    && |states| == |events| + 1
    && states[0] == INITIAL
    && forall i | 0 <= i < |events| :: Enabled(states[i], events[i]) && states[i + 1] == Next(states[i], events[i])
  }

  // ---------- The invariant ----------

  /** ref is the array some finished load produced. */
  ghost predicate ProducedBy(s: State, ref: Ref, id: LoadId) {
    id < |s.loads| && s.loads[id].outcome.Loaded? && s.loads[id].outcome.rows == ref
  }

  /** A cached pair: the rows come from a load that saw this mtime both when it began and when it ended. */
  ghost predicate SoundPair(s: State, ref: Ref, mtime: nat) {
    exists id: nat :: ProducedBy(s, ref, id) && s.loads[id].sourceMtime == s.loads[id].outcome.endMtime == mtime
                 && s.loads[id].version == s.version
  }

  ghost predicate SlotSound(s: State) {
    s.slot.Some? ==>
      && (s.slot.value.sessions.Some? ==> SoundPair(s, s.slot.value.sessions.value, s.slot.value.sourceMtime))
      && (s.slot.value.promise.Some? ==>
            && InFlightLoad(s, s.slot.value.promise.value)
            && s.loads[s.slot.value.promise.value].version == s.version)
  }

  /** A live load of the current version is the slot's promise, and what it would put back is sound. */
  ghost predicate LoadsSound(s: State) {
    forall id: nat | id < |s.loads| ::
      && s.loads[id].version <= s.version
      && s.loads[id].begunAt < s.clock
      && (s.loads[id].outcome.InFlight? && s.loads[id].version == s.version ==>
            && s.slot.Some? && s.slot.value.promise == Some(id)
            && (s.loads[id].stale.Some? ==> SoundPair(s, s.loads[id].stale.value, s.loads[id].staleMtime)))
  }

  /** Two live loads never share a version. */
  ghost predicate OneLoadPerVersion(s: State) {
    forall a: nat, b: nat | InFlightLoad(s, a) && InFlightLoad(s, b) ::
      s.loads[a].version == s.loads[b].version ==> a == b
  }

  /** Arrays that loads produced keep their rows and are shared with no reader. */
  ghost predicate HeapSound(s: State) {
    && (forall id: nat | id < |s.loads| && s.loads[id].outcome.Loaded? ::
          s.loads[id].outcome.rows < |s.heap|
          && s.heap[s.loads[id].outcome.rows] == Cell(ByLoad(id), s.loads[id].outcome.produced))
    && (forall r: nat | ReturnedRead(s, r) ::
          s.readers[r].phase.rows < |s.heap| && s.heap[s.readers[r].phase.rows].owner == ByReader(r))
  }

  /** Some load of at least this version produced the array. */
  ghost predicate ProducedSince(s: State, ref: Ref, version: nat) {
    exists id: nat :: ProducedBy(s, ref, id) && s.loads[id].version >= version
  }

  /** `versionAt[i]` is the version in force at step i. A reader only sees loads begun under
      the version in force when the reader began, or a later one. */
  ghost predicate ReaderSound(s: State, reader: Read, versionAt: seq<nat>) {
    && reader.begunAt < |versionAt|
    && (reader.phase.Waiting? ==>
          && reader.phase.load < |s.loads|
          && s.loads[reader.phase.load].version >= versionAt[reader.begunAt])
    && (reader.phase.Returned? ==> ProducedSince(s, reader.phase.origin, versionAt[reader.begunAt]))
  }

  ghost predicate VersionsSound(s: State, versionAt: seq<nat>) {
    && |versionAt| == s.clock
    && (forall i: nat | i < |versionAt| :: versionAt[i] <= s.version)
    && (forall i: nat, j: nat | i <= j < |versionAt| :: versionAt[i] <= versionAt[j])
    && (forall id: nat | id < |s.loads| ::
          s.loads[id].begunAt < |versionAt| && s.loads[id].version == versionAt[s.loads[id].begunAt])
  }

  ghost predicate ReadersSound(s: State, versionAt: seq<nat>) {
    forall r: nat | r < |s.readers| :: ReaderSound(s, s.readers[r], versionAt)
  }

  ghost predicate Inv(s: State, versionAt: seq<nat>) {
    && SlotSound(s) && LoadsSound(s) && OneLoadPerVersion(s) && HeapSound(s)
    && VersionsSound(s, versionAt) && ReadersSound(s, versionAt)
  }

  // ---------- Every step keeps it ----------

  lemma InitialInv()
    ensures Inv(INITIAL, [])
  {}

  lemma PairKept(s: State, t: State, ref: Ref, mtime: nat)
    requires SoundPair(s, ref, mtime) && t.version == s.version && |s.loads| <= |t.loads|
    requires forall id: nat | id < |s.loads| && s.loads[id].outcome.Loaded? :: t.loads[id] == s.loads[id]
    ensures SoundPair(t, ref, mtime)
  {
    var id: nat :| ProducedBy(s, ref, id) && s.loads[id].sourceMtime == s.loads[id].outcome.endMtime == mtime
              && s.loads[id].version == s.version;
    assert ProducedBy(t, ref, id);
  }

  /** What every step does to finished loads and settled readers: nothing. */
  ghost predicate Grows(s: State, t: State) {
    && t.clock == s.clock + 1 && t.version >= s.version
    && |s.loads| <= |t.loads| && |s.readers| <= |t.readers| && |s.heap| <= |t.heap|
    && (forall id: nat | id < |s.loads| ::
          t.loads[id].begunAt == s.loads[id].begunAt && t.loads[id].version == s.loads[id].version)
    && (forall id: nat | id < |s.loads| && s.loads[id].outcome.Loaded? :: t.loads[id] == s.loads[id])
    && (forall r: nat | r < |s.readers| :: t.readers[r].begunAt == s.readers[r].begunAt)
  }

  lemma NextGrows(s: State, e: Event)
    requires Enabled(s, e)
    ensures Grows(s, Next(s, e))
  {}

  lemma VersionsKept(s: State, e: Event, versionAt: seq<nat>)
    requires Enabled(s, e) && VersionsSound(s, versionAt)
    ensures VersionsSound(Next(s, e), versionAt + [s.version])
  {
    NextGrows(s, e);
  }

  lemma ReaderKept(s: State, t: State, reader: Read, versionAt: seq<nat>, version: nat)
    requires Grows(s, t) && ReaderSound(s, reader, versionAt)
    ensures ReaderSound(t, reader, versionAt + [version])
  {
    if reader.phase.Returned? {
      var id: nat :| ProducedBy(s, reader.phase.origin, id) && s.loads[id].version >= versionAt[reader.begunAt];
      assert ProducedBy(t, reader.phase.origin, id);
    }
  }

  /** The reader a step adds or moves on. */
  lemma MovedReader(s: State, e: Event, versionAt: seq<nat>, r: nat)
    requires Enabled(s, e) && SlotSound(s) && VersionsSound(s, versionAt) && ReadersSound(s, versionAt)
    requires (e.BeginRead? && r == |s.readers|) || (e.ResumeRead? && r == e.read)
    ensures ReaderSound(Next(s, e), Next(s, e).readers[r], versionAt + [s.version])
  {
    var t := Next(s, e);
    NextGrows(s, e);
    if e.ResumeRead? {
      var id := s.readers[r].phase.load;
      assert ReaderSound(s, s.readers[r], versionAt);
      assert s.loads[id].outcome.Loaded? ==> ProducedBy(t, s.loads[id].outcome.rows, id);
    } else if Hit(s) {
      var slot := s.slot.value;
      var id: nat :| ProducedBy(s, slot.sessions.value, id) && s.loads[id].version == s.version;
      assert ProducedBy(t, slot.sessions.value, id);
    }
  }

  lemma ReadersKept(s: State, e: Event, versionAt: seq<nat>)
    requires Enabled(s, e) && SlotSound(s) && VersionsSound(s, versionAt) && ReadersSound(s, versionAt)
    ensures ReadersSound(Next(s, e), versionAt + [s.version])
  {
    hide Next, ReaderSound;
    var t := Next(s, e);
    NextGrows(s, e);
    forall r: nat | r < |t.readers| ensures ReaderSound(t, t.readers[r], versionAt + [s.version]) {
      if (e.BeginRead? && r == |s.readers|) || (e.ResumeRead? && r == e.read) {
        MovedReader(s, e, versionAt, r);
      } else {
        OtherReader(s, e, r);
        ReaderKept(s, t, s.readers[r], versionAt, s.version);
      }
    }
  }

  lemma OtherReader(s: State, e: Event, r: nat)
    requires Enabled(s, e) && r < |Next(s, e).readers|
    requires !(e.BeginRead? && r == |s.readers|) && !(e.ResumeRead? && r == e.read)
    ensures r < |s.readers| && Next(s, e).readers[r] == s.readers[r]
  {}

  lemma HeapKept(s: State, e: Event)
    requires Enabled(s, e) && SlotSound(s) && HeapSound(s)
    ensures HeapSound(Next(s, e))
  {}

  lemma SlotKept(s: State, e: Event)
    requires Enabled(s, e) && SlotSound(s) && LoadsSound(s) && OneLoadPerVersion(s)
    ensures SlotSound(Next(s, e))
  {
    var t := Next(s, e);
    hide SoundPair;
    NextGrows(s, e);
    if t.slot.Some? && t.slot.value.sessions.Some? {
      var ref, mtime := t.slot.value.sessions.value, t.slot.value.sourceMtime;
      if e.LoadSucceeds? && Current(s, e.load) && s.mtime == s.loads[e.load].sourceMtime {
        FreshPair(s, e);
      } else {
        PairKept(s, t, ref, mtime);
      }
    }
  }

  lemma FreshPair(s: State, e: Event)
    requires Enabled(s, e) && e.LoadSucceeds?
    requires Current(s, e.load) && s.mtime == s.loads[e.load].sourceMtime
    ensures SoundPair(Next(s, e), |s.heap|, s.mtime)
  {
    assert ProducedBy(Next(s, e), |s.heap|, e.load);
  }

  lemma LoadsKept(s: State, e: Event)
    requires Enabled(s, e) && SlotSound(s) && LoadsSound(s) && OneLoadPerVersion(s)
    ensures LoadsSound(Next(s, e)) && OneLoadPerVersion(Next(s, e))
  {
    var t := Next(s, e);
    hide SoundPair, ProducedBy;
    NextGrows(s, e);
    forall id: nat | id < |t.loads| && t.loads[id].outcome.InFlight? && t.loads[id].version == t.version
      ensures t.slot.Some? && t.slot.value.promise == Some(id)
      ensures t.loads[id].stale.Some? ==> SoundPair(t, t.loads[id].stale.value, t.loads[id].staleMtime)
    {
      assert id < |s.loads| ==> s.loads[id] == t.loads[id];
      if t.loads[id].stale.Some? {
        PairKept(s, t, t.loads[id].stale.value, t.loads[id].staleMtime);
      }
    }
  }

  lemma StepKeepsInv(s: State, e: Event, versionAt: seq<nat>)
    requires Enabled(s, e) && Inv(s, versionAt)
    ensures Inv(Next(s, e), versionAt + [s.version])
  {
    hide Next, SlotSound, LoadsSound, OneLoadPerVersion, HeapSound, VersionsSound, ReadersSound;
    SlotKept(s, e);
    LoadsKept(s, e);
    HeapKept(s, e);
    VersionsKept(s, e, versionAt);
    ReadersKept(s, e, versionAt);
  }

  // ---------- Over all runs ----------

  ghost function VersionsOf(states: seq<State>): seq<nat> {
    seq(|states|, i requires 0 <= i < |states| => states[i].version)
  }

  lemma {:induction false} RunInv(events: seq<Event>, states: seq<State>, n: nat)
    requires IsRun(events, states) && n <= |events|
    ensures Inv(states[n], VersionsOf(states[..n]))
  {
    hide Inv, Next;
    if n == 0 {
      InitialInv();
      assert VersionsOf(states[..0]) == [];
    } else {
      RunInv(events, states, n - 1);
      assert states[n - 1 + 1] == Next(states[n - 1], events[n - 1]);
      StepKeepsInv(states[n - 1], events[n - 1], VersionsOf(states[..n - 1]));
      assert VersionsOf(states[..n]) == VersionsOf(states[..n - 1]) + [states[n - 1].version];
    }
  }

  /** A step that returns a read hands over a copy of the array it came from. */
  lemma ReturnCopies(s: State, e: Event, r: ReadId, versionAt: seq<nat>)
    requires Inv(s, versionAt) && Enabled(s, e)
    requires !ReturnedRead(s, r) && ReturnedRead(Next(s, e), r)
    ensures var t := Next(s, e);
            var phase := t.readers[r].phase;
            phase.rows < |t.heap| && phase.origin < |t.heap| && t.heap[phase.rows].rows == t.heap[phase.origin].rows
  {
    hide OneLoadPerVersion, VersionsSound;
  }

  /** A read begun after an invalidation never returns rows of a load begun before it: its array
      comes from a later load, and when it is returned holds what that load produced. */
  lemma FreshAfterInvalidation(events: seq<Event>, states: seq<State>, i: nat, n: nat, r: ReadId)
    requires IsRun(events, states) && i < n <= |events| && events[i] == Invalidate
    requires ReturnedRead(states[n], r) && states[n].readers[r].begunAt > i
    ensures exists id: nat ::
              && ProducedBy(states[n], states[n].readers[r].phase.origin, id)
              && states[n].loads[id].begunAt > i
              && (!ReturnedRead(states[n - 1], r) ==> HoldsProduced(states[n], r, id))
  {
    hide Next, Enabled, HoldsProduced;
    var id := LaterLoad(events, states, i, n, r);
    if !ReturnedRead(states[n - 1], r) {
      ReturnedHolds(events, states, n - 1, r, id);
    }
  }

  lemma LaterLoad(events: seq<Event>, states: seq<State>, i: nat, n: nat, r: ReadId) returns (id: nat)
    requires IsRun(events, states) && i < n <= |events| && events[i] == Invalidate
    requires ReturnedRead(states[n], r) && states[n].readers[r].begunAt > i
    ensures ProducedBy(states[n], states[n].readers[r].phase.origin, id) && states[n].loads[id].begunAt > i
  {
    hide SlotSound, LoadsSound, OneLoadPerVersion, HeapSound;
    RunInv(events, states, n);
    var s, at := states[n], VersionsOf(states[..n]);
    var reader := s.readers[r];
    assert ReaderSound(s, reader, at);
    id :| ProducedBy(s, reader.phase.origin, id) && s.loads[id].version >= at[reader.begunAt];
    assert states[i + 1] == Next(states[i], events[i]);
    assert at[i + 1] == states[i].version + 1 && at[i] == states[i].version;
    assert at[i + 1] <= at[reader.begunAt];
  }

  lemma ReturnedHolds(events: seq<Event>, states: seq<State>, n: nat, r: ReadId, id: LoadId)
    requires IsRun(events, states) && n < |events| && !ReturnedRead(states[n], r) && ReturnedRead(states[n + 1], r)
    requires ProducedBy(states[n + 1], states[n + 1].readers[r].phase.origin, id)
    ensures HoldsProduced(states[n + 1], r, id)
  {
    hide SlotSound, LoadsSound, OneLoadPerVersion, ReadersSound, VersionsSound, Next;
    RunInv(events, states, n);
    RunInv(events, states, n + 1);
    ReturnCopies(states[n], events[n], r, VersionsOf(states[..n]));
  }

  /** The array a reader has holds, row for row, what a load produced. */
  ghost predicate HoldsProduced(s: State, r: ReadId, id: LoadId)
    requires ReturnedRead(s, r) && id < |s.loads| && s.loads[id].outcome.Loaded?
  {
    s.readers[r].phase.rows < |s.heap| && s.heap[s.readers[r].phase.rows].rows == s.loads[id].outcome.produced
  }

  /** A reader that awaited a load gets, row for row, what that load produced, or its failure. */
  lemma AwaitedIsExact(events: seq<Event>, states: seq<State>, n: nat)
    requires IsRun(events, states) && n < |events| && events[n].ResumeRead?
    ensures var s, t, r := states[n], states[n + 1], events[n].read;
            && r < |s.readers| && s.readers[r].phase.Waiting? && s.readers[r].phase.load < |s.loads|
            && r < |t.readers| && t.loads == s.loads
            && var id := s.readers[r].phase.load;
               if s.loads[id].outcome.Failed? then t.readers[r].phase == Rejected
               else s.loads[id].outcome.Loaded? && ReturnedRead(t, r) && HoldsProduced(t, r, id)
  {
    RunInv(events, states, n);
    var s, t := states[n], states[n + 1];
    assert t == Next(s, events[n]);
  }

  /** In every reachable state a read can begin, and a reader whose load has settled can go on. */
  lemma NeverStuck(events: seq<Event>, states: seq<State>, n: nat, r: ReadId)
    requires IsRun(events, states) && n <= |events|
    ensures Enabled(states[n], BeginRead)
    ensures Resumable(states[n], r) ==> Enabled(states[n], ResumeRead(r))
  {
    RunInv(events, states, n);
  }

  /** At every moment: one live load per version; the slot's promise is a live load of the
      current version; a cached pair was loaded whole under its mtime. */
  lemma CacheSoundInEveryState(events: seq<Event>, states: seq<State>, n: nat)
    requires IsRun(events, states) && n <= |events|
    ensures OneLoadPerVersion(states[n]) && SlotSound(states[n])
  {
    RunInv(events, states, n);
  }

  /** No array handed to a reader is a cached array or another reader's, and whatever callers
      write into theirs, loaded arrays keep the rows the load produced. */
  lemma NoReaderSharesAnArray(events: seq<Event>, states: seq<State>, n: nat)
    requires IsRun(events, states) && n <= |events|
    ensures var s := states[n];
            && (forall q: nat, r: nat | ReturnedRead(s, q) && ReturnedRead(s, r) && q != r ::
                  s.readers[q].phase.rows != s.readers[r].phase.rows)
            && (forall id: nat, r: nat | id < |s.loads| && s.loads[id].outcome.Loaded? && ReturnedRead(s, r) ::
                  s.loads[id].outcome.rows != s.readers[r].phase.rows)
            && (forall id: nat | id < |s.loads| && s.loads[id].outcome.Loaded? ::
                  && s.loads[id].outcome.rows < |s.heap|
                  && s.heap[s.loads[id].outcome.rows].rows == s.loads[id].outcome.produced)
  {
    RunInv(events, states, n);
  }

  /** A hit returns, row for row, what one load produced under the mtime the reader just saw. */
  lemma HitIsExact(events: seq<Event>, states: seq<State>, n: nat)
    requires IsRun(events, states) && n < |events| && events[n] == BeginRead && Hit(states[n])
    ensures var s, t := states[n], states[n + 1];
            var phase := t.readers[|s.readers|].phase;
            && phase.Returned? && phase.rows < |t.heap|
            && exists id: nat :: ProducedBy(t, phase.origin, id)
                              && t.heap[phase.rows].rows == t.loads[id].outcome.produced
                              && t.loads[id].sourceMtime == t.loads[id].outcome.endMtime == s.mtime
  {
    RunInv(events, states, n);
    var s, t := states[n], states[n + 1];
    assert t == Next(s, events[n]);
    var id: nat :| ProducedBy(s, s.slot.value.sessions.value, id)
                   && s.loads[id].sourceMtime == s.loads[id].outcome.endMtime == s.mtime;
    assert ProducedBy(t, t.readers[|s.readers|].phase.origin, id);
  }

  /** The load whose rows a reader has, or waits for. */
  ghost predicate Serves(s: State, id: LoadId, reader: Read) {
    || (reader.phase == Waiting(id) && id < |s.loads|)
    || (reader.phase.Returned? && ProducedBy(s, reader.phase.origin, id))
  }

  /** A reader is served by a load begun under the mtime it saw, except exactly when it joins
      a load that began under another one. */
  lemma SameSourceIff(s: State, versionAt: seq<nat>)
    requires Inv(s, versionAt) && Enabled(s, BeginRead)
    ensures var t := Next(s, BeginRead);
            (exists id: nat :: Serves(t, id, t.readers[|s.readers|]) && t.loads[id].sourceMtime == s.mtime)
            <==> (Join(s) ==> s.loads[s.slot.value.promise.value].sourceMtime == s.mtime)
  {
    var t := Next(s, BeginRead);
    var reader := t.readers[|s.readers|];
    if Hit(s) {
      var id: nat :| ProducedBy(s, s.slot.value.sessions.value, id) && s.loads[id].sourceMtime == s.mtime;
      assert Serves(t, id, reader);
    } else if Join(s) {
      assert forall id: nat :: Serves(t, id, reader) ==> id == s.slot.value.promise.value;
      assert Serves(t, s.slot.value.promise.value, reader);
    } else {
      assert Serves(t, |s.loads|, reader);
    }
  }

  // ---------- What the cache is for ----------

  /** A load that ends well, while the slot waits for it and the source is as it was when the load
      began, leaves its rows in the slot; had the source changed meanwhile, the older pair comes
      back, if there was one. */
  lemma LoadFills(s: State, id: LoadId, rows: seq<Session>)
    requires Enabled(s, LoadSucceeds(id, rows))
    requires s.slot.Some? && s.slot.value.promise == Some(id) && s.version == s.loads[id].version
    ensures var t, load := Next(s, LoadSucceeds(id, rows)), s.loads[id];
            if s.mtime == load.sourceMtime then
              && t.slot.Some? && t.slot.value.promise.None? && t.slot.value.sourceMtime == s.mtime
              && t.slot.value.sessions.Some? && t.slot.value.sessions.value < |t.heap|
              && t.heap[t.slot.value.sessions.value].rows == rows
            else t.slot == if load.stale.Some? then Some(Slot(load.stale, None, load.staleMtime)) else None
  {}

  /** From then on, until the source changes or the cache is invalidated, no read starts a load:
      each is answered at once with the cached rows. */
  lemma {:induction false} CachedUntilChanged(events: seq<Event>, states: seq<State>, m: nat, n: nat)
    requires IsRun(events, states) && m <= n <= |events|
    requires states[m].slot.Some? && states[m].slot.value.promise.None? && states[m].slot.value.sessions.Some?
    requires states[m].slot.value.sourceMtime == states[m].mtime
    requires forall i | m <= i < n :: !events[i].Invalidate? && !events[i].SourceChanges?
    ensures states[n].slot == states[m].slot && states[n].mtime == states[m].mtime
    ensures |states[n].loads| == |states[m].loads|
    ensures n < |events| && events[n].BeginRead? ==>
              && |states[n + 1].loads| == |states[n].loads| && |states[n + 1].readers| == |states[n].readers| + 1
              && var reader, ref := states[n + 1].readers[|states[n].readers|], states[m].slot.value.sessions.value;
                 && reader.phase.Returned? && reader.phase.rows < |states[n + 1].heap| && ref < |states[n].heap|
                 && states[n + 1].heap[reader.phase.rows].rows == states[n].heap[ref].rows
  {
    if m < n {
      CachedUntilChanged(events, states, m, n - 1);
      assert states[n - 1 + 1] == Next(states[n - 1], events[n - 1]);
    }
    if n < |events| {
      assert states[n + 1] == Next(states[n], events[n]);
    }
  }

  /** A read's load at work: under the version the read saw, awaited by the slot, and holding the
      rows the read found there. */
  ghost predicate Awaited(s: State, before: State, id: LoadId) {
    && InFlightLoad(s, id) && s.version == before.version && s.slot.Some? && s.slot.value.promise == Some(id)
    && s.loads[id].version == before.version
    && s.loads[id].stale == Stale(before) && s.loads[id].staleMtime == StaleMtime(before)
  }

  lemma {:induction false} LoadAwaited(events: seq<Event>, states: seq<State>, m: nat, n: nat)
    requires IsRun(events, states) && m < n <= |events|
    requires events[m].BeginRead? && |states[m + 1].loads| > |states[m].loads|
    requires forall i | m < i < n :: !events[i].Invalidate?
    requires InFlightLoad(states[n], |states[m].loads|)
    ensures Awaited(states[n], states[m], |states[m].loads|)
  {
    hide Next, Enabled, Awaited, InFlightLoad;
    var id := |states[m].loads|;
    assert states[m + 1] == Next(states[m], events[m]);
    AwaitedBegins(states[m]);
    if m + 1 < n {
      assert states[n - 1 + 1] == Next(states[n - 1], events[n - 1]);
      LoadsGrow(events, states, m + 1, n - 1);
      AwaitedKept(states[n - 1], events[n - 1], states[m], id);
      LoadAwaited(events, states, m, n - 1);
    }
  }

  lemma AwaitedBegins(s: State)
    requires Enabled(s, BeginRead) && |Next(s, BeginRead).loads| > |s.loads|
    ensures Awaited(Next(s, BeginRead), s, |s.loads|)
  {}

  lemma AwaitedKept(s: State, e: Event, before: State, id: LoadId)
    requires Enabled(s, e) && !e.Invalidate? && id < |s.loads|
    requires InFlightLoad(Next(s, e), id)
    ensures InFlightLoad(s, id)
    ensures Awaited(s, before, id) ==> Awaited(Next(s, e), before, id)
  {}

  lemma {:induction false} LoadsGrow(events: seq<Event>, states: seq<State>, m: nat, n: nat)
    requires IsRun(events, states) && m <= n <= |events|
    ensures |states[m].loads| <= |states[n].loads|
  {
    if m < n {
      assert states[n - 1 + 1] == Next(states[n - 1], events[n - 1]);
      LoadsGrow(events, states, m, n - 1);
    }
  }

  /** A load that fails with no invalidation since it began leaves the slot with the rows and the
      source time the read had found there, and an empty one if it had found none. */
  lemma FailureRestores(events: seq<Event>, states: seq<State>, m: nat, n: nat)
    requires IsRun(events, states) && m < n < |events|
    requires events[m].BeginRead? && |states[m + 1].loads| > |states[m].loads|
    requires forall i | m < i < n :: !events[i].Invalidate?
    requires events[n] == LoadFails(|states[m].loads|)
    ensures var before, after := states[m].slot, states[n + 1].slot;
            if before.Some? && before.value.sessions.Some? then
              after == Some(Slot(before.value.sessions, None, before.value.sourceMtime))
            else after.None?
  {
    LoadAwaited(events, states, m, n);
    assert states[n + 1] == Next(states[n], events[n]);
  }

  /** Such a reader exists: it begins after the source changed and still gets the older rows. */
  lemma JoinMayBeStale() returns (events: seq<Event>, states: seq<State>)
    ensures IsRun(events, states)
    ensures var s := states[|events|];
            && ReturnedRead(s, 1) && s.readers[1].begunAt > 1 && events[1] == SourceChanges(5)
            && ProducedBy(s, s.readers[1].phase.origin, 0) && s.loads[0].sourceMtime == 0
  {
    hide Next, Enabled, ReturnedRead, ProducedBy;
    events := [BeginRead, SourceChanges(5), BeginRead, LoadSucceeds(0, []), ResumeRead(1)];
    var s1, s2 := ReadThenChange();
    var s3 := ReadJoins(s2);
    var s4, s5 := JoinResumes(s3);
    states := [INITIAL, s1, s2, s3, s4, s5];
  }

  lemma ReadThenChange() returns (s: State, t: State)
    ensures Enabled(INITIAL, BeginRead) && s == Next(INITIAL, BeginRead)
    ensures Enabled(s, SourceChanges(5)) && t == Next(s, SourceChanges(5))
    ensures t == State(Some(Slot(None, Some(0), 0)), 0, 5, 2,
                       [Load(0, 0, 0, None, 0, InFlight)], [Read(0, Waiting(0))], [])
  {
    s := Next(INITIAL, BeginRead);
    t := Next(s, SourceChanges(5));
  }

  lemma ReadJoins(s: State) returns (t: State)
    requires s.slot == Some(Slot(None, Some(0), 0)) && s.mtime == 5 && s.clock == 2 && |s.readers| == 1
    ensures Enabled(s, BeginRead) && t == Next(s, BeginRead)
    ensures t == s.(clock := 3, readers := s.readers + [Read(2, Waiting(0))])
  {
    t := Next(s, BeginRead);
  }

  /** The older load ends, and the joined reader goes on with its rows. */
  lemma JoinResumes(s: State) returns (t: State, u: State)
    requires |s.loads| == 1 && s.loads[0].outcome == InFlight && s.loads[0].sourceMtime == 0 && s.heap == []
    requires |s.readers| == 2 && s.readers[1] == Read(2, Waiting(0))
    ensures Enabled(s, LoadSucceeds(0, [])) && t == Next(s, LoadSucceeds(0, []))
    ensures Enabled(t, ResumeRead(1)) && u == Next(t, ResumeRead(1))
    ensures ReturnedRead(u, 1) && u.readers[1].begunAt == 2
    ensures ProducedBy(u, u.readers[1].phase.origin, 0) && u.loads[0].sourceMtime == 0
  {
    t := Next(s, LoadSucceeds(0, []));
    u := Next(t, ResumeRead(1));
    assert u.readers[1] == Read(2, Returned(1, 0));
  }

  // ---------- The server's own code ----------

  /** The module's two variables, and the runtime that holds loads, readers and arrays. */
  class TraceSessionsCache {
    var slot: Option<Slot>
    var version: nat
    var mtime: nat
    var clock: nat
    var loads: seq<Load>
    var readers: seq<Read>
    var heap: seq<Cell>

    ghost function View(): State
      reads this
    {
      State(slot, version, mtime, clock, loads, readers, heap)
    }

    constructor ()
      ensures View() == INITIAL
    {
      slot, version, mtime, clock, loads, readers, heap := None, 0, 0, 0, [], [], [];
    }

    /** sessions.slice() */
    method Slice(ref: Ref) returns (copy: Ref)
      requires ref < |heap|
      modifies this`heap
      ensures copy == |old(heap)| && heap == old(heap) + [Cell(ByReader(|readers|), old(heap)[ref].rows)]
    {
      copy := |heap|;
      heap := heap + [Cell(ByReader(|readers|), heap[ref].rows)];
    }

    method Invalidate()
      modifies this
      ensures View() == Next(old(View()), Event.Invalidate)
    {
      slot := None;
      version := version + 1;
      clock := clock + 1;
    }

    method ReadAllTraceSessions()
      requires Enabled(View(), BeginRead)
      modifies this
      ensures View() == Next(old(View()), BeginRead)
    {
      var sourceMtime := mtime;
      if slot.Some? && slot.value.sessions.Some? && slot.value.sourceMtime == sourceMtime {
        var origin := slot.value.sessions.value;
        var copy := Slice(origin);
        readers := readers + [Read(clock, Returned(copy, origin))];
      } else if slot.Some? && slot.value.promise.Some? {
        readers := readers + [Read(clock, Waiting(slot.value.promise.value))];
      } else {
        var staleSessions := if slot.Some? then slot.value.sessions else None;
        var staleSourceMtime := if slot.Some? then slot.value.sourceMtime else 0;
        var promise := |loads|;
        loads := loads + [Load(clock, version, sourceMtime, staleSessions, staleSourceMtime, InFlight)];
        slot := Some(Slot(staleSessions, Some(promise), staleSourceMtime));
        readers := readers + [Read(clock, Waiting(promise))];
      }
      clock := clock + 1;
    }

    /** The load's success callback. */
    method OnLoaded(promise: LoadId, rows: seq<Session>)
      requires Enabled(View(), LoadSucceeds(promise, rows))
      modifies this
      ensures View() == Next(old(View()), LoadSucceeds(promise, rows))
    {
      var load := loads[promise];
      var loadedSourceMtime := mtime;
      var sessions := |heap|;
      heap := heap + [Cell(ByLoad(promise), rows)];
      if version == load.version && slot.Some? && slot.value.promise == Some(promise) {
        if loadedSourceMtime == load.sourceMtime {
          slot := Some(Slot(Some(sessions), None, load.sourceMtime));
        } else if load.stale.Some? {
          slot := Some(Slot(load.stale, None, load.staleMtime));
        } else {
          slot := None;
        }
      }
      loads := loads[promise := load.(outcome := Loaded(sessions, rows, loadedSourceMtime))];
      clock := clock + 1;
    }

    /** The load's failure callback. */
    method OnLoadFailed(promise: LoadId)
      requires Enabled(View(), LoadFails(promise))
      modifies this
      ensures View() == Next(old(View()), LoadFails(promise))
    {
      var load := loads[promise];
      if version == load.version && slot.Some? && slot.value.promise == Some(promise) {
        slot := if load.stale.Some? then Some(Slot(load.stale, None, load.staleMtime)) else None;
      }
      loads := loads[promise := load.(outcome := Failed)];
      clock := clock + 1;
    }

    /** The rest of a read, once the load it awaits has settled. */
    method AfterAwait(read: ReadId)
      requires Enabled(View(), ResumeRead(read))
      modifies this
      ensures View() == Next(old(View()), ResumeRead(read))
    {
      var outcome := loads[readers[read].phase.load].outcome;
      if outcome.Failed? {
        readers := readers[read := readers[read].(phase := Rejected)];
      } else {
        readers := readers[read := readers[read].(phase := Returned(|heap|, outcome.rows))];
        heap := heap + [Cell(ByReader(read), heap[outcome.rows].rows)];
      }
      clock := clock + 1;
    }
  }
}
