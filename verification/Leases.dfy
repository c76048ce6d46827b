/** Reference-counted SQLite writers: a server retains a path's connection, writes borrow it or
    open their own, and the last release closes it. Calls are synchronous, so a run is a
    sequence of whole calls. */
module Leases {
  import opened Wrappers

  type Path = nat
  type Connection = nat
  type WriterId = nat
  type HandleId = nat

  /** Opening a database succeeds, throws before a connection exists, or throws after it does
      (while pragmas or the schema are set up). */
  datatype Opening = Opens | FailsBefore | FailsAfter

  datatype Writer = Writer(path: Path, db: Connection, leases: int)
  datatype Handle = Handle(writer: WriterId, released: bool)

  /** `retained` maps a path to its writer object; `open` are the connections not closed yet;
      `leaked` those whose opening threw after they were made; `used` those writes went through. */
  datatype State = State(retained: map<Path, WriterId>, protected: set<Connection>,
                         writers: seq<Writer>, handles: seq<Handle>,
                         open: set<Connection>, leaked: set<Connection>, made: nat,
                         closes: seq<Connection>, used: seq<Connection>)

  datatype Event =
    | Retain(path: Path, opening: Opening)
    | Release(handle: HandleId)
    | Write(path: Path, opening: Opening)

  const INITIAL := State(map[], {}, [], [], {}, {}, 0, [], [])

  predicate Enabled(s: State, e: Event) {
    && (forall path | path in s.retained :: s.retained[path] < |s.writers|)
    && (forall h | 0 <= h < |s.handles| :: s.handles[h].writer < |s.writers|)
    && (e.Release? ==> e.handle < |s.handles|)
  }

  /** A new connection, unless opening throws. */
  function Open(s: State, opening: Opening): (State, Option<Connection>) {
    match opening
    case FailsBefore => (s, None)
    case FailsAfter => (s.(made := s.made + 1, open := s.open + {s.made}, leaked := s.leaked + {s.made}), None)
    case Opens => (s.(made := s.made + 1, open := s.open + {s.made}), Some(s.made))
  }

  function Close(s: State, db: Connection): State {
    s.(open := s.open - {db}, closes := s.closes + [db])
  }

  function AddLease(s: State, w: WriterId): State
    requires w < |s.writers|
  {
    s.(writers := s.writers[w := s.writers[w].(leases := s.writers[w].leases + 1)],
       handles := s.handles + [Handle(w, false)])
  }

  function Next(s: State, e: Event): State
    requires Enabled(s, e)
  {
    match e
    case Retain(path, opening) =>
      if path in s.retained then AddLease(s, s.retained[path])
      else
        var (t, db) := Open(s, opening);
        if db.None? then t
        else
          AddLease(t.(writers := t.writers + [Writer(path, db.value, 0)],
                      retained := t.retained[path := |t.writers|],
                      protected := t.protected + {db.value}), |t.writers|)
    case Release(h) =>
      if s.handles[h].released then s
      else
        var w := s.handles[h].writer;
        var writer := s.writers[w].(leases := s.writers[w].leases - 1);
        var t := s.(handles := s.handles[h := s.handles[h].(released := true)], writers := s.writers[w := writer]);
        if writer.leases == 0 then
          Close(t.(retained := t.retained - {writer.path}, protected := t.protected - {writer.db}), writer.db)
        else t
    case Write(path, opening) =>
      if path in s.retained then
        var db := s.writers[s.retained[path]].db;
        var t := s.(used := s.used + [db]);
        if db in t.protected then t else Close(t, db)
      else
        var (t, db) := Open(s, opening);
        if db.None? then t
        else
          var u := t.(used := t.used + [db.value]);
          if db.value in u.protected then u else Close(u, db.value)
  }

  ghost predicate IsRun(events: seq<Event>, states: seq<State>) {
    && |states| == |events| + 1
    && states[0] == INITIAL
    && forall i | 0 <= i < |events| :: Enabled(states[i], events[i]) && states[i + 1] == Next(states[i], events[i])
  }

  // ---------- The invariant ----------

  /** Handles of a writer not released yet. */
  function Unreleased(handles: seq<Handle>, w: WriterId): nat {
    if handles == [] then 0
    else
      var last := handles[|handles| - 1];
      Unreleased(handles[..|handles| - 1], w) + (if last.writer == w && !last.released then 1 else 0)
  }

  lemma {:induction false} UnreleasedUpdate(handles: seq<Handle>, h: nat, w: WriterId)
    requires h < |handles| && !handles[h].released
    ensures Unreleased(handles[h := handles[h].(released := true)], w)
         == Unreleased(handles, w) - (if handles[h].writer == w then 1 else 0)
  {
    var n := |handles| - 1;
    var updated := handles[h := handles[h].(released := true)];
    if h == n {
      assert updated[..n] == handles[..n];
    } else {
      assert updated[..n] == handles[..n][h := handles[h].(released := true)];
      UnreleasedUpdate(handles[..n], h, w);
    }
  }

  lemma {:induction false} UnreleasedSome(handles: seq<Handle>, h: nat)
    requires h < |handles| && !handles[h].released
    ensures Unreleased(handles, handles[h].writer) > 0
  {
    if h < |handles| - 1 {
      UnreleasedSome(handles[..|handles| - 1], h);
    }
  }

  lemma {:induction false} UnreleasedNew(handles: seq<Handle>, w: WriterId)
    requires forall h | 0 <= h < |handles| :: handles[h].writer < w
    ensures Unreleased(handles, w) == 0
  {
    if handles != [] {
      UnreleasedNew(handles[..|handles| - 1], w);
    }
  }

  /** The lease count of a writer is its number of unreleased handles, and a path is mapped to a
      writer exactly while that count is positive. */
  ghost predicate LeasesSound(s: State) {
    && (forall h | 0 <= h < |s.handles| :: s.handles[h].writer < |s.writers|)
    && (forall path | path in s.retained :: s.retained[path] < |s.writers| && s.writers[s.retained[path]].path == path)
    && (forall w | 0 <= w < |s.writers| ::
          && s.writers[w].leases == Unreleased(s.handles, w)
          && (s.writers[w].leases > 0 <==> s.writers[w].path in s.retained && s.retained[s.writers[w].path] == w))
  }

  /** Open connections are those of the mapped writers and the leaked ones; each connection
      belongs to one writer, and is closed at most once. */
  ghost predicate ConnectionsSound(s: State) {
    && (forall w | 0 <= w < |s.writers| :: s.writers[w].db < s.made && s.writers[w].db !in s.leaked)
    && (forall v, w | 0 <= v < w < |s.writers| :: s.writers[v].db != s.writers[w].db)
    && (forall c | c in s.leaked :: c < s.made)
    && (forall c :: c in s.protected <==> Held(s.writers, c))
    && s.open == s.protected + s.leaked
    && (forall i | 0 <= i < |s.closes| :: s.closes[i] < s.made && s.closes[i] !in s.open)
    && (forall i, j | 0 <= i < j < |s.closes| :: s.closes[i] != s.closes[j])
  }

  ghost predicate Inv(s: State) {
    LeasesSound(s) && ConnectionsSound(s)
  }

  lemma AddLeaseKeeps(s: State, w: WriterId)
    requires w < |s.writers|
    requires forall h | 0 <= h < |s.handles| :: s.handles[h].writer < |s.writers|
    requires forall path | path in s.retained ::
               s.retained[path] < |s.writers| && s.writers[s.retained[path]].path == path
    requires forall v | 0 <= v < |s.writers| :: s.writers[v].leases == Unreleased(s.handles, v)
    requires forall v | 0 <= v < |s.writers| && v != w ::
               s.writers[v].leases > 0 <==> s.writers[v].path in s.retained && s.retained[s.writers[v].path] == v
    requires s.writers[w].path in s.retained && s.retained[s.writers[w].path] == w && s.writers[w].leases >= 0
    ensures LeasesSound(AddLease(s, w))
  {
    var t := AddLease(s, w);
    assert t.handles[..|t.handles| - 1] == s.handles;
    forall v | 0 <= v < |t.writers| ensures t.writers[v].leases == Unreleased(t.handles, v) {
      assert s.writers[v].leases == Unreleased(s.handles, v);
    }
  }

  lemma RetainKeepsLeases(s: State, path: Path, opening: Opening)
    requires Inv(s) && Enabled(s, Retain(path, opening))
    ensures LeasesSound(Next(s, Retain(path, opening)))
  {
    hide ConnectionsSound;
    if path in s.retained {
      AddLeaseKeeps(s, s.retained[path]);
    } else {
      var (t, db) := Open(s, opening);
      if db.Some? {
        var w := |s.writers|;
        UnreleasedNew(s.handles, w);
        AddLeaseKeeps(t.(writers := t.writers + [Writer(path, db.value, 0)], retained := t.retained[path := w],
                         protected := t.protected + {db.value}), w);
      }
    }
  }

  lemma ReleaseKeepsLeases(s: State, h: HandleId)
    requires Inv(s) && Enabled(s, Release(h))
    ensures LeasesSound(Next(s, Release(h)))
  {
    hide ConnectionsSound, Unreleased;
    if !s.handles[h].released {
      var t := Next(s, Release(h));
      var w := s.handles[h].writer;
      UnreleasedSome(s.handles, h);
      assert t.handles == s.handles[h := s.handles[h].(released := true)];
      forall v | 0 <= v < |t.writers| ensures t.writers[v].leases == Unreleased(t.handles, v) {
        UnreleasedUpdate(s.handles, h, v);
      }
    }
  }

  /** A write leaves the books of handles and writers alone. */
  lemma WriteKeepsBooks(s: State, path: Path, opening: Opening)
    requires Enabled(s, Write(path, opening))
    ensures var t := Next(s, Write(path, opening));
            t.writers == s.writers && t.handles == s.handles && t.retained == s.retained && t.protected == s.protected
  {}

  lemma SameLeases(s: State, t: State)
    requires LeasesSound(s) && t.writers == s.writers && t.handles == s.handles && t.retained == s.retained
    ensures LeasesSound(t)
  {
    hide Unreleased;
  }

  /** c has a leasing writer. */
  ghost predicate Held(writers: seq<Writer>, c: Connection) {
    exists v: nat :: v < |writers| && writers[v].leases > 0 && writers[v].db == c
  }

  /** Writers keep their connection and whether they are leased, up to a new one. */
  lemma SameHolders(before: seq<Writer>, after: seq<Writer>, c: Connection)
    requires |before| <= |after|
    requires forall v | 0 <= v < |before| && before[v].db == c ::
               after[v].db == c && (after[v].leases > 0 <==> before[v].leases > 0)
    requires forall v | 0 <= v < |before| && before[v].db != c :: after[v].db != c
    requires forall v | |before| <= v < |after| :: after[v].db != c
    ensures Held(after, c) <==> Held(before, c)
  {
    if Held(before, c) {
      var v: nat :| v < |before| && before[v].leases > 0 && before[v].db == c;
      assert after[v].leases > 0 && after[v].db == c;
    }
    if Held(after, c) {
      var v: nat :| v < |after| && after[v].leases > 0 && after[v].db == c;
      assert before[v].leases > 0 && before[v].db == c;
    }
  }

  lemma LeaseMoreKeepsConnections(s: State, path: Path)
    requires Inv(s) && path in s.retained
    ensures ConnectionsSound(AddLease(s, s.retained[path]))
  {
    hide Held, Unreleased;
    var w, t := s.retained[path], AddLease(s, s.retained[path]);
    forall c ensures Held(t.writers, c) <==> Held(s.writers, c) {
      SameHolders(s.writers, t.writers, c);
    }
  }

  function Enrolled(s: State, path: Path): State {
    var t := Open(s, Opens).0;
    AddLease(t.(writers := t.writers + [Writer(path, s.made, 0)], retained := t.retained[path := |t.writers|],
                protected := t.protected + {s.made}), |t.writers|)
  }

  lemma EnrolKeepsConnections(s: State, path: Path)
    requires Inv(s) && path !in s.retained
    ensures ConnectionsSound(Enrolled(s, path))
  {
    hide Unreleased, LeasesSound;
    var t := Enrolled(s, path);
    assert t.writers == s.writers + [Writer(path, s.made, 1)];
    assert Held(t.writers, s.made) by {
      assert t.writers[|s.writers|].leases > 0 && t.writers[|s.writers|].db == s.made;
    }
    forall c | c != s.made ensures Held(t.writers, c) <==> Held(s.writers, c) {
      SameHolders(s.writers, t.writers, c);
    }
    hide Held;
  }

  lemma LeakKeepsConnections(s: State)
    requires ConnectionsSound(s)
    ensures ConnectionsSound(Open(s, FailsAfter).0)
  {
    hide Held;
  }

  /** Opening a connection and closing it again leaves no trace but its record. */
  lemma BorrowKeepsConnections(s: State)
    requires ConnectionsSound(s)
    ensures s.made !in s.protected
    ensures var t := Open(s, Opens).0; ConnectionsSound(Close(t.(used := t.used + [s.made]), s.made))
  {
    assert forall v | 0 <= v < |s.writers| :: s.writers[v].db != s.made;
    assert !Held(s.writers, s.made);
    hide Held;
  }

  /** Lowering one writer's count to at least zero unholds its connection at most. */
  lemma LoweredHolders(writers: seq<Writer>, w: WriterId, c: Connection)
    requires w < |writers| && writers[w].leases > 0
    requires forall u, v | 0 <= u < v < |writers| :: writers[u].db != writers[v].db
    ensures Held(writers, writers[w].db)
    ensures var after := writers[w := writers[w].(leases := writers[w].leases - 1)];
            Held(after, c) <==> Held(writers, c) && (c == writers[w].db ==> after[w].leases > 0)
  {
    var after := writers[w := writers[w].(leases := writers[w].leases - 1)];
    assert writers[w].leases > 0 && writers[w].db == writers[w].db;
    if c == writers[w].db {
      assert after[w].db == c;
      assert after[w].leases > 0 ==> Held(after, c);
    } else {
      SameHolders(writers, after, c);
    }
  }

  lemma ReleaseKeepsConnections(s: State, h: HandleId)
    requires Inv(s) && Enabled(s, Release(h))
    ensures ConnectionsSound(Next(s, Release(h)))
  {
    hide Unreleased, Held;
    if !s.handles[h].released {
      UnreleasedSome(s.handles, h);
      var t, w := Next(s, Release(h)), s.handles[h].writer;
      assert t.writers == s.writers[w := s.writers[w].(leases := s.writers[w].leases - 1)];
      hide LeasesSound;
      forall c
        ensures Held(t.writers, c) <==> Held(s.writers, c) && (c == s.writers[w].db ==> t.writers[w].leases > 0)
      {
        LoweredHolders(s.writers, w, c);
      }
      LoweredHolders(s.writers, w, 0);
    }
  }

  lemma StepKeepsInv(s: State, e: Event)
    requires Inv(s) && Enabled(s, e)
    ensures Inv(Next(s, e))
  {
    hide LeasesSound, ConnectionsSound;
    match e
    case Retain(path, opening) =>
      RetainKeepsLeases(s, path, opening);
      if path in s.retained {
        LeaseMoreKeepsConnections(s, path);
      } else if opening == Opens {
        EnrolKeepsConnections(s, path);
      } else if opening == FailsAfter {
        LeakKeepsConnections(s);
      }
    case Release(h) =>
      ReleaseKeepsLeases(s, h);
      ReleaseKeepsConnections(s, h);
    case Write(path, opening) =>
      WriteKeepsBooks(s, path, opening);
      SameLeases(s, Next(s, e));
      if path in s.retained {
        WriterIsProtected(s, path);
        SameConnections(s, Next(s, e));
      } else if opening == Opens {
        BorrowKeepsConnections(s);
      } else if opening == FailsAfter {
        LeakKeepsConnections(s);
      }
  }

  /** A mapped writer's connection is open and protected, so writes through it leave it open. */
  lemma WriterIsProtected(s: State, path: Path)
    requires Inv(s) && path in s.retained
    ensures var w := s.retained[path];
            w < |s.writers| && s.writers[w].db in s.protected && s.writers[w].db in s.open
  {
    hide Unreleased;
    var w := s.retained[path];
    assert s.writers[w].leases > 0;
    assert Held(s.writers, s.writers[w].db);
  }

  lemma SameConnections(s: State, t: State)
    requires ConnectionsSound(s) && t == s.(used := t.used)
    ensures ConnectionsSound(t)
  {
    hide Held;
  }

  lemma InitialInv()
    ensures Inv(INITIAL)
  {
    assert forall c :: !Held([], c);
  }

  lemma {:induction false} RunInv(events: seq<Event>, states: seq<State>, n: nat)
    requires IsRun(events, states) && n <= |events|
    ensures Inv(states[n])
  {
    hide Inv, Next;
    if n == 0 {
      InitialInv();
    } else {
      RunInv(events, states, n - 1);
      assert states[n - 1 + 1] == Next(states[n - 1], events[n - 1]);
      StepKeepsInv(states[n - 1], events[n - 1]);
    }
  }

  // ---------- Over all runs ----------

  /** The lease count of a path's writer is the number of its unreleased handles, it is positive,
      and a path with an unreleased handle is mapped. */
  lemma LeasesCountHandles(events: seq<Event>, states: seq<State>, n: nat)
    requires IsRun(events, states) && n <= |events|
    ensures var s := states[n];
            && (forall path | path in s.retained ::
                  var w := s.retained[path];
                  w < |s.writers| && s.writers[w].leases == Unreleased(s.handles, w) > 0)
            && (forall h | 0 <= h < |s.handles| && !s.handles[h].released ::
                  && s.handles[h].writer < |s.writers|
                  && s.writers[s.handles[h].writer].path in s.retained
                  && s.retained[s.writers[s.handles[h].writer].path] == s.handles[h].writer)
  {
    RunInv(events, states, n);
    var s := states[n];
    forall h | 0 <= h < |s.handles| && !s.handles[h].released
      ensures Unreleased(s.handles, s.handles[h].writer) > 0
    {
      UnreleasedSome(s.handles, h);
    }
    hide Unreleased, ConnectionsSound;
  }

  ghost function Mapped(s: State): set<Connection>
    requires forall path | path in s.retained :: s.retained[path] < |s.writers|
  {
    set path | path in s.retained :: s.writers[s.retained[path]].db
  }

  /** An opening that threw after making its connection, on a path no writer was retained for. */
  ghost predicate Leaks(s: State, e: Event) {
    (e.Retain? || e.Write?) && e.opening == FailsAfter && e.path !in s.retained
  }

  lemma {:induction false} LeakedIff(events: seq<Event>, states: seq<State>, n: nat)
    requires IsRun(events, states) && n <= |events|
    ensures states[n].leaked != {} <==> exists i :: 0 <= i < n && Leaks(states[i], events[i])
  {
    if n > 0 {
      LeakedIff(events, states, n - 1);
      var s, t := states[n - 1], states[n - 1 + 1];
      assert t == Next(s, events[n - 1]);
      if Leaks(s, events[n - 1]) {
        assert s.made in t.leaked;
      } else {
        assert t.leaked == s.leaked;
      }
    }
  }

  /** Between calls the open connections are exactly those of the mapped writers, if and only if
      no opening so far threw with its connection already made. */
  lemma OpenIffMapped(events: seq<Event>, states: seq<State>, n: nat)
    requires IsRun(events, states) && n <= |events|
    ensures forall path | path in states[n].retained :: states[n].retained[path] < |states[n].writers|
    ensures Mapped(states[n]) <= states[n].open
    ensures states[n].open == Mapped(states[n]) <==> !exists i :: 0 <= i < n && Leaks(states[i], events[i])
  {
    RunInv(events, states, n);
    LeakedIff(events, states, n);
    MappedIsProtected(states[n]);
    var s := states[n];
    assert s.open == Mapped(s) + s.leaked;
    forall c | c in Mapped(s) ensures c !in s.leaked {}
    assert s.leaked != {} ==> exists c :: c in s.leaked;
  }

  lemma MappedIsProtected(s: State)
    requires Inv(s)
    ensures Mapped(s) == s.protected
    ensures forall c | c in s.protected :: c !in s.leaked
  {
    hide Unreleased;
    forall c ensures c in Mapped(s) <==> c in s.protected {
      if c in Mapped(s) {
        var path :| path in s.retained && s.writers[s.retained[path]].db == c;
        WriterIsProtected(s, path);
      }
      if Held(s.writers, c) {
        var v: nat :| v < |s.writers| && s.writers[v].leases > 0 && s.writers[v].db == c;
        assert s.writers[v].path in s.retained;
      }
    }
  }

  /** It happens: one retain whose opening threw too late leaves a connection that no path maps. */
  lemma LeakHappens()
    ensures var s := Next(INITIAL, Retain(0, FailsAfter));
            && IsRun([Retain(0, FailsAfter)], [INITIAL, s])
            && s.open == {0} && s.retained == map[] && Mapped(s) == {}
  {}

  /** No connection is closed twice, and every write goes through a connection not yet closed. */
  lemma ClosedOnceAndNeverUsed(events: seq<Event>, states: seq<State>, n: nat)
    requires IsRun(events, states) && n <= |events|
    ensures forall i, j | 0 <= i < j < |states[n].closes| :: states[n].closes[i] != states[n].closes[j]
    ensures n < |events| ==>
              states[n + 1].used == states[n].used
              || exists db :: states[n + 1].used == states[n].used + [db] && db !in states[n].closes
                              && (db in states[n].open || db == states[n].made)
  {
    RunInv(events, states, n);
    var s := states[n];
    if n < |events| {
      assert states[n + 1] == Next(s, events[n]);
      if events[n].Write? && events[n].path in s.retained {
        WriterIsProtected(s, events[n].path);
      }
    }
  }

  /** A write to a retained path goes through the one connection its writer was opened with, and
      leaves it open; another write opens a connection of its own and closes it again. Nothing but a
      write uses a connection. */
  lemma WritesGoThrough(events: seq<Event>, states: seq<State>, n: nat)
    requires IsRun(events, states) && n < |events|
    ensures var s, t, e := states[n], states[n + 1], events[n];
            if !e.Write? then t.used == s.used
            else if e.path in s.retained then
              && s.retained[e.path] < |s.writers| && s.writers[s.retained[e.path]].path == e.path
              && s.writers[s.retained[e.path]].db in s.open
              && t == s.(used := s.used + [s.writers[s.retained[e.path]].db])
            else
              match e.opening
              case Opens => t == s.(made := s.made + 1, used := s.used + [s.made], closes := s.closes + [s.made])
              case FailsBefore => t == s
              case FailsAfter => t == s.(made := s.made + 1, open := s.open + {s.made}, leaked := s.leaked + {s.made})
  {
    RunInv(events, states, n);
    var s := states[n];
    assert states[n + 1] == Next(s, events[n]);
    if events[n].Write? {
      if events[n].path in s.retained {
        WriterIsProtected(s, events[n].path);
      } else {
        NewIsUnknown(s);
      }
    }
  }

  lemma NewIsUnknown(s: State)
    requires Inv(s)
    ensures s.made !in s.open && s.made !in s.protected && s.open + {s.made} - {s.made} == s.open
  {
    if w :| 0 <= w < |s.writers| && s.writers[w].db == s.made {
      assert false;
    }
  }

  /** Releasing a handle again does nothing. */
  lemma ReleaseTwice(s: State, h: HandleId)
    requires Enabled(s, Release(h))
    ensures var t := Next(s, Release(h)); Enabled(t, Release(h)) && Next(t, Release(h)) == t
  {}

  // ---------- The store's own code ----------

  class SqliteWriters {
    var retained: map<Path, WriterId>
    var protected: set<Connection>
    var writers: seq<Writer>
    var handles: seq<Handle>
    var open: set<Connection>
    var leaked: set<Connection>
    var made: nat
    var closes: seq<Connection>
    var used: seq<Connection>

    ghost function View(): State
      reads this
    {
      State(retained, protected, writers, handles, open, leaked, made, closes, used)
    }

    constructor ()
      ensures View() == INITIAL
    {
      retained, protected, writers, handles := map[], {}, [], [];
      open, leaked, made, closes, used := {}, {}, 0, [], [];
    }

    /** openWritable on a path no writer is retained for. */
    method OpenDatabase(opening: Opening) returns (db: Option<Connection>)
      modifies this
      ensures (View(), db) == Open(old(View()), opening)
    {
      if opening == FailsBefore {
        return None;
      }
      var connection := made;
      made := made + 1;
      open := open + {connection};
      if opening == FailsAfter {
        leaked := leaked + {connection};
        return None;
      }
      return Some(connection);
    }

    method CloseDatabase(db: Connection)
      modifies this
      ensures View() == Close(old(View()), db)
    {
      open := open - {db};
      closes := closes + [db];
    }

    /** The handle, unless opening threw. */
    method RetainWriter(path: Path, opening: Opening) returns (handle: Option<HandleId>)
      requires Enabled(View(), Retain(path, opening))
      modifies this
      ensures View() == Next(old(View()), Retain(path, opening))
      ensures handle.None? <==> path !in old(retained) && opening != Opens
      ensures handle.Some? ==> handle.value == |old(handles)| < |handles|
    {
      var writer: WriterId;
      if path in retained {
        writer := retained[path];
      } else {
        var db := OpenDatabase(opening);
        if db.None? {
          return None;
        }
        writer := |writers|;
        writers := writers + [Writer(path, db.value, 0)];
        retained := retained[path := writer];
        protected := protected + {db.value};
      }
      writers := writers[writer := writers[writer].(leases := writers[writer].leases + 1)];
      handles := handles + [Handle(writer, false)];
      return Some(|handles| - 1);
    }

    method ReleaseHandle(h: HandleId)
      requires Enabled(View(), Release(h))
      modifies this
      ensures View() == Next(old(View()), Release(h))
    {
      if handles[h].released {
        return;
      }
      var w := handles[h].writer;
      handles := handles[h := handles[h].(released := true)];
      writers := writers[w := writers[w].(leases := writers[w].leases - 1)];
      if writers[w].leases == 0 {
        retained := retained - {writers[w].path};
        protected := protected - {writers[w].db};
        CloseDatabase(writers[w].db);
      }
    }

    /** One store write: open or borrow, use, and release unless retained. */
    method WriteThrough(path: Path, opening: Opening)
      requires Enabled(View(), Write(path, opening))
      modifies this
      ensures View() == Next(old(View()), Write(path, opening))
    {
      var db: Connection;
      if path in retained {
        db := writers[retained[path]].db;
      } else {
        var made := OpenDatabase(opening);
        if made.None? {
          return;
        }
        db := made.value;
      }
      used := used + [db];
      if db !in protected {
        CloseDatabase(db);
      }
    }
  }
}
