/** Reading one session from a Parquet snapshot with the newer live files laid over it. */
module Overlay {
  import opened Wrappers
  import opened Utf16
  import Sorting

  const READ_LIMIT := 5000

  /** A turn's entry; `body` is everything but its turn number. */
  datatype Entry = Entry(turn: int, body: Json)

  /** A session header. */
  datatype Header = Header(body: Json)

  /** A file of the live directory whose name matches T<digits>.json: `valid` means its record is
      for this session and has an integer turn number. */
  datatype LiveFile = LiveFile(mtime: int, entry: Entry, valid: bool)

  /** What the snapshot holds for the session: its header rows and its turn rows, in turn order. */
  datatype Snapshot = Snapshot(startedAt: int, headers: seq<Header>, entries: seq<Entry>)

  /** The live session.json: `matches` means it names this session. */
  datatype LiveHeader = Absent | Present(mtime: int, header: Header, matches: bool)

  /** The live directory, as readdir lists its turn files; None when there is none. */
  datatype Live = NoDirectory | Directory(header: LiveHeader, files: seq<LiveFile>)

  datatype Session = Session(headers: seq<Header>, entries: seq<Entry>)

  // ---------- A map from turn to entry, in insertion order ----------

  function Put(entries: seq<Entry>, entry: Entry): seq<Entry> {
    if entries == [] then [entry]
    else if entries[0].turn == entry.turn then [entry] + entries[1..]
    else [entries[0]] + Put(entries[1..], entry)
  }

  function PutAll(entries: seq<Entry>, more: seq<Entry>): seq<Entry> {
    if more == [] then entries else Put(PutAll(entries, more[..|more| - 1]), more[|more| - 1])
  }

  predicate Earlier(a: Entry, b: Entry) {
    a.turn < b.turn
  }

  ghost predicate OnePerTurn(entries: seq<Entry>) {
    forall i, j | 0 <= i < j < |entries| :: entries[i].turn != entries[j].turn
  }

  lemma {:induction false} PutMembers(entries: seq<Entry>, entry: Entry)
    requires OnePerTurn(entries)
    ensures OnePerTurn(Put(entries, entry))
    ensures forall e :: e in Put(entries, entry) <==> e == entry || (e in entries && e.turn != entry.turn)
  {
    if entries != [] {
      assert entries == [entries[0]] + entries[1..];
      if entries[0].turn == entry.turn {
        forall e | e in entries[1..] ensures e.turn != entry.turn {
          var i :| 0 <= i < |entries[1..]| && entries[1..][i] == e;
          assert entries[i + 1] == e;
        }
      } else {
        PutMembers(entries[1..], entry);
        var rest := Put(entries[1..], entry);
        forall j | 0 <= j < |rest| ensures rest[j].turn != entries[0].turn {
          assert rest[j] in rest;
          if rest[j] in entries[1..] {
            var i :| 0 <= i < |entries[1..]| && entries[1..][i] == rest[j];
            assert entries[i + 1] == rest[j];
          }
        }
      }
    }
  }

  /** Of several entries for a turn, the last one put stays. */
  lemma {:induction false} PutAllMembers(entries: seq<Entry>, more: seq<Entry>)
    requires OnePerTurn(more)
    requires OnePerTurn(entries)
    ensures OnePerTurn(PutAll(entries, more))
    ensures forall e :: e in PutAll(entries, more)
                        <==> e in more || (e in entries && forall m | m in more :: m.turn != e.turn)
  {
    if more != [] {
      var front, last := more[..|more| - 1], more[|more| - 1];
      PutAllMembers(entries, front);
      PutMembers(PutAll(entries, front), last);
      assert more == front + [last];
      forall e | e in front ensures e.turn != last.turn {
        var i :| 0 <= i < |front| && front[i] == e;
        assert more[i].turn != more[|more| - 1].turn;
      }
    }
  }

  lemma PutNext(entries: seq<Entry>, more: seq<Entry>, entry: Entry)
    ensures PutAll(entries, more + [entry]) == Put(PutAll(entries, more), entry)
  {
    assert (more + [entry])[..|more|] == more;
  }

  // ---------- The read ----------

  function Fresh(files: seq<LiveFile>, startedAt: int): seq<Entry> {
    if files == [] then []
    else Fresh(files[..|files| - 1], startedAt)
         + (if files[|files| - 1].mtime < startedAt then [] else [files[|files| - 1].entry])
  }

  predicate AllValid(files: seq<LiveFile>, startedAt: int) {
    forall i | 0 <= i < |files| :: files[i].mtime >= startedAt ==> files[i].valid
  }

  /** A header young enough to be used names this session. */
  predicate HeaderFits(header: LiveHeader, startedAt: int) {
    header.Present? && header.mtime >= startedAt ==> header.matches
  }

  /** Turn rows without a header row are dropped. */
  function Kept(snapshot: Snapshot): seq<Entry> {
    if snapshot.headers == [] then [] else snapshot.entries
  }

  /** The loop over the live directory's turn files. */
  method OverlayFiles(entries: seq<Entry>, files: seq<LiveFile>, startedAt: int) returns (byTurn: Result<seq<Entry>>)
    ensures byTurn == if AllValid(files, startedAt) then Ok(PutAll(entries, Fresh(files, startedAt))) else Error
  {
    hide PutAll, Fresh, Put;
    var overlaid := entries;
    NothingPut(entries, files, startedAt);
    var i := 0;
    while i < |files|
      invariant 0 <= i <= |files|
      invariant AllValid(files[..i], startedAt)
      invariant overlaid == PutAll(entries, Fresh(files[..i], startedAt))
    {
      var file := files[i];
      FreshNext(files, i, startedAt);
      assert files[..i + 1] == files[..i] + [file];
      assert Fresh(files[..i], startedAt) + [] == Fresh(files[..i], startedAt);
      if file.mtime >= startedAt {
        if !file.valid {
          return Error;
        }
        PutNext(entries, Fresh(files[..i], startedAt), file.entry);
        overlaid := Put(overlaid, file.entry);
      }
      i := i + 1;
    }
    assert files[..i] == files;
    return Ok(overlaid);
  }

  lemma NothingPut(entries: seq<Entry>, files: seq<LiveFile>, startedAt: int)
    ensures PutAll(entries, Fresh(files[..0], startedAt)) == entries
  {}

  lemma FreshNext(files: seq<LiveFile>, i: nat, startedAt: int)
    requires i < |files|
    ensures Fresh(files[..i + 1], startedAt)
         == Fresh(files[..i], startedAt) + (if files[i].mtime < startedAt then [] else [files[i].entry])
  {
    assert files[..i + 1][..i] == files[..i];
  }

  method ReadSessionData(snapshot: Snapshot, live: Live) returns (session: Result<Session>)
    ensures session == Read(snapshot, live)
  {
    hide PutAll, Fresh;
    if |snapshot.entries| > READ_LIMIT {
      return Error;
    }
    var headers := snapshot.headers;
    var entries: seq<Entry> := [];
    var i := 0;
    while i < |snapshot.entries|
      invariant 0 <= i <= |snapshot.entries|
      invariant entries == if snapshot.headers == [] then [] else snapshot.entries[..i]
    {
      if snapshot.headers != [] {
        entries := entries + [snapshot.entries[i]];
      }
      i := i + 1;
    }
    assert entries == Kept(snapshot);
    if live.NoDirectory? {
      return Ok(Session(headers, entries));
    }
    if live.header.Present? && live.header.mtime >= snapshot.startedAt {
      if !live.header.matches {
        return Error;
      }
      headers := [live.header.header];
    }
    var byTurn := OverlayFiles(PutAll([], entries), live.files, snapshot.startedAt);
    if byTurn.Error? || |byTurn.value| > READ_LIMIT {
      return Error;
    }
    return Ok(Session(headers, Sorting.Sort(byTurn.value, Earlier)));
  }

  function Overlaid(snapshot: Snapshot, files: seq<LiveFile>): seq<Entry> {
    PutAll(PutAll([], Kept(snapshot)), Fresh(files, snapshot.startedAt))
  }

  /** The overlay as a function of what is on disk. */
  function Read(snapshot: Snapshot, live: Live): Result<Session> {
    if |snapshot.entries| > READ_LIMIT then Error
    else if live.NoDirectory? then Ok(Session(snapshot.headers, Kept(snapshot)))
    else if !HeaderFits(live.header, snapshot.startedAt) || !AllValid(live.files, snapshot.startedAt) then Error
    else
      var byTurn := Overlaid(snapshot, live.files);
      if |byTurn| > READ_LIMIT then Error
      else
        var header := live.header;
        Ok(Session(if header.Present? && header.mtime >= snapshot.startedAt then [header.header] else snapshot.headers,
                   Sorting.Sort(byTurn, Earlier)))
  }

  // ---------- When the read fails ----------

  ghost function TurnsIn(entries: seq<Entry>): set<int> {
    set e | e in entries :: e.turn
  }

  lemma {:induction false} PutTurns(entries: seq<Entry>, entry: Entry)
    requires OnePerTurn(entries)
    ensures TurnsIn(Put(entries, entry)) == TurnsIn(entries) + {entry.turn} && OnePerTurn(Put(entries, entry))
  {
    PutMembers(entries, entry);
    var put := Put(entries, entry);
    forall turn ensures turn in TurnsIn(put) <==> turn in TurnsIn(entries) + {entry.turn} {
      if e :| e in entries && e.turn == turn {
        assert turn != entry.turn ==> e in put;
        assert entry in put;
      }
    }
  }

  lemma {:induction false} PutAllTurns(entries: seq<Entry>, more: seq<Entry>)
    requires OnePerTurn(entries)
    ensures TurnsIn(PutAll(entries, more)) == TurnsIn(entries) + TurnsIn(more) && OnePerTurn(PutAll(entries, more))
  {
    hide Put, OnePerTurn;
    if more != [] {
      var front, last := more[..|more| - 1], more[|more| - 1];
      assert more == front + [last];
      PutAllTurns(entries, front);
      PutTurns(PutAll(entries, front), last);
    }
  }

  lemma {:induction false} OneEach(entries: seq<Entry>)
    requires OnePerTurn(entries)
    ensures |TurnsIn(entries)| == |entries|
  {
    if entries != [] {
      var front, last := entries[..|entries| - 1], entries[|entries| - 1];
      assert entries == front + [last];
      OneEach(front);
      assert TurnsIn(entries) == TurnsIn(front) + {last.turn};
      assert last.turn !in TurnsIn(front);
    }
  }

  lemma NoEntries()
    ensures OnePerTurn([]) && TurnsIn([]) == {}
  {}

  /** The turns the read would answer with: those of the snapshot's rows, if the header is there, and
      of the young files. */
  ghost function TurnsRead(snapshot: Snapshot, files: seq<LiveFile>): set<int> {
    (if snapshot.headers == [] then {} else set e | e in snapshot.entries :: e.turn)
    + set i | 0 <= i < |files| && files[i].mtime >= snapshot.startedAt :: files[i].entry.turn
  }

  lemma {:induction false} FreshTurns(files: seq<LiveFile>, startedAt: int)
    ensures TurnsIn(Fresh(files, startedAt))
         == set i | 0 <= i < |files| && files[i].mtime >= startedAt :: files[i].entry.turn
  {
    if files != [] {
      var n := |files| - 1;
      FreshTurns(files[..n], startedAt);
      var before := set i | 0 <= i < n && files[..n][i].mtime >= startedAt :: files[..n][i].entry.turn;
      var now := set i | 0 <= i < |files| && files[i].mtime >= startedAt :: files[i].entry.turn;
      var own := if files[n].mtime >= startedAt then {files[n].entry.turn} else {};
      forall turn ensures turn in now <==> turn in before + own {
        if turn in before {
          var i :| 0 <= i < n && files[..n][i].mtime >= startedAt && files[..n][i].entry.turn == turn;
          assert files[i] == files[..n][i];
        }
        if turn in now {
          var i :| 0 <= i < |files| && files[i].mtime >= startedAt && files[i].entry.turn == turn;
          assert i < n ==> files[..n][i] == files[i];
        }
      }
    }
  }

  lemma OverlaidTurns(snapshot: Snapshot, files: seq<LiveFile>)
    ensures |Overlaid(snapshot, files)| == |TurnsRead(snapshot, files)|
  {
    hide PutAll, Fresh, OnePerTurn;
    NoEntries();
    PutAllTurns([], Kept(snapshot));
    PutAllTurns(PutAll([], Kept(snapshot)), Fresh(files, snapshot.startedAt));
    FreshTurns(files, snapshot.startedAt);
    OneEach(Overlaid(snapshot, files));
    assert TurnsIn(Overlaid(snapshot, files)) == TurnsRead(snapshot, files);
  }

  /** The read fails exactly when the snapshot has more than 5000 rows, or there is a live directory
      with a young header or turn file of another session, or more than 5000 turns in all. */
  lemma ReadFailsIff(snapshot: Snapshot, live: Live)
    ensures Read(snapshot, live).Error?
       <==> || |snapshot.entries| > 5000
            || (live.Directory?
                && (|| (live.header.Present? && live.header.mtime >= snapshot.startedAt && !live.header.matches)
                    || (exists i :: 0 <= i < |live.files| && live.files[i].mtime >= snapshot.startedAt
                                    && !live.files[i].valid)
                    || |TurnsRead(snapshot, live.files)| > 5000))
  {
    hide Overlaid, TurnsRead;
    if live.Directory? {
      OverlaidTurns(snapshot, live.files);
    }
  }

  /** Without a live directory the snapshot is read as it is, rows without a header left out; with
      one, a young header takes the place of the snapshot's. */
  lemma HeadersRead(snapshot: Snapshot, live: Live)
    requires Read(snapshot, live).Ok?
    ensures var session := Read(snapshot, live).value;
            if live.NoDirectory? then
              && session.headers == snapshot.headers
              && session.entries == if snapshot.headers == [] then [] else snapshot.entries
            else
              session.headers
              == if live.header.Present? && live.header.mtime >= snapshot.startedAt then [live.header.header]
                 else snapshot.headers
  {
    hide Overlaid;
  }

  // ---------- What the overlay promises ----------

  function EntriesOf(files: seq<LiveFile>): seq<Entry> {
    seq(|files|, i requires 0 <= i < |files| => files[i].entry)
  }

  /** Reading the live directory directly: its turns in ascending order. */
  function LiveTurns(files: seq<LiveFile>): seq<Entry> {
    Sorting.Sort(EntriesOf(files), Earlier)
  }

  /** What building a snapshot makes of an entry. */
  function RepairEntry(e: Entry): Entry {
    Entry(e.turn, RepairJson(e.body))
  }

  /** The snapshot was taken of this directory: no file was deleted since, files older than its
      start were captured repaired, and of younger ones it may hold any earlier version. */
  ghost predicate TakenFrom(snapshot: Snapshot, files: seq<LiveFile>) {
    && OnePerTurn(EntriesOf(files)) && OnePerTurn(snapshot.entries)
    && (forall i | 0 <= i < |files| && files[i].mtime < snapshot.startedAt ::
          RepairEntry(files[i].entry) in snapshot.entries)
    && (forall e | e in snapshot.entries ::
          exists i :: 0 <= i < |files| && CapturedFrom(files[i], snapshot.startedAt, e))
  }

  /** The snapshot may hold e for this file. */
  ghost predicate CapturedFrom(file: LiveFile, startedAt: int, e: Entry) {
    file.entry.turn == e.turn && (file.mtime < startedAt ==> e == RepairEntry(file.entry))
  }

  /** The header was captured too: repaired if it is older, and in any earlier version if younger. */
  ghost predicate HeaderTaken(snapshot: Snapshot, header: LiveHeader) {
    match header
    case Absent => snapshot.headers == []
    case Present(mtime, live, matches) =>
      mtime < snapshot.startedAt ==> snapshot.headers == if matches then [Header(RepairJson(live.body))] else []
  }

  /** Some file younger than the snapshot's start holds e. */
  ghost predicate IsFresh(files: seq<LiveFile>, startedAt: int, e: Entry) {
    exists i :: 0 <= i < |files| && files[i].mtime >= startedAt && files[i].entry == e
  }

  lemma {:induction false} FreshMembers(files: seq<LiveFile>, startedAt: int)
    requires OnePerTurn(EntriesOf(files))
    ensures OnePerTurn(Fresh(files, startedAt))
    ensures forall e :: e in Fresh(files, startedAt) <==> IsFresh(files, startedAt, e)
  {
    if files != [] {
      var n := |files| - 1;
      var front, last := files[..n], files[n];
      assert EntriesOf(front) == EntriesOf(files)[..n];
      FreshMembers(front, startedAt);
      var newer := Fresh(files, startedAt);
      forall e ensures e in newer <==> IsFresh(files, startedAt, e) {
        if e in Fresh(front, startedAt) {
          var i :| 0 <= i < |front| && front[i].mtime >= startedAt && front[i].entry == e;
          assert files[i].mtime >= startedAt && files[i].entry == e;
        }
        if i :| 0 <= i < |files| && files[i].mtime >= startedAt && files[i].entry == e {
          assert i < n ==> front[i].mtime >= startedAt && front[i].entry == e;
        }
      }
      var before := Fresh(front, startedAt);
      forall k | 0 <= k < |before| ensures before[k].turn != last.entry.turn {
        assert before[k] in before;
        var i :| 0 <= i < |front| && front[i].entry == before[k];
        assert EntriesOf(files)[i].turn != EntriesOf(files)[n].turn;
      }
    }
  }

  /** A kept row whose turn no younger file has. */
  ghost predicate Uncovered(snapshot: Snapshot, files: seq<LiveFile>, e: Entry) {
    e in Kept(snapshot) && forall m | m in Fresh(files, snapshot.startedAt) :: m.turn != e.turn
  }

  /** The overlaid map holds exactly the younger files' entries and the kept rows of other turns. */
  lemma OverlaidMembers(snapshot: Snapshot, files: seq<LiveFile>)
    requires TakenFrom(snapshot, files)
    ensures var byTurn := Overlaid(snapshot, files);
            && OnePerTurn(byTurn)
            && forall e :: e in byTurn <==> (e in Fresh(files, snapshot.startedAt) || Uncovered(snapshot, files, e))
  {
    PutAllMembers([], Kept(snapshot));
    FreshMembers(files, snapshot.startedAt);
    PutAllMembers(PutAll([], Kept(snapshot)), Fresh(files, snapshot.startedAt));
  }

  /** How the overlay shows a live file while the snapshot holds the header. */
  function Shown(file: LiveFile, startedAt: int): Entry {
    if file.mtime < startedAt then RepairEntry(file.entry) else file.entry
  }

  function AllShown(files: seq<LiveFile>, startedAt: int): seq<Entry> {
    seq(|files|, i requires 0 <= i < |files| => Shown(files[i], startedAt))
  }

  /** An older file with a string the snapshot repaired. */
  predicate NeedsRepair(file: LiveFile, startedAt: int) {
    file.mtime < startedAt && !ValuesWellFormed(file.entry.body)
  }

  ghost predicate NoneRepaired(files: seq<LiveFile>, startedAt: int) {
    forall i | 0 <= i < |files| :: !NeedsRepair(files[i], startedAt)
  }

  ghost predicate NoneOlder(files: seq<LiveFile>, startedAt: int) {
    forall i | 0 <= i < |files| :: files[i].mtime >= startedAt
  }

  lemma ShownIsOverlaid(snapshot: Snapshot, files: seq<LiveFile>, i: nat)
    requires TakenFrom(snapshot, files) && snapshot.headers != [] && i < |files|
    ensures Shown(files[i], snapshot.startedAt) in Overlaid(snapshot, files)
  {
    hide Overlaid, Fresh, RepairJson;
    OverlaidMembers(snapshot, files);
    FreshMembers(files, snapshot.startedAt);
    if files[i].mtime < snapshot.startedAt {
      forall m | m in Fresh(files, snapshot.startedAt) ensures m.turn != files[i].entry.turn {
        var j :| 0 <= j < |files| && files[j].mtime >= snapshot.startedAt && files[j].entry == m;
        TurnsDiffer(files, i, j);
      }
      assert Uncovered(snapshot, files, RepairEntry(files[i].entry));
    } else {
      assert IsFresh(files, snapshot.startedAt, files[i].entry);
    }
  }

  lemma TurnsDiffer(files: seq<LiveFile>, i: nat, j: nat)
    requires OnePerTurn(EntriesOf(files)) && i < |files| && j < |files| && i != j
    ensures files[i].entry.turn != files[j].entry.turn
  {
    var entries := EntriesOf(files);
    assert i < j ==> entries[i].turn != entries[j].turn;
    assert j < i ==> entries[j].turn != entries[i].turn;
  }

  lemma OverlaidWasShown(snapshot: Snapshot, files: seq<LiveFile>, e: Entry) returns (i: nat)
    requires TakenFrom(snapshot, files) && e in Overlaid(snapshot, files)
    ensures i < |files| && Shown(files[i], snapshot.startedAt) == e
  {
    hide Overlaid, Fresh, RepairJson;
    OverlaidMembers(snapshot, files);
    FreshMembers(files, snapshot.startedAt);
    if e in Fresh(files, snapshot.startedAt) {
      i :| 0 <= i < |files| && files[i].mtime >= snapshot.startedAt && files[i].entry == e;
    } else {
      i :| 0 <= i < |files| && CapturedFrom(files[i], snapshot.startedAt, e);
      FreshOrOlder(files, snapshot.startedAt, i);
    }
  }

  lemma FreshOrOlder(files: seq<LiveFile>, startedAt: int, i: nat)
    requires i < |files|
    ensures files[i].mtime < startedAt || IsFresh(files, startedAt, files[i].entry)
  {}

  /** With the header row in the snapshot, the overlaid entries are the live files' entries, older
      ones repaired. */
  lemma OverlaidIsShown(snapshot: Snapshot, files: seq<LiveFile>, e: Entry)
    requires TakenFrom(snapshot, files) && snapshot.headers != []
    ensures e in Overlaid(snapshot, files) <==> e in AllShown(files, snapshot.startedAt)
  {
    hide Overlaid, Shown;
    var shown := AllShown(files, snapshot.startedAt);
    if e in shown {
      var i :| 0 <= i < |shown| && shown[i] == e;
      ShownIsOverlaid(snapshot, files, i);
    }
    if e in Overlaid(snapshot, files) {
      var i := OverlaidWasShown(snapshot, files, e);
      assert shown[i] == e;
    }
  }

  lemma ShownTurns(files: seq<LiveFile>, startedAt: int)
    requires OnePerTurn(EntriesOf(files))
    ensures OnePerTurn(AllShown(files, startedAt))
  {
    hide RepairJson;
    var shown := AllShown(files, startedAt);
    forall i, j | 0 <= i < j < |files| ensures shown[i].turn != shown[j].turn {
      TurnsDiffer(files, i, j);
    }
  }

  /** The shown entries are the live ones exactly when no older file needed repair. */
  lemma ShownIsLiveIff(files: seq<LiveFile>, startedAt: int)
    requires OnePerTurn(EntriesOf(files))
    ensures (forall e :: e in AllShown(files, startedAt) <==> e in EntriesOf(files)) <==> NoneRepaired(files, startedAt)
  {
    hide RepairJson;
    var shown, live := AllShown(files, startedAt), EntriesOf(files);
    forall i | 0 <= i < |files| ensures shown[i] == live[i] <==> !NeedsRepair(files[i], startedAt) {
      RepairedJson(files[i].entry.body);
    }
    if NoneRepaired(files, startedAt) {
      assert shown == live;
    } else {
      var i :| 0 <= i < |files| && NeedsRepair(files[i], startedAt);
      forall j | 0 <= j < |files| ensures shown[j] != live[i] {
        if j != i {
          TurnsDiffer(files, i, j);
        }
      }
      assert live[i] in live && live[i] !in shown;
    }
  }

  /** Without it, they are the younger files' entries. */
  lemma OverlaidIsFresh(snapshot: Snapshot, files: seq<LiveFile>, e: Entry)
    requires TakenFrom(snapshot, files) && snapshot.headers == []
    ensures e in Overlaid(snapshot, files)
            <==> e in Fresh(files, snapshot.startedAt)
  {
    OverlaidMembers(snapshot, files);
  }

  lemma TurnsDoNotTie(entries: seq<Entry>)
    requires OnePerTurn(entries)
    ensures Sorting.NoTies(entries, Earlier) && Sorting.StrictOrder(Earlier)
  {}

  lemma {:induction false} FreshLength(files: seq<LiveFile>, startedAt: int)
    ensures |Fresh(files, startedAt)| <= |files|
  {
    if files != [] {
      FreshLength(files[..|files| - 1], startedAt);
    }
  }

  /** No more entries than another list without repeated turns that contains them all. */
  lemma FewerEntries(a: seq<Entry>, b: seq<Entry>)
    requires OnePerTurn(a) && forall e | e in a :: e in b
    ensures |a| <= |b|
  {
    var members := set i | 0 <= i < |a| :: a[i];
    var others := set i | 0 <= i < |b| :: b[i];
    MembersCount(a);
    MembersAtMost(b);
    forall e | e in members ensures e in others {
      assert e in b;
    }
    assert members <= others;
    SubsetCount(members, others);
  }

  lemma SubsetCount(a: set<Entry>, b: set<Entry>)
    requires a <= b
    ensures |a| <= |b|
  {
    assert b == a + (b - a);
  }

  lemma {:induction false} MembersCount(a: seq<Entry>)
    requires OnePerTurn(a)
    ensures |set i | 0 <= i < |a| :: a[i]| == |a|
  {
    if a != [] {
      var n := |a| - 1;
      MembersCount(a[..n]);
      var front := set i | 0 <= i < n :: a[..n][i];
      assert (set i | 0 <= i < |a| :: a[i]) == front + {a[n]};
    }
  }

  lemma {:induction false} MembersAtMost(a: seq<Entry>)
    ensures |set i | 0 <= i < |a| :: a[i]| <= |a|
  {
    if a != [] {
      var n := |a| - 1;
      MembersAtMost(a[..n]);
      var front := set i | 0 <= i < n :: a[..n][i];
      assert (set i | 0 <= i < |a| :: a[i]) == front + {a[n]};
    }
  }

  lemma OverlaidSize(snapshot: Snapshot, files: seq<LiveFile>)
    requires TakenFrom(snapshot, files)
    ensures |Overlaid(snapshot, files)| <= |files|
  {
    var byTurn := Overlaid(snapshot, files);
    OverlaidMembers(snapshot, files);
    if snapshot.headers != [] {
      var shown := AllShown(files, snapshot.startedAt);
      forall e | e in byTurn ensures e in shown {
        OverlaidIsShown(snapshot, files, e);
      }
      FewerEntries(byTurn, shown);
    } else {
      FreshLength(files, snapshot.startedAt);
      FewerEntries(byTurn, Fresh(files, snapshot.startedAt));
    }
  }

  /** The read succeeds, yields one entry per turn in ascending order, and equals reading the live
      directory, whichever versions the snapshot caught: with the session's header in the snapshot,
      exactly when no older turn file needed repair; without it, exactly when none is older. */
  lemma OverlayIsLiveIff(snapshot: Snapshot, header: LiveHeader, files: seq<LiveFile>)
    requires TakenFrom(snapshot, files)
    requires HeaderFits(header, snapshot.startedAt) && AllValid(files, snapshot.startedAt)
    requires |files| <= READ_LIMIT && |snapshot.entries| <= READ_LIMIT
    ensures var session := Read(snapshot, Directory(header, files));
            && session.Ok? && Sorting.Ordered(session.value.entries, Earlier)
            && (session.value.entries == LiveTurns(files)
                <==> if snapshot.headers != [] then NoneRepaired(files, snapshot.startedAt)
                     else NoneOlder(files, snapshot.startedAt))
  {
    hide Overlaid, Fresh, RepairJson;
    var byTurn := Overlaid(snapshot, files);
    OverlaidSize(snapshot, files);
    OverlaidMembers(snapshot, files);
    TurnsDoNotTie(byTurn);
    Sorting.SortOrdered(byTurn, Earlier);
    OverlaidLiveIff(snapshot, files);
    SameSorted(byTurn, EntriesOf(files));
  }

  /** The header comes back as the live one exactly when it is younger or needed no repair. */
  lemma HeaderIsLiveIff(snapshot: Snapshot, header: LiveHeader, files: seq<LiveFile>)
    requires HeaderTaken(snapshot, header) && header.Present? && header.matches
    requires Read(snapshot, Directory(header, files)).Ok?
    ensures Read(snapshot, Directory(header, files)).value.headers == [header.header]
       <==> header.mtime >= snapshot.startedAt || ValuesWellFormed(header.header.body)
  {
    hide Overlaid, RepairJson;
    RepairedJson(header.header.body);
  }

  /** Sorting two lists without repeated turns gives the same exactly when their members agree. */
  lemma SameSorted(a: seq<Entry>, b: seq<Entry>)
    requires OnePerTurn(a) && OnePerTurn(b)
    ensures Sorting.Sort(a, Earlier) == Sorting.Sort(b, Earlier) <==> forall e :: e in a <==> e in b
  {
    TurnsDoNotTie(a);
    TurnsDoNotTie(b);
    Sorting.SortOrdered(a, Earlier);
    Sorting.SortOrdered(b, Earlier);
    if forall e :: e in a <==> e in b {
      Sorting.SortIgnoresOrder(a, b, Earlier);
    }
  }

  lemma OverlaidLiveIff(snapshot: Snapshot, files: seq<LiveFile>)
    requires TakenFrom(snapshot, files)
    ensures (forall e :: e in Overlaid(snapshot, files) <==> e in EntriesOf(files))
            <==> if snapshot.headers != [] then NoneRepaired(files, snapshot.startedAt)
                 else NoneOlder(files, snapshot.startedAt)
  {
    hide Overlaid, Fresh, RepairJson, AllShown;
    FreshMembers(files, snapshot.startedAt);
    if snapshot.headers != [] {
      forall e ensures e in Overlaid(snapshot, files) <==> e in AllShown(files, snapshot.startedAt) {
        OverlaidIsShown(snapshot, files, e);
      }
      ShownIsLiveIff(files, snapshot.startedAt);
    } else if i :| 0 <= i < |files| && files[i].mtime < snapshot.startedAt {
      OlderIsMissing(snapshot, files, i);
      assert EntriesOf(files)[i] in EntriesOf(files);
    } else {
      forall e ensures e in Overlaid(snapshot, files) <==> e in EntriesOf(files) {
        OverlaidIsFresh(snapshot, files, e);
        if e in EntriesOf(files) {
          var i :| 0 <= i < |files| && EntriesOf(files)[i] == e;
          assert files[i].mtime >= snapshot.startedAt && files[i].entry == e;
          assert IsFresh(files, snapshot.startedAt, e);
        }
        if e in Overlaid(snapshot, files) {
          var i := OverlaidWasShown(snapshot, files, e);
          assert EntriesOf(files)[i] == e;
        }
      }
    }
  }

  lemma OlderIsMissing(snapshot: Snapshot, files: seq<LiveFile>, i: nat)
    requires TakenFrom(snapshot, files) && snapshot.headers == []
    requires i < |files| && files[i].mtime < snapshot.startedAt
    ensures files[i].entry !in Overlaid(snapshot, files)
  {
    var e := files[i].entry;
    OverlaidIsFresh(snapshot, files, e);
    FreshMembers(files, snapshot.startedAt);
    forall j | 0 <= j < |files| && files[j].mtime >= snapshot.startedAt ensures files[j].entry != e {
      TurnsDiffer(files, i, j);
    }
  }

  /** A directory with one turn file, older than the snapshot. */
  lemma OneOlderFile(snapshot: Snapshot, file: LiveFile)
    requires file.mtime < snapshot.startedAt && snapshot.entries == [RepairEntry(file.entry)]
    ensures TakenFrom(snapshot, [file]) && LiveTurns([file]) == [file.entry]
    ensures Overlaid(snapshot, [file]) == Kept(snapshot) == Sorting.Sort(Kept(snapshot), Earlier)
  {
    hide RepairJson;
    var files, rows := [file], snapshot.entries;
    assert EntriesOf(files) == [file.entry];
    assert CapturedFrom(files[0], snapshot.startedAt, rows[0]);
    assert files[..0] == [] && Fresh(files[..0], snapshot.startedAt) == [] && Fresh(files, snapshot.startedAt) == [];
    assert rows[..0] == [] && PutAll([], rows) == Put(PutAll([], rows[..0]), rows[0]);
    SortOne(file.entry);
    SortOne(rows[0]);
  }

  lemma SortOne(e: Entry)
    ensures Sorting.Sort([e], Earlier) == [e] && Sorting.Sort([], Earlier) == []
  {
    assert [e][1..] == [];
  }

  /** It happens: without the header row, the one turn, older than the snapshot and captured by it,
      is not read. */
  lemma HeaderlessTurnIsLost(body: Json)
    ensures var files := [LiveFile(3, Entry(1, body), true)];
            var snapshot := Snapshot(10, [], [Entry(1, RepairJson(body))]);
            && TakenFrom(snapshot, files) && HeaderTaken(snapshot, Absent)
            && LiveTurns(files) == [Entry(1, body)]
            && Read(snapshot, Directory(Absent, files)) == Ok(Session([], []))
  {
    hide RepairJson, LiveTurns, TakenFrom, Overlaid;
    OneOlderFile(Snapshot(10, [], [Entry(1, RepairJson(body))]), LiveFile(3, Entry(1, body), true));
  }

  /** And with it, a turn older than the snapshot that holds a lone surrogate comes back repaired. */
  lemma RepairedTurnDiffers()
    ensures var files, header := [LiveFile(3, Entry(1, Text([0xD800])), true)], Header(Scalar(0));
            var snapshot := Snapshot(10, [header], [Entry(1, Text([REPLACEMENT]))]);
            && TakenFrom(snapshot, files) && HeaderTaken(snapshot, Present(3, header, true))
            && LiveTurns(files) == [Entry(1, Text([0xD800]))]
            && Read(snapshot, Directory(Present(3, header, true), files))
               == Ok(Session([header], [Entry(1, Text([REPLACEMENT]))]))
  {
    hide LiveTurns, TakenFrom, Overlaid;
    var header, e := Header(Scalar(0)), Entry(1, Text([0xD800]));
    assert Repair([0xD800]) == [REPLACEMENT];
    assert RepairEntry(e) == Entry(1, Text([REPLACEMENT]));
    OneOlderFile(Snapshot(10, [header], [RepairEntry(e)]), LiveFile(3, e, true));
  }
}
