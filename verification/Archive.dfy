/** Moving cold traces out of the live directories: a plan read off the session index, the file
    moves, then two writes per index. Each rename and each write is one step, after any of
    which the program may stop. */
module Archive {
  import opened Wrappers
  import Sorting

  /** An id field of a parsed index line: a string, another truthy value with its string form,
      or a missing or falsy one. */
  datatype Id = Text(text: string) | Coerced(text: string) | Missing

  datatype Record = Record(sessionId: Id, runId: Id, startTime: Option<int>)

  /** The calendar and the JSON parser are parameters; a line that does not parse to an object is None. */
  datatype Options = Options(nowMs: int, hotDays: nat, month: int -> string, parse: string -> Option<Record>)

  datatype Kind = Trace | Log | Screenshot | RunFile

  /** A file in its live directory, or under a month of the archive. */
  datatype Path = Live(kind: Kind, name: string) | Stored(bucket: string, kind: Kind, name: string)

  datatype Index = Sessions | Runs

  type Files = map<Path, string>
  type Journal = map<Index, seq<string>>

  /** The moved files, the live indexes and the archived ones, as raw lines. */
  datatype Disk = Disk(files: Files, index: Journal, archive: Journal)

  datatype Move = Move(source: Path, destination: Path)
  datatype Plan = Plan(sessionIds: set<string>, runIds: set<string>, moves: seq<Move>, indexMoves: seq<Index>)

  // ---------- What the session index says ----------

  function Cutoff(o: Options): int {
    o.nowMs - o.hotDays * 24 * 60 * 60 * 1000
  }

  predicate Truthy(id: Id) {
    id.Coerced? || (id.Text? && id.text != "")
  }

  /** String(id), for the ids that are used. */
  function IdText(id: Id): string {
    if id.Missing? then "" else id.text
  }

  function Lines(journal: Journal, ix: Index): seq<string> {
    if ix in journal then journal[ix] else []
  }

  /** Records of the lines that name a session. */
  function SessionsIn(o: Options, lines: seq<string>): seq<Record> {
    if lines == [] then []
    else
      var n := |lines| - 1;
      var record := o.parse(lines[n]);
      SessionsIn(o, lines[..n]) + (if record.Some? && Truthy(record.value.sessionId) then [record.value] else [])
  }

  predicate IsCold(o: Options, s: Record) {
    s.startTime.Some? && s.startTime.value < Cutoff(o)
  }

  function Cold(o: Options, sessions: seq<Record>): seq<Record> {
    if sessions == [] then []
    else
      var n := |sessions| - 1;
      Cold(o, sessions[..n]) + (if IsCold(o, sessions[n]) then [sessions[n]] else [])
  }

  predicate NamesRun(s: Record) {
    s.runId.Text? && s.runId.text != ""
  }

  function SessionIds(o: Options, lines: seq<string>): set<string> {
    set s | s in Cold(o, SessionsIn(o, lines)) :: IdText(s.sessionId)
  }

  function HotRuns(o: Options, lines: seq<string>): set<string> {
    set s | s in SessionsIn(o, lines) && IdText(s.sessionId) !in SessionIds(o, lines) && NamesRun(s) :: s.runId.text
  }

  function RunIds(o: Options, lines: seq<string>): set<string> {
    set s | s in Cold(o, SessionsIn(o, lines)) && NamesRun(s) && s.runId.text !in HotRuns(o, lines) :: s.runId.text
  }

  lemma {:induction false} SessionsMembers(o: Options, lines: seq<string>, s: Record)
    ensures s in SessionsIn(o, lines) <==> Truthy(s.sessionId) && exists raw :: raw in lines && o.parse(raw) == Some(s)
  {
    if lines != [] {
      var n := |lines| - 1;
      SessionsMembers(o, lines[..n], s);
      assert lines == lines[..n] + [lines[n]];
    }
  }

  lemma {:induction false} ColdMembers(o: Options, sessions: seq<Record>, s: Record)
    ensures s in Cold(o, sessions) <==> s in sessions && IsCold(o, s)
  {
    if sessions != [] {
      var n := |sessions| - 1;
      ColdMembers(o, sessions[..n], s);
      assert sessions == sessions[..n] + [sessions[n]];
    }
  }

  // ---------- Which file goes where ----------

  predicate IsShotOf(id: string, name: string) {
    id + "-T" <= name
  }

  predicate Claims(s: Record, p: Path) {
    match p
    case Stored(_, _, _) => false
    case Live(kind, name) =>
      match kind
      case RunFile => s.runId == Text(name)
      case Screenshot => IsShotOf(IdText(s.sessionId), name)
      case _ => IdText(s.sessionId) == name
  }

  /** Where session s sends file p. */
  function Destination(o: Options, s: Record, p: Path): Path {
    Stored(o.month(if s.startTime.Some? then s.startTime.value else o.nowMs), p.kind, p.name)
  }

  /** Where file p belongs: with the first cold session claiming it. */
  function Home(o: Options, cold: seq<Record>, p: Path): Option<Path> {
    if cold == [] then None
    else
      var n := |cold| - 1;
      var home := Home(o, cold[..n], p);
      if home.Some? then home
      else if Claims(cold[n], p) then Some(Destination(o, cold[n], p))
      else None
  }

  /** The destination of every file to move: of the run files, only those of `runs` go. */
  function HomesOf(o: Options, cold: seq<Record>, runs: set<string>, files: Files): map<Path, Path> {
    map p | p in files && (p.kind.RunFile? ==> p.name in runs) && Home(o, cold, p).Some? :: Home(o, cold, p).value
  }

  function Homes(o: Options, lines: seq<string>, files: Files): map<Path, Path> {
    HomesOf(o, Cold(o, SessionsIn(o, lines)), RunIds(o, lines), files)
  }

  /** The destination of the first move of each source; later moves of it find it gone. */
  function FirstMoves(moves: seq<Move>): map<Path, Path> {
    if moves == [] then map[]
    else
      var m := moves[|moves| - 1];
      var before := FirstMoves(moves[..|moves| - 1]);
      if m.source in before then before else before[m.source := m.destination]
  }

  ghost predicate WellShaped(moves: seq<Move>) {
    forall m | m in moves ::
      m.source.Live? && m.destination.Stored? && m.destination.kind == m.source.kind
        && m.destination.name == m.source.name
  }

  /** The moves of a plan take files that are there to their months. */
  ghost predicate Movable(plan: Plan, d: Disk) {
    Destinations(FirstMoves(plan.moves)) && FirstMoves(plan.moves).Keys <= d.files.Keys
  }

  /** What buildTraceArchivePlan answers on a disk. */
  ghost predicate Plans(o: Options, d: Disk, plan: Plan) {
    var lines := Lines(d.index, Sessions);
    && plan.sessionIds == SessionIds(o, lines)
    && plan.runIds == RunIds(o, lines)
    && WellShaped(plan.moves) && Movable(plan, d)
    && FirstMoves(plan.moves) == Homes(o, lines, d.files)
    && plan.indexMoves == (if plan.sessionIds != {} && Sessions in d.index then [Sessions] else [])
                        + (if plan.runIds != {} && Runs in d.index then [Runs] else [])
  }

  lemma {:induction false} HomeClaimed(o: Options, cold: seq<Record>, p: Path)
    ensures Home(o, cold, p).Some?
            ==> exists s :: s in cold && Claims(s, p) && Home(o, cold, p).value == Destination(o, s, p)
    ensures Home(o, cold, p).None? ==> forall s | s in cold :: !Claims(s, p)
  {
    if cold != [] {
      var n := |cold| - 1;
      HomeClaimed(o, cold[..n], p);
      assert cold == cold[..n] + [cold[n]];
      assert cold[n] in cold;
    }
  }

  lemma {:induction false} FirstMovesOf(moves: seq<Move>)
    requires WellShaped(moves)
    ensures forall m | m in moves :: m.source in FirstMoves(moves)
    ensures forall p | p in FirstMoves(moves) :: p.Live? && FirstMoves(moves)[p].Stored?
              && FirstMoves(moves)[p].kind == p.kind && FirstMoves(moves)[p].name == p.name
  {
    if moves != [] {
      var n := |moves| - 1;
      assert moves == moves[..n] + [moves[n]];
      assert forall m | m in moves[..n] :: m in moves;
      FirstMovesOf(moves[..n]);
      assert moves[n] in moves;
    }
  }

  // ---------- The file moves ----------

  /** The destinations of one plan: live names to stored ones of the same kind and name. */
  ghost predicate Destinations(homes: map<Path, Path>) {
    forall p | p in homes ::
      p.Live? && homes[p].Stored? && homes[p].kind == p.kind && homes[p].name == p.name
  }

  /** The files once those in `done` have moved. */
  function Moved(files: Files, homes: map<Path, Path>, done: set<Path>): Files
    requires done <= files.Keys && done <= homes.Keys
    requires Destinations(homes)
  {
    map q | q in (files.Keys - done) + (set p | p in done :: homes[p]) ::
      if q in files.Keys - done then files[q] else files[Live(q.kind, q.name)]
  }

  /** No file waiting to move finds its destination taken. */
  ghost predicate DestinationsFree(files: Files, homes: map<Path, Path>) {
    forall p | p in files && p in homes :: homes[p] !in files
  }

  lemma MoveOne(files: Files, homes: map<Path, Path>, done: set<Path>, p: Path)
    requires done <= files.Keys && done <= homes.Keys && Destinations(homes)
    requires p in files && p in homes && p !in done && homes[p] !in files
    ensures var now := Moved(files, homes, done);
            p in now && homes[p] !in now && Moved(files, homes, done + {p}) == (now - {p})[homes[p] := now[p]]
  {
    var now := Moved(files, homes, done);
    var next := Moved(files, homes, done + {p});
    assert forall q | q in done :: homes[q] == homes[p] ==> q == p;
    forall q: Path ensures q in next <==> q in (now - {p})[homes[p] := now[p]] {
    }
  }

  lemma MovedAt(files: Files, homes: map<Path, Path>, done: set<Path>, q: Path)
    requires done <= files.Keys && done <= homes.Keys && Destinations(homes)
    ensures q in Moved(files, homes, done)
       <==> q in files.Keys - done || (Live(q.kind, q.name) in done && homes[Live(q.kind, q.name)] == q)
  {}

  /** Moving some files and then the others is moving them all. */
  lemma MovedInTwoParts(files: Files, homes: map<Path, Path>, done: set<Path>)
    requires Destinations(homes) && DestinationsFree(files, homes) && done <= homes.Keys <= files.Keys
    ensures var stopped := Moved(files, homes, done);
            && homes.Keys - done <= stopped.Keys
            && DestinationsFree(stopped, homes - done)
            && Moved(stopped, homes - done, homes.Keys - done) == Moved(files, homes, homes.Keys)
  {
    var stopped := Moved(files, homes, done);
    var a := Moved(stopped, homes - done, homes.Keys - done);
    var b := Moved(files, homes, homes.Keys);
    forall q: Path ensures q in a <==> q in b
                   ensures q in a ==> a[q] == b[q]
    {
      MovedAt(files, homes, done, q);
      MovedAt(stopped, homes - done, homes.Keys - done, q);
      MovedAt(files, homes, homes.Keys, q);
      MovedAt(files, homes, done, Live(q.kind, q.name));
    }
  }

  lemma StoredStays(o: Options, cold: seq<Record>, p: Path)
    ensures p.Stored? ==> Home(o, cold, p).None?
  {
    HomeClaimed(o, cold, p);
  }

  /** What has moved is not planned again, and nothing else changes. */
  lemma PlannedAgain(o: Options, lines: seq<string>, files: Files, done: set<Path>)
    requires Destinations(Homes(o, lines, files)) && done <= Homes(o, lines, files).Keys
    ensures Homes(o, lines, Moved(files, Homes(o, lines, files), done)) == Homes(o, lines, files) - done
  {
    hide RunIds, SessionsIn, Cold, Home;
    forall p: Path | p.Stored? ensures Home(o, Cold(o, SessionsIn(o, lines)), p).None? {
      StoredStays(o, Cold(o, SessionsIn(o, lines)), p);
    }
  }

  // ---------- The index writes ----------

  /** The id by which a line is archived: only a string counts here. */
  function LineId(o: Options, ix: Index, raw: string): Option<string> {
    var record := o.parse(raw);
    if record.None? then None
    else
      var id := if ix.Sessions? then record.value.sessionId else record.value.runId;
      if id.Text? then Some(id.text) else None
  }

  predicate Chosen(o: Options, ix: Index, ids: set<string>, raw: string) {
    LineId(o, ix, raw).Some? && LineId(o, ix, raw).value in ids
  }

  /** The lines of an index that are archived, in order. */
  function Archived(o: Options, ix: Index, ids: set<string>, lines: seq<string>): seq<string> {
    if lines == [] then []
    else
      var n := |lines| - 1;
      Archived(o, ix, ids, lines[..n]) + (if Chosen(o, ix, ids, lines[n]) then [lines[n]] else [])
  }

  /** The lines that stay, in order; a line that does not parse is one of them. */
  function Retained(o: Options, ix: Index, ids: set<string>, lines: seq<string>): seq<string> {
    if lines == [] then []
    else
      var n := |lines| - 1;
      Retained(o, ix, ids, lines[..n]) + (if Chosen(o, ix, ids, lines[n]) then [] else [lines[n]])
  }

  function IdsOf(plan: Plan, ix: Index): set<string> {
    if ix.Sessions? then plan.sessionIds else plan.runIds
  }

  /** The first write of an index move, skipped when there is nothing to archive. */
  function WriteArchive(o: Options, plan: Plan, ix: Index, d: Disk): Disk {
    var archived := Archived(o, ix, IdsOf(plan, ix), Lines(d.index, ix));
    if archived == [] then d else d.(archive := d.archive[ix := Lines(d.archive, ix) + archived])
  }

  /** The second. */
  function WriteIndex(o: Options, plan: Plan, ix: Index, d: Disk): Disk {
    d.(index := d.index[ix := Retained(o, ix, IdsOf(plan, ix), Lines(d.index, ix))])
  }

  /** The disk after k of the index writes. */
  function Written(o: Options, plan: Plan, d: Disk, k: nat): Disk
    requires k <= 2 * |plan.indexMoves|
  {
    if k == 0 then d
    else if k % 2 == 1 then WriteArchive(o, plan, plan.indexMoves[k / 2], Written(o, plan, d, k - 1))
    else WriteIndex(o, plan, plan.indexMoves[k / 2 - 1], Written(o, plan, d, k - 1))
  }

  /** The disk after a whole plan. */
  function Applied(o: Options, plan: Plan, d: Disk): Disk
    requires Movable(plan, d)
  {
    var homes := FirstMoves(plan.moves);
    Written(o, plan, d.(files := Moved(d.files, homes, homes.Keys)), 2 * |plan.indexMoves|)
  }

  lemma Dealt<T>(a: seq<T>, b: seq<T>, lines: seq<T>, x: T)
    requires multiset(a) + multiset(b) == multiset(lines)
    ensures multiset(a + [x]) + multiset(b) == multiset(lines + [x])
    ensures multiset(a) + multiset(b + [x]) == multiset(lines + [x])
  {}

  /** Every line is archived or retained, as often as it occurs. */
  lemma {:induction false} Partition(o: Options, ix: Index, ids: set<string>, lines: seq<string>)
    ensures multiset(Archived(o, ix, ids, lines)) + multiset(Retained(o, ix, ids, lines)) == multiset(lines)
  {
    hide Archived, Retained, Chosen;
    DealtOne(o, ix, ids, lines);
    if lines != [] {
      var front, last := lines[..|lines| - 1], lines[|lines| - 1];
      assert lines == front + [last];
      Partition(o, ix, ids, front);
      Dealt(Archived(o, ix, ids, front), Retained(o, ix, ids, front), front, last);
    }
  }

  lemma DealtOne(o: Options, ix: Index, ids: set<string>, lines: seq<string>)
    ensures lines == [] ==> Archived(o, ix, ids, lines) == [] && Retained(o, ix, ids, lines) == []
    ensures lines != [] ==>
              var front, last := lines[..|lines| - 1], lines[|lines| - 1];
              var a, r := Archived(o, ix, ids, front), Retained(o, ix, ids, front);
              if Chosen(o, ix, ids, last) then
                Archived(o, ix, ids, lines) == a + [last] && Retained(o, ix, ids, lines) == r
              else Archived(o, ix, ids, lines) == a && Retained(o, ix, ids, lines) == r + [last]
  {
    hide Chosen;
  }

  lemma {:induction false} LinesKept(o: Options, ix: Index, ids: set<string>, lines: seq<string>, raw: string)
    ensures raw in Archived(o, ix, ids, lines) <==> raw in lines && Chosen(o, ix, ids, raw)
    ensures raw in Retained(o, ix, ids, lines) <==> raw in lines && !Chosen(o, ix, ids, raw)
  {
    hide Chosen;
    if lines != [] {
      var n := |lines| - 1;
      LinesKept(o, ix, ids, lines[..n], raw);
      assert lines == lines[..n] + [lines[n]];
    }
  }

  /** Retaining removes nothing exactly when nothing is archived. */
  lemma {:induction false} RetainedAll(o: Options, ix: Index, ids: set<string>, lines: seq<string>)
    ensures |Archived(o, ix, ids, lines)| + |Retained(o, ix, ids, lines)| == |lines|
    ensures Archived(o, ix, ids, lines) == [] ==> Retained(o, ix, ids, lines) == lines
  {
    if lines != [] {
      RetainedAll(o, ix, ids, lines[..|lines| - 1]);
    }
  }

  /** The lines of an index, live and archived together. */
  ghost function AllLines(d: Disk, ix: Index): multiset<string> {
    multiset(Lines(d.index, ix)) + multiset(Lines(d.archive, ix))
  }

  /** Between the two writes of an index move, the lines it archives are there twice. */
  ghost function Doubled(o: Options, plan: Plan, d: Disk, k: nat, ix: Index): multiset<string>
    requires k <= 2 * |plan.indexMoves|
  {
    if k % 2 == 1 && plan.indexMoves[k / 2] == ix then
      multiset(Archived(o, ix, IdsOf(plan, ix), Lines(Written(o, plan, d, k - 1).index, ix)))
    else multiset{}
  }

  lemma ArchiveWritten(o: Options, plan: Plan, moved: Index, d: Disk, ix: Index)
    ensures var e := WriteArchive(o, plan, moved, d);
            var archived := multiset(Archived(o, moved, IdsOf(plan, moved), Lines(d.index, moved)));
            && e.index == d.index && e.files == d.files && Lines(d.archive, ix) <= Lines(e.archive, ix)
            && AllLines(e, ix) == AllLines(d, ix) + (if moved == ix then archived else multiset{})
  {
    hide Archived;
    var archived := Archived(o, moved, IdsOf(plan, moved), Lines(d.index, moved));
    var e := WriteArchive(o, plan, moved, d);
    if moved == ix {
      assert Lines(e.archive, ix) == Lines(d.archive, ix) + archived;
    } else {
      assert Lines(e.archive, ix) == Lines(d.archive, ix);
    }
  }

  lemma IndexWritten(o: Options, plan: Plan, moved: Index, d: Disk, ix: Index)
    ensures var e := WriteIndex(o, plan, moved, d);
            var archived := multiset(Archived(o, moved, IdsOf(plan, moved), Lines(d.index, moved)));
            && e.archive == d.archive && e.files == d.files
            && AllLines(e, ix) + (if moved == ix then archived else multiset{}) == AllLines(d, ix)
  {
    hide Archived, Retained;
    Partition(o, moved, IdsOf(plan, moved), Lines(d.index, moved));
  }

  /** Stopped after any write, no line of an index is lost, the old archive is still the start
      of the new one, and only between the two writes of one index is a line there twice. */
  lemma {:induction false} NoLineIsLost(o: Options, plan: Plan, d: Disk, k: nat, ix: Index)
    requires k <= 2 * |plan.indexMoves|
    ensures AllLines(Written(o, plan, d, k), ix) == AllLines(d, ix) + Doubled(o, plan, d, k, ix)
    ensures Lines(d.archive, ix) <= Lines(Written(o, plan, d, k).archive, ix)
    ensures Written(o, plan, d, k).files == d.files
  {
    hide Archived, AllLines, WriteArchive, WriteIndex, Lines, IdsOf, Written, Doubled;
    WrittenNone(o, plan, d);
    NoneDoubled(o, plan, d, 0, ix);
    if k > 0 {
      NoLineIsLost(o, plan, d, k - 1, ix);
      WrittenOnce(o, plan, d, k);
      var before, after := Written(o, plan, d, k - 1), Written(o, plan, d, k);
      if k % 2 == 1 {
        FirstWriteDoubles(o, plan, d, k, ix);
        NothingAdded(AllLines(d, ix));
      } else {
        WrittenOnce(o, plan, d, k - 1);
        SecondWriteRestores(o, plan, d, k, ix);
        Cancelled(AllLines(after, ix), AllLines(d, ix), Doubled(o, plan, d, k - 1, ix));
        NothingAdded(AllLines(d, ix));
      }
      PrefixThrough(Lines(d.archive, ix), Lines(before.archive, ix), Lines(after.archive, ix));
    }
  }

  lemma NothingAdded<T>(a: multiset<T>)
    ensures a + multiset{} == a
  {}

  lemma Cancelled<T>(a: multiset<T>, b: multiset<T>, c: multiset<T>)
    requires a + c == b + c
    ensures a == b
  {
    forall x ensures a[x] == b[x] {
      assert (a + c)[x] == (b + c)[x];
    }
  }

  lemma PrefixThrough<T>(a: seq<T>, b: seq<T>, c: seq<T>)
    requires a <= b <= c
    ensures a <= c
  {}

  lemma NoneDoubled(o: Options, plan: Plan, d: Disk, k: nat, ix: Index)
    requires k <= 2 * |plan.indexMoves| && k % 2 == 0
    ensures Doubled(o, plan, d, k, ix) == multiset{}
  {}

  lemma FirstWriteDoubles(o: Options, plan: Plan, d: Disk, k: nat, ix: Index)
    requires k <= 2 * |plan.indexMoves| && k % 2 == 1
    ensures var before := Written(o, plan, d, k - 1);
            var after := WriteArchive(o, plan, plan.indexMoves[k / 2], before);
            && AllLines(after, ix) == AllLines(before, ix) + Doubled(o, plan, d, k, ix)
            && Doubled(o, plan, d, k - 1, ix) == multiset{}
            && Lines(before.archive, ix) <= Lines(after.archive, ix) && after.files == before.files
  {
    hide Archived, AllLines, WriteArchive, Lines, IdsOf, Written;
    ArchiveWritten(o, plan, plan.indexMoves[k / 2], Written(o, plan, d, k - 1), ix);
  }

  lemma SecondWriteRestores(o: Options, plan: Plan, d: Disk, k: nat, ix: Index)
    requires 0 < k <= 2 * |plan.indexMoves| && k % 2 == 0
    requires Written(o, plan, d, k - 1) == WriteArchive(o, plan, plan.indexMoves[k / 2 - 1], Written(o, plan, d, k - 2))
    ensures var before := Written(o, plan, d, k - 1);
            var after := WriteIndex(o, plan, plan.indexMoves[k / 2 - 1], before);
            && AllLines(after, ix) + Doubled(o, plan, d, k - 1, ix) == AllLines(before, ix)
            && Doubled(o, plan, d, k, ix) == multiset{}
            && after.archive == before.archive && after.files == before.files
  {
    hide Archived, AllLines, WriteArchive, WriteIndex, Lines, IdsOf, Written;
    IndexWritten(o, plan, plan.indexMoves[k / 2 - 1], Written(o, plan, d, k - 1), ix);
    ArchiveWritten(o, plan, plan.indexMoves[k / 2 - 1], Written(o, plan, d, k - 2), ix);
  }

  // ---------- Planning again ----------

  ghost predicate Distinct(moves: seq<Index>) {
    forall i, j | 0 <= i < j < |moves| :: moves[i] != moves[j]
  }

  /** Where an index stands in the list, or the list's length. */
  ghost function Position(moves: seq<Index>, ix: Index): (k: nat)
    ensures k <= |moves| && (k < |moves| ==> moves[k] == ix)
    ensures forall j | 0 <= j < k :: moves[j] != ix
  {
    if moves == [] || moves[0] == ix then 0 else 1 + Position(moves[1..], ix)
  }

  lemma LinesAfterArchive(o: Options, plan: Plan, moved: Index, d: Disk, ix: Index)
    ensures var e := WriteArchive(o, plan, moved, d);
            && Lines(e.index, ix) == Lines(d.index, ix)
            && Lines(e.archive, ix)
            == Lines(d.archive, ix) + (if moved == ix then Archived(o, ix, IdsOf(plan, ix), Lines(d.index, ix)) else [])
  {
    hide Archived;
  }

  lemma LinesAfterIndex(o: Options, plan: Plan, moved: Index, d: Disk, ix: Index)
    ensures var e := WriteIndex(o, plan, moved, d);
            && Lines(e.archive, ix) == Lines(d.archive, ix)
            && Lines(e.index, ix)
            == if moved == ix then Retained(o, ix, IdsOf(plan, ix), Lines(d.index, ix)) else Lines(d.index, ix)
  {
    hide Retained;
  }

  /** Which lines are where, after k of the writes. */
  lemma {:induction false} LinesWritten(o: Options, plan: Plan, d: Disk, k: nat, ix: Index)
    requires k <= 2 * |plan.indexMoves| && Distinct(plan.indexMoves)
    ensures var lines := Lines(d.index, ix);
            var e := Written(o, plan, d, k);
            var done := 2 * Position(plan.indexMoves, ix);
            && Lines(e.index, ix) == (if k >= done + 2 then Retained(o, ix, IdsOf(plan, ix), lines) else lines)
            && Lines(e.archive, ix)
            == Lines(d.archive, ix) + (if k >= done + 1 then Archived(o, ix, IdsOf(plan, ix), lines) else [])
  {
    hide Archived, Retained, IdsOf, Lines, WriteArchive, WriteIndex, Position, Written, Distinct;
    if k == 0 {
      WrittenNone(o, plan, d);
    } else {
      var j := (k - 1) / 2;
      LinesWritten(o, plan, d, k - 1, ix);
      WrittenOnce(o, plan, d, k);
      PositionIff(plan.indexMoves, ix, j);
      LinesAfterArchive(o, plan, plan.indexMoves[j], Written(o, plan, d, k - 1), ix);
      LinesAfterIndex(o, plan, plan.indexMoves[j], Written(o, plan, d, k - 1), ix);
    }
  }

  lemma PositionIff(moves: seq<Index>, ix: Index, j: nat)
    requires Distinct(moves) && j < |moves|
    ensures moves[j] == ix <==> Position(moves, ix) == j
  {}

  lemma WrittenNone(o: Options, plan: Plan, d: Disk)
    ensures Written(o, plan, d, 0) == d
  {}

  /** The session records a rewritten index still holds. */
  lemma SessionsRetained(o: Options, ids: set<string>, lines: seq<string>, s: Record)
    ensures s in SessionsIn(o, Retained(o, Sessions, ids, lines))
       <==> s in SessionsIn(o, lines) && !(s.sessionId.Text? && s.sessionId.text in ids)
  {
    hide SessionsIn, Retained;
    SessionsMembers(o, lines, s);
    SessionsMembers(o, Retained(o, Sessions, ids, lines), s);
    forall raw ensures raw in Retained(o, Sessions, ids, lines) <==> raw in lines && !Chosen(o, Sessions, ids, raw) {
      LinesKept(o, Sessions, ids, lines, raw);
    }
  }

  lemma ColdSessions(o: Options, lines: seq<string>)
    ensures forall s :: s in Cold(o, SessionsIn(o, lines)) <==> s in SessionsIn(o, lines) && IsCold(o, s)
    ensures forall id :: id in SessionIds(o, lines)
                    <==> exists s :: s in SessionsIn(o, lines) && IsCold(o, s) && IdText(s.sessionId) == id
  {
    hide SessionsIn, Cold;
    forall s ensures s in Cold(o, SessionsIn(o, lines)) <==> s in SessionsIn(o, lines) && IsCold(o, s) {
      ColdMembers(o, SessionsIn(o, lines), s);
    }
  }

  /** Every cold session's id is a string, as the writer of the index makes it. */
  ghost predicate ColdStringIds(o: Options, lines: seq<string>) {
    forall s | s in SessionsIn(o, lines) && IsCold(o, s) :: s.sessionId.Text?
  }

  lemma ColdStringIsChosen(o: Options, lines: seq<string>)
    ensures forall s | s in SessionsIn(o, lines) && IsCold(o, s) && s.sessionId.Text? ::
              s.sessionId.text in SessionIds(o, lines)
  {
    ColdSessions(o, lines);
  }

  lemma NoneLeftIff(o: Options, lines: seq<string>)
    ensures SessionIds(o, Retained(o, Sessions, SessionIds(o, lines), lines)) == {} <==> ColdStringIds(o, lines)
  {
    hide SessionsIn, Cold, Retained, SessionIds, IsCold;
    var ids := SessionIds(o, lines);
    var rest := Retained(o, Sessions, ids, lines);
    ColdSessions(o, lines);
    ColdSessions(o, rest);
    forall s
      ensures s in SessionsIn(o, rest)
              <==> s in SessionsIn(o, lines) && !(s.sessionId.Text? && s.sessionId.text in ids)
    {
      SessionsRetained(o, ids, lines, s);
    }
    if ColdStringIds(o, lines) {
      forall id ensures id !in SessionIds(o, rest) {
        ColdStringIsChosen(o, lines);
      }
    } else {
      var s :| s in SessionsIn(o, lines) && IsCold(o, s) && !s.sessionId.Text?;
      assert IdText(s.sessionId) in SessionIds(o, rest);
    }
  }

  lemma ColdHasId(o: Options, lines: seq<string>)
    ensures Cold(o, SessionsIn(o, lines)) == [] || exists id :: id in SessionIds(o, lines)
  {
    hide SessionsIn, Cold;
    var cold := Cold(o, SessionsIn(o, lines));
    Sorting.FirstIn(cold);
    assert forall s | s in cold :: IdText(s.sessionId) in SessionIds(o, lines);
  }

  lemma NoHomes(o: Options, lines: seq<string>, files: Files)
    requires SessionIds(o, lines) == {}
    ensures RunIds(o, lines) == {} && Homes(o, lines, files) == map[]
  {
    hide SessionsIn, HotRuns;
    hide Cold;
    ColdHasId(o, lines);
    assert Home(o, [], Live(Trace, "")).None?;
  }

  /** With no session to archive a plan does nothing. */
  lemma EmptyPlan(o: Options, d: Disk, plan: Plan)
    requires Plans(o, d, plan) && plan.sessionIds == {}
    ensures plan.runIds == {} && plan.moves == [] && plan.indexMoves == []
    ensures Applied(o, plan, d) == d
  {
    hide SessionIds, RunIds, Homes;
    NoHomes(o, Lines(d.index, Sessions), d.files);
    FirstMovesOf(plan.moves);
    Sorting.FirstIn(plan.moves);
    assert Moved(d.files, map[], {}) == d.files;
  }

  function AllMoved(d: Disk, plan: Plan): Disk
    requires Movable(plan, d)
  {
    d.(files := Moved(d.files, FirstMoves(plan.moves), FirstMoves(plan.moves).Keys))
  }

  lemma PlanShape(o: Options, d: Disk, plan: Plan)
    requires Plans(o, d, plan)
    ensures Distinct(plan.indexMoves)
    ensures plan.sessionIds != {} ==> plan.indexMoves != [] && plan.indexMoves[0] == Sessions
    ensures plan.sessionIds == {} ==> plan.indexMoves == []
    ensures Position(plan.indexMoves, Sessions) == 0
    ensures |plan.indexMoves| == 2 ==> Position(plan.indexMoves, Runs) == 1
    ensures |plan.indexMoves| <= 2
  {
    FirstMovesOf(plan.moves);
    NoLinesNoIds(o, d);
    if plan.sessionIds == {} {
      EmptyPlanIds(o, d);
    }
    hide SessionIds, RunIds, FirstMoves;
  }

  lemma NoLinesNoIds(o: Options, d: Disk)
    ensures SessionIds(o, Lines(d.index, Sessions)) != {} ==> Sessions in d.index
  {}

  lemma EmptyPlanIds(o: Options, d: Disk)
    requires SessionIds(o, Lines(d.index, Sessions)) == {}
    ensures RunIds(o, Lines(d.index, Sessions)) == {}
  {
    NoHomes(o, Lines(d.index, Sessions), d.files);
  }

  lemma {:induction false} NoneChosen(o: Options, ix: Index, lines: seq<string>)
    ensures Archived(o, ix, {}, lines) == [] && Retained(o, ix, {}, lines) == lines
  {
    if lines != [] {
      NoneChosen(o, ix, lines[..|lines| - 1]);
    }
  }

  /** A plan leaves an index alone only when it has no id for it, or the index is not there. */
  lemma IdleIndex(o: Options, d: Disk, plan: Plan, ix: Index)
    requires Plans(o, d, plan) && ix !in plan.indexMoves
    ensures IdsOf(plan, ix) == {} || Lines(d.index, ix) == []
  {
    hide SessionIds, RunIds, FirstMoves, Homes;
  }

  lemma PositionFound(moves: seq<Index>, ix: Index)
    ensures ix in moves <==> Position(moves, ix) < |moves|
  {}

  /** What a whole plan leaves in each index and adds to its archive. */
  lemma LinesApplied(o: Options, d: Disk, plan: Plan, ix: Index)
    requires Plans(o, d, plan)
    ensures var e := Applied(o, plan, d);
            && Lines(e.index, ix) == Retained(o, ix, IdsOf(plan, ix), Lines(d.index, ix))
            && Lines(e.archive, ix) == Lines(d.archive, ix) + Archived(o, ix, IdsOf(plan, ix), Lines(d.index, ix))
  {
    hide FirstMoves, Retained, Archived, Written, Moved, Homes, SessionIds, RunIds, Position, IdsOf;
    PlanShape(o, d, plan);
    LinesWritten(o, plan, AllMoved(d, plan), 2 * |plan.indexMoves|, ix);
    PositionFound(plan.indexMoves, ix);
    if ix !in plan.indexMoves {
      IdleIndex(o, d, plan, ix);
      NoneChosen(o, ix, Lines(d.index, ix));
      DealtOne(o, ix, IdsOf(plan, ix), []);
    }
  }

  /** A second plan at the same time has nothing to do, exactly when every cold session's id is a
      string: another truthy id is planned for but its line is never taken out. */
  lemma SecondPlanEmptyIff(o: Options, d: Disk, plan: Plan, again: Plan)
    requires Plans(o, d, plan)
    requires Plans(o, Applied(o, plan, d), again)
    ensures again == Plan({}, {}, [], []) <==> ColdStringIds(o, Lines(d.index, Sessions))
  {
    hide Applied, Retained, SessionIds, RunIds, Homes, ColdStringIds;
    LinesApplied(o, d, plan, Sessions);
    NoneLeftIff(o, Lines(d.index, Sessions));
    if again.sessionIds == {} {
      EmptyPlan(o, Applied(o, plan, d), again);
    }
  }

  // ---------- Stopping part way ----------

  lemma {:induction false} SameWrites(o: Options, plan: Plan, again: Plan, d: Disk, k: nat)
    requires again.indexMoves == plan.indexMoves && again.sessionIds == plan.sessionIds && again.runIds == plan.runIds
    requires k <= 2 * |plan.indexMoves|
    ensures Written(o, again, d, k) == Written(o, plan, d, k)
  {
    hide WriteArchive, WriteIndex;
    if k > 0 {
      SameWrites(o, plan, again, d, k - 1);
      WrittenOnce(o, plan, d, k);
      WrittenOnce(o, again, d, k);
      SameWrite(o, plan, again, plan.indexMoves[(k - 1) / 2], Written(o, plan, d, k - 1));
    }
  }

  lemma SameWrite(o: Options, plan: Plan, again: Plan, ix: Index, d: Disk)
    requires again.sessionIds == plan.sessionIds && again.runIds == plan.runIds
    ensures WriteArchive(o, again, ix, d) == WriteArchive(o, plan, ix, d)
    ensures WriteIndex(o, again, ix, d) == WriteIndex(o, plan, ix, d)
  {}

  /** Stopped after any of the file moves, planning and applying again reaches the same disk. */
  lemma ResumedAfterMoves(o: Options, d: Disk, plan: Plan, done: set<Path>, again: Plan)
    requires Plans(o, d, plan)
    requires DestinationsFree(d.files, FirstMoves(plan.moves)) && done <= FirstMoves(plan.moves).Keys
    requires var stopped := d.(files := Moved(d.files, FirstMoves(plan.moves), done)); Plans(o, stopped, again)
    ensures var stopped := d.(files := Moved(d.files, FirstMoves(plan.moves), done));
            && DestinationsFree(stopped.files, FirstMoves(again.moves))
            && Applied(o, again, stopped) == Applied(o, plan, d)
  {
    hide SessionIds, RunIds, HomesOf, Moved, Written, FirstMoves;
    var lines := Lines(d.index, Sessions);
    var homes := FirstMoves(plan.moves);
    var stopped := d.(files := Moved(d.files, homes, done));
    PlannedAgain(o, lines, d.files, done);
    MovedInTwoParts(d.files, homes, done);
    assert FirstMoves(again.moves) == homes - done;
    assert AllMoved(stopped, again) == AllMoved(d, plan);
    SameWrites(o, plan, again, AllMoved(d, plan), 2 * |plan.indexMoves|);
  }

  /** The same files, and the same lines in each index, live and archived. */
  ghost predicate SameDisk(a: Disk, b: Disk) {
    && a.files == b.files
    && forall ix :: SameIndex(a, b, ix)
  }

  ghost predicate SameIndex(a: Disk, b: Disk, ix: Index) {
    Lines(a.index, ix) == Lines(b.index, ix) && Lines(a.archive, ix) == Lines(b.archive, ix)
  }

  /** Where the k-th stop leaves an index: untouched, archived, or archived and rewritten. */
  lemma LinesStopped(o: Options, d: Disk, plan: Plan, k: nat, ix: Index)
    requires Plans(o, d, plan) && k <= 2 * |plan.indexMoves|
    ensures var e := Written(o, plan, AllMoved(d, plan), k);
            var lines, done := Lines(d.index, ix), if ix.Sessions? then 0 else 2;
            && Lines(e.index, ix) == (if k >= done + 2 then Retained(o, ix, IdsOf(plan, ix), lines) else lines)
            && Lines(e.archive, ix)
            == Lines(d.archive, ix) + (if k >= done + 1 then Archived(o, ix, IdsOf(plan, ix), lines) else [])
  {
    hide FirstMoves, Retained, Archived, Written, Moved, Homes, SessionIds, RunIds, IdsOf, Lines, Position;
    PlanShape(o, d, plan);
    LinesWritten(o, plan, AllMoved(d, plan), k, ix);
    PositionFound(plan.indexMoves, ix);
  }

  /** What is left after archiving by some ids has nothing more for fewer. */
  lemma NothingMore(o: Options, ix: Index, ids: set<string>, fewer: set<string>, lines: seq<string>)
    requires fewer <= ids
    ensures var rest := Retained(o, ix, ids, lines);
            Archived(o, ix, fewer, rest) == [] && Retained(o, ix, fewer, rest) == rest
  {
    hide Retained, Archived;
    var rest := Retained(o, ix, ids, lines);
    forall raw ensures raw !in Archived(o, ix, fewer, rest) {
      LinesKept(o, ix, fewer, rest, raw);
      LinesKept(o, ix, ids, lines, raw);
    }
    Sorting.FirstIn(Archived(o, ix, fewer, rest));
    RetainedAll(o, ix, fewer, rest);
  }

  /** Fewer ids archive fewer lines, or the same. */
  lemma {:induction false} FewerArchived(o: Options, ix: Index, ids: set<string>, fewer: set<string>,
                                         lines: seq<string>)
    requires fewer <= ids
    ensures |Archived(o, ix, fewer, lines)| <= |Archived(o, ix, ids, lines)|
    ensures |Archived(o, ix, fewer, lines)| == |Archived(o, ix, ids, lines)| ==>
              Archived(o, ix, fewer, lines) == Archived(o, ix, ids, lines)
              && Retained(o, ix, fewer, lines) == Retained(o, ix, ids, lines)
  {
    hide Archived, Retained;
    DealtOne(o, ix, ids, lines);
    DealtOne(o, ix, fewer, lines);
    if lines != [] {
      FewerArchived(o, ix, ids, fewer, lines[..|lines| - 1]);
    }
  }

  /** The plan for what a rewritten session index still holds asks for nothing new. */
  lemma LessLeft(o: Options, lines: seq<string>)
    ensures var rest := Retained(o, Sessions, SessionIds(o, lines), lines);
            && SessionIds(o, rest) <= SessionIds(o, lines) && RunIds(o, rest) <= RunIds(o, lines)
            && forall s | s in Cold(o, SessionsIn(o, rest)) :: s in Cold(o, SessionsIn(o, lines))
  {
    hide SessionsIn, Cold, Retained, IsCold;
    var ids := SessionIds(o, lines);
    var rest := Retained(o, Sessions, ids, lines);
    ColdSessions(o, lines);
    ColdSessions(o, rest);
    forall s ensures s in SessionsIn(o, rest)
                <==> s in SessionsIn(o, lines) && !(s.sessionId.Text? && s.sessionId.text in ids)
    {
      SessionsRetained(o, ids, lines, s);
    }
    assert SessionIds(o, rest) <= ids;
    forall run | run in HotRuns(o, lines) ensures run in HotRuns(o, rest) {
      var s :| s in SessionsIn(o, lines) && IdText(s.sessionId) !in ids && NamesRun(s) && s.runId.text == run;
      assert s in SessionsIn(o, rest);
    }
  }

  lemma NoNewHomes(o: Options, lines: seq<string>, files: Files)
    requires Homes(o, lines, files) == map[]
    ensures Homes(o, Retained(o, Sessions, SessionIds(o, lines), lines), files) == map[]
  {
    hide SessionsIn, Cold, Retained, Home, RunIds, SessionIds;
    var rest := Retained(o, Sessions, SessionIds(o, lines), lines);
    LessLeft(o, lines);
    forall p ensures p !in Homes(o, rest, files) {
      HomeClaimed(o, Cold(o, SessionsIn(o, rest)), p);
      HomeClaimed(o, Cold(o, SessionsIn(o, lines)), p);
      assert p !in Homes(o, lines, files);
    }
  }

  lemma AppliedFiles(o: Options, d: Disk, plan: Plan)
    requires Movable(plan, d)
    ensures Applied(o, plan, d).files == AllMoved(d, plan).files
  {
    hide Written, Moved, Movable, FirstMoves;
    NoLineIsLost(o, plan, AllMoved(d, plan), 2 * |plan.indexMoves|, Sessions);
  }

  /** No file is left to move once all of a plan's have moved, whatever writes were made since. */
  lemma NoMovesAgain(o: Options, d: Disk, plan: Plan, k: nat, again: Plan)
    requires Plans(o, d, plan) && k <= 2 * |plan.indexMoves|
    requires Plans(o, Written(o, plan, AllMoved(d, plan), k), again)
    ensures FirstMoves(again.moves) == map[]
    ensures Written(o, plan, AllMoved(d, plan), k).files == AllMoved(d, plan).files
  {
    hide Written, Retained, Archived, HomesOf, SessionIds, RunIds, FirstMoves, Moved;
    var lines := Lines(d.index, Sessions);
    PlannedAgain(o, lines, d.files, FirstMoves(plan.moves).Keys);
    assert Homes(o, lines, AllMoved(d, plan).files) == map[];
    NoNewHomes(o, lines, AllMoved(d, plan).files);
    NoLineIsLost(o, plan, AllMoved(d, plan), k, Sessions);
    LinesStopped(o, d, plan, k, Sessions);
  }

  lemma FilesResumed(o: Options, d: Disk, plan: Plan, k: nat, again: Plan)
    requires Plans(o, d, plan) && k <= 2 * |plan.indexMoves|
    requires Plans(o, Written(o, plan, AllMoved(d, plan), k), again)
    ensures Applied(o, again, Written(o, plan, AllMoved(d, plan), k)).files == Applied(o, plan, d).files
  {
    hide Written, Homes, SessionIds, RunIds, FirstMoves, Moved, Applied, Movable;
    var stopped := Written(o, plan, AllMoved(d, plan), k);
    NoMovesAgain(o, d, plan, k, again);
    AppliedFiles(o, d, plan);
    AppliedFiles(o, stopped, again);
    NoneMovedAgain(stopped, again);
  }

  lemma NoneMovedAgain(d: Disk, plan: Plan)
    requires Movable(plan, d) && FirstMoves(plan.moves) == map[]
    ensures AllMoved(d, plan).files == d.files
  {
    hide FirstMoves;
    var now := AllMoved(d, plan).files;
    assert now.Keys == d.files.Keys;
    assert forall p | p in d.files :: now[p] == d.files[p];
  }

  /** Where a stop after k of the index writes does no harm. */
  ghost predicate Harmless(o: Options, plan: Plan, d: Disk, k: nat) {
    var lines, runs := Lines(d.index, Sessions), Lines(d.index, Runs);
    && (k == 1 ==> Archived(o, Sessions, plan.sessionIds, lines) == [])
    && (k == 2 ==>
          Archived(o, Runs, RunIds(o, Retained(o, Sessions, plan.sessionIds, lines)), runs)
          == Archived(o, Runs, plan.runIds, runs))
    && (k == 3 ==> Archived(o, Runs, plan.runIds, runs) == [])
  }

  /** Stopped after k of the index writes, planning and applying again reaches the same disk exactly
      when the stop is harmless. Between the two writes of an index that has lines to archive it
      never is: they are archived twice. Between the two indexes it is only if what is left of the
      session index still asks for the same run lines, which without coerced ids means there are none. */
  lemma ResumedAfterWritesIff(o: Options, d: Disk, plan: Plan, k: nat, again: Plan)
    requires Plans(o, d, plan) && k <= 2 * |plan.indexMoves|
    requires Plans(o, Written(o, plan, AllMoved(d, plan), k), again)
    ensures SameDisk(Applied(o, again, Written(o, plan, AllMoved(d, plan), k)), Applied(o, plan, d))
       <==> Harmless(o, plan, d, k)
  {
    hide Written, Retained, Archived, SessionIds, RunIds, Homes, FirstMoves, Applied, SameDisk, Lines, DestinationsFree;
    FilesResumed(o, d, plan, k, again);
    SessionsResumed(o, d, plan, k, again);
    RunsResumed(o, d, plan, k, again);
    SameWhen(Applied(o, again, Written(o, plan, AllMoved(d, plan), k)), Applied(o, plan, d));
  }

  lemma SameWhen(a: Disk, b: Disk)
    requires a.files == b.files
    ensures SameDisk(a, b) <==> SameIndex(a, b, Sessions) && SameIndex(a, b, Runs)
  {
    if SameIndex(a, b, Sessions) && SameIndex(a, b, Runs) {
      forall ix ensures SameIndex(a, b, ix) {
        match ix
        case Sessions =>
        case Runs =>
      }
    }
  }

  lemma SessionsResumed(o: Options, d: Disk, plan: Plan, k: nat, again: Plan)
    requires Plans(o, d, plan) && k <= 2 * |plan.indexMoves|
    requires Plans(o, Written(o, plan, AllMoved(d, plan), k), again)
    ensures SameIndex(Applied(o, again, Written(o, plan, AllMoved(d, plan), k)), Applied(o, plan, d), Sessions)
       <==> (k == 1 ==> Archived(o, Sessions, plan.sessionIds, Lines(d.index, Sessions)) == [])
  {
    hide Written, Retained, Archived, SessionIds, RunIds, FirstMoves, Moved, Applied, Homes, Lines;
    var lines := Lines(d.index, Sessions);
    var archived := Archived(o, Sessions, plan.sessionIds, lines);
    var kept := Lines(d.archive, Sessions);
    LinesStopped(o, d, plan, k, Sessions);
    LinesApplied(o, d, plan, Sessions);
    LinesApplied(o, Written(o, plan, AllMoved(d, plan), k), again, Sessions);
    if k == 0 {
      assert kept + [] == kept;
    } else if k == 1 {
      assert |kept + archived + archived| == |kept + archived| + |archived|;
      assert archived == [] ==> kept + archived + archived == kept + archived;
    } else {
      LessLeft(o, lines);
      NothingMore(o, Sessions, plan.sessionIds, again.sessionIds, lines);
      assert kept + archived + [] == kept + archived;
    }
  }

  lemma RunsResumed(o: Options, d: Disk, plan: Plan, k: nat, again: Plan)
    requires Plans(o, d, plan) && k <= 2 * |plan.indexMoves|
    requires Plans(o, Written(o, plan, AllMoved(d, plan), k), again)
    ensures var runs := Lines(d.index, Runs);
            var left := RunIds(o, Retained(o, Sessions, plan.sessionIds, Lines(d.index, Sessions)));
            SameIndex(Applied(o, again, Written(o, plan, AllMoved(d, plan), k)), Applied(o, plan, d), Runs)
            <==> (k == 2 ==> Archived(o, Runs, left, runs) == Archived(o, Runs, plan.runIds, runs))
                 && (k == 3 ==> Archived(o, Runs, plan.runIds, runs) == [])
  {
    hide Written, Retained, Archived, SessionIds, RunIds, FirstMoves, Moved, Applied, Homes, Lines;
    var lines, runs := Lines(d.index, Sessions), Lines(d.index, Runs);
    var left := RunIds(o, Retained(o, Sessions, plan.sessionIds, lines));
    LinesStopped(o, d, plan, k, Sessions);
    LinesStopped(o, d, plan, k, Runs);
    LinesApplied(o, d, plan, Runs);
    LinesApplied(o, Written(o, plan, AllMoved(d, plan), k), again, Runs);
    LessLeft(o, lines);
    RunsResumedAt(o, plan.runIds, again.runIds, Lines(d.archive, Runs), runs, k);
  }

  /** The arithmetic of it: what two passes over the run lines leave. */
  lemma RunsResumedAt(o: Options, ids: set<string>, fewer: set<string>, kept: seq<string>, runs: seq<string>, k: nat)
    requires fewer <= ids && (k < 2 ==> fewer == ids)
    ensures var at := if k >= 4 then Retained(o, Runs, ids, runs) else runs;
            var had := kept + (if k >= 3 then Archived(o, Runs, ids, runs) else []);
            (Retained(o, Runs, fewer, at) == Retained(o, Runs, ids, runs)
             && had + Archived(o, Runs, fewer, at) == kept + Archived(o, Runs, ids, runs))
            <==> (k == 2 ==> Archived(o, Runs, fewer, runs) == Archived(o, Runs, ids, runs))
                 && (k == 3 ==> Archived(o, Runs, ids, runs) == [])
  {
    hide Retained, Archived;
    var all, some := Archived(o, Runs, ids, runs), Archived(o, Runs, fewer, runs);
    FewerArchived(o, Runs, ids, fewer, runs);
    RetainedAll(o, Runs, ids, runs);
    RetainedAll(o, Runs, fewer, runs);
    NothingMore(o, Runs, ids, fewer, runs);
    assert kept + [] == kept && kept + all + [] == kept + all;
    assert (kept + some)[|kept|..] == some && (kept + all)[|kept|..] == all;
    assert |kept + all + some| == |kept| + |all| + |some|;
  }

  // ---------- Indexes of one or two lines ----------

  /** A parser that knows these lines, eight days after the epoch began. */
  function Parsing(records: map<string, Record>): Options {
    Options(691_200_000, 7, _ => "1970-01", raw => if raw in records then Some(records[raw]) else None)
  }

  lemma OneLineSessions(o: Options, line: string, s: Record)
    requires o.parse(line) == Some(s) && Truthy(s.sessionId) && IsCold(o, s)
    ensures Cold(o, SessionsIn(o, [line])) == [s] && SessionsIn(o, [line]) == [s]
    ensures SessionIds(o, [line]) == {IdText(s.sessionId)}
    ensures RunIds(o, [line]) == if NamesRun(s) then {s.runId.text} else {}
  {
    var lines, sessions := [line], [s];
    assert lines[..0] == [] && SessionsIn(o, []) == [];
    assert SessionsIn(o, lines) == sessions;
    assert sessions[..0] == [] && Cold(o, []) == [];
    assert Cold(o, sessions) == sessions;
  }

  lemma OneLineDealt(o: Options, ix: Index, ids: set<string>, line: string)
    ensures Archived(o, ix, ids, [line]) == if Chosen(o, ix, ids, line) then [line] else []
    ensures Retained(o, ix, ids, [line]) == if Chosen(o, ix, ids, line) then [] else [line]
  {
    hide Chosen;
    var lines := [line];
    assert lines[..0] == [];
    DealtOne(o, ix, ids, lines);
    DealtOne(o, ix, ids, lines[..0]);
  }

  /** The plan on a disk without files to move. */
  lemma PlansIndexes(o: Options, d: Disk, plan: Plan)
    requires d.files == map[] && plan.moves == []
    requires plan.sessionIds == SessionIds(o, Lines(d.index, Sessions))
             && plan.runIds == RunIds(o, Lines(d.index, Sessions))
    requires plan.indexMoves == (if plan.sessionIds != {} && Sessions in d.index then [Sessions] else [])
                             + (if plan.runIds != {} && Runs in d.index then [Runs] else [])
    ensures Plans(o, d, plan) && AllMoved(d, plan) == d
  {
    hide SessionIds, RunIds, Home;
    assert Homes(o, Lines(d.index, Sessions), map[]) == map[];
    assert FirstMoves([]) == map[] && Destinations(map[]);
    NoneMovedAgain(d, plan);
  }

  function OneSession(ids: set<string>): Plan {
    Plan(ids, {}, [], [Sessions])
  }

  function NumberLine(): string {
    "{\"sessionId\":5,\"startTime\":0}"
  }

  /** One cold session whose id is the number 5. */
  function NumberParser(): Options {
    Parsing(map[NumberLine() := Record(Coerced("5"), Missing, Some(0))])
  }

  function OneIndex(): Disk {
    Disk(map[], map[Sessions := [NumberLine()]], map[])
  }

  lemma NumberPlanned()
    ensures SessionIds(NumberParser(), [NumberLine()]) == {"5"} && RunIds(NumberParser(), [NumberLine()]) == {}
    ensures Archived(NumberParser(), Sessions, {"5"}, [NumberLine()]) == []
    ensures Retained(NumberParser(), Sessions, {"5"}, [NumberLine()]) == [NumberLine()]
  {
    hide NumberLine;
    OneLineSessions(NumberParser(), NumberLine(), Record(Coerced("5"), Missing, Some(0)));
    OneLineDealt(NumberParser(), Sessions, {"5"}, NumberLine());
    hide SessionIds, RunIds, Archived, Retained;
  }

  /** It happens: the id is planned for again and again, and every plan leaves the disk as it was. */
  lemma SecondPlanRepeats()
    ensures var o, d, plan := NumberParser(), OneIndex(), OneSession({"5"});
            Plans(o, d, plan) && Applied(o, plan, d) == d
  {
    hide SessionIds, RunIds, Retained, Archived, NumberParser, NumberLine, AllMoved;
    var o, d, plan := NumberParser(), OneIndex(), OneSession({"5"});
    NumberPlanned();
    PlansIndexes(o, d, plan);
    hide Movable;
    AppliedIs(o, d, plan);
    assert d.index[Sessions := [NumberLine()]] == d.index;
  }

  /** What a plan of one index move comes to. */
  lemma AppliedIs(o: Options, d: Disk, plan: Plan)
    requires Movable(plan, d) && AllMoved(d, plan) == d && plan.indexMoves == [Sessions]
    ensures Applied(o, plan, d) == WriteIndex(o, plan, Sessions, WriteArchive(o, plan, Sessions, d))
  {
    hide WriteArchive, WriteIndex, Moved, FirstMoves;
    WrittenNone(o, plan, d);
    WrittenOnce(o, plan, d, 1);
    WrittenOnce(o, plan, d, 2);
    hide Written;
  }

  function SessionLine(): string {
    "{\"sessionId\":\"a\",\"runId\":\"r\",\"startTime\":0}"
  }

  function RunLine(): string {
    "{\"runId\":\"r\"}"
  }

  /** One cold session with a run, one line in each index. */
  function StringParser(): Options {
    Parsing(map[SessionLine() := Record(Text("a"), Text("r"), Some(0)), RunLine() := Record(Missing, Text("r"), None)])
  }

  lemma LinesParsed()
    ensures StringParser().parse(SessionLine()) == Some(Record(Text("a"), Text("r"), Some(0)))
    ensures StringParser().parse(RunLine()) == Some(Record(Missing, Text("r"), None))
    ensures Cutoff(StringParser()) > 0
  {
    assert |SessionLine()| != |RunLine()|;
    hide SessionLine, RunLine;
  }

  function TwoIndexes(): Disk {
    Disk(map[], map[Sessions := [SessionLine()], Runs := [RunLine()]], map[])
  }

  function TwoMoves(): Plan {
    Plan({"a"}, {"r"}, [], [Sessions, Runs])
  }

  lemma TwoIndexesPlanned()
    ensures Plans(StringParser(), TwoIndexes(), TwoMoves()) && AllMoved(TwoIndexes(), TwoMoves()) == TwoIndexes()
  {
    hide SessionIds, RunIds, Plans, StringParser, SessionLine, RunLine;
    LinesParsed();
    OneLineSessions(StringParser(), SessionLine(), Record(Text("a"), Text("r"), Some(0)));
    PlansIndexes(StringParser(), TwoIndexes(), TwoMoves());
  }

  lemma TwoIndexesDealt()
    ensures var o := StringParser();
            && Archived(o, Sessions, {"a"}, [SessionLine()]) == [SessionLine()]
            && Retained(o, Sessions, {"a"}, [SessionLine()]) == []
            && Archived(o, Runs, {"r"}, [RunLine()]) == [RunLine()] && Archived(o, Runs, {}, [RunLine()]) == []
            && SessionIds(o, []) == {} && RunIds(o, []) == {}
  {
    hide StringParser, SessionLine, RunLine;
    LinesParsed();
    OneLineDealt(StringParser(), Sessions, {"a"}, SessionLine());
    OneLineDealt(StringParser(), Runs, {"r"}, RunLine());
    NoneChosen(StringParser(), Runs, [RunLine()]);
    hide Archived, Retained;
  }

  /** The harmful stops happen, with string ids and one line in each index: after the first write
      the session line is archived twice, after the second the run line stays where it is for good,
      after the third it stays in both places. */
  lemma ResumingFails(again: Plan, k: nat)
    ensures var o, d, plan := StringParser(), TwoIndexes(), TwoMoves();
            && Plans(o, d, plan)
            && (k <= 4 && Plans(o, Written(o, plan, AllMoved(d, plan), k), again) ==>
                  (SameDisk(Applied(o, again, Written(o, plan, AllMoved(d, plan), k)), Applied(o, plan, d))
                   <==> k == 0 || k == 4))
  {
    var o, d, plan := StringParser(), TwoIndexes(), TwoMoves();
    TwoIndexesPlanned();
    TwoIndexesDealt();
    hide SessionIds, RunIds, Plans, Retained, Archived, Written, SameDisk, Applied, AllMoved, StringParser,
         SessionLine, RunLine;
    if k <= 4 && Plans(o, Written(o, plan, AllMoved(d, plan), k), again) {
      ResumedAfterWritesIff(o, d, plan, k, again);
    }
  }

  /** After those stops there is a plan: the same one, and the empty one. */
  lemma ResumingIsPlanned()
    ensures var o, d, plan := StringParser(), TwoIndexes(), TwoMoves();
            && AllMoved(d, plan) == d
            && Plans(o, Written(o, plan, d, 1), plan) && Plans(o, Written(o, plan, d, 2), Plan({}, {}, [], []))
  {
    hide StringParser, SessionIds, RunIds, AllMoved, Plans, Written, Lines;
    var o, d, plan := StringParser(), TwoIndexes(), TwoMoves();
    TwoIndexesPlanned();
    StoppedAt(o, d, plan);
    IdsAsked();
    PlansIndexes(o, Written(o, plan, d, 1), plan);
    PlansIndexes(o, Written(o, plan, d, 2), Plan({}, {}, [], []));
  }

  lemma IdsAsked()
    ensures SessionIds(StringParser(), [SessionLine()]) == {"a"} && RunIds(StringParser(), [SessionLine()]) == {"r"}
    ensures SessionIds(StringParser(), []) == {} && RunIds(StringParser(), []) == {}
  {
    hide StringParser, SessionLine;
    LinesParsed();
    OneLineSessions(StringParser(), SessionLine(), Record(Text("a"), Text("r"), Some(0)));
  }

  /** The indexes after the first write, and after the second. */
  lemma StoppedAt(o: Options, d: Disk, plan: Plan)
    requires o == StringParser() && d == TwoIndexes() && plan == TwoMoves()
    ensures AllMoved(d, plan) == d
    ensures var once, twice := Written(o, plan, d, 1), Written(o, plan, d, 2);
            && once.files == map[] && once.index.Keys == {Sessions, Runs}
            && Lines(once.index, Sessions) == [SessionLine()]
            && twice.files == map[] && twice.index.Keys == {Sessions, Runs}
            && Lines(twice.index, Sessions) == []
  {
    hide StringParser, SessionLine, RunLine, SessionIds, RunIds, Archived, Retained, AllMoved, Plans;
    TwoIndexesPlanned();
    TwoIndexesDealt();
    WrittenNone(o, plan, d);
    WrittenOnce(o, plan, d, 1);
    WrittenOnce(o, plan, d, 2);
    hide Written;
  }

  // ---------- What is archived belongs to cold sessions ----------

  /** A run is archived exactly when a cold session names it and every line that names it and stays
      in the session index has an archived id that is not a string; with string ids, when no line
      that stays names it. */
  lemma RunArchivedIff(o: Options, lines: seq<string>, run: string)
    ensures var rest := SessionsIn(o, Retained(o, Sessions, SessionIds(o, lines), lines));
            && (run in RunIds(o, lines)
                <==> && run != ""
                     && (exists s :: s in SessionsIn(o, lines) && IsCold(o, s) && s.runId == Text(run))
                     && (forall s | s in rest && s.runId == Text(run) :: IdText(s.sessionId) in SessionIds(o, lines)))
            && forall s | s in rest && IdText(s.sessionId) in SessionIds(o, lines) :: s.sessionId.Coerced?
  {
    hide SessionsIn, Cold, Retained, SessionIds, IsCold;
    ColdSessions(o, lines);
    forall s ensures s in SessionsIn(o, Retained(o, Sessions, SessionIds(o, lines), lines))
                <==> s in SessionsIn(o, lines) && !(s.sessionId.Text? && s.sessionId.text in SessionIds(o, lines))
    {
      SessionsRetained(o, SessionIds(o, lines), lines, s);
    }
    forall s ensures s in SessionsIn(o, lines) ==> Truthy(s.sessionId) {
      SessionsMembers(o, lines, s);
    }
  }

  predicate Extends(id: string, other: string) {
    other + "-T" <= id
  }

  /** Two ids can claim one screenshot exactly when one of them starts with the other and "-T". */
  lemma ScreenshotSharedIff(a: string, b: string)
    ensures (exists name: string :: IsShotOf(a, name) && IsShotOf(b, name))
            <==> a == b || Extends(b, a) || Extends(a, b)
  {
    if name: string :| IsShotOf(a, name) && IsShotOf(b, name) {
      SharedPrefix(a, b, name);
    }
    if Extends(b, a) {
      assert IsShotOf(a, b + "-T") && IsShotOf(b, b + "-T");
    } else if a == b || Extends(a, b) {
      assert IsShotOf(a, a + "-T") && IsShotOf(b, a + "-T");
    }
  }

  lemma SharedPrefix(a: string, b: string, name: string)
    requires IsShotOf(a, name) && IsShotOf(b, name)
    ensures a == b || Extends(b, a) || Extends(a, b)
    decreases |a|
  {
    if |a| > |b| {
      SharedPrefix(b, a, name);
    } else if |a| == |b| {
      assert a == name[..|a|] && b == name[..|b|];
    } else {
      assert (a + "-T")[|a| + 1] == 'T' && (a + "-T")[|a|] == '-';
      assert name[|a| + 1] == 'T' && (b + "-T")[|b|] == '-';
      assert b == name[..|b|] && a + "-T" == name[..|a| + 2];
    }
  }

  /** Line i of the session index is a session's, and was started before the hot days began. */
  ghost predicate ColdAt(o: Options, lines: seq<string>, i: nat)
    requires i < |lines|
  {
    && o.parse(lines[i]).Some?
    && var s := o.parse(lines[i]).value;
       && (s.sessionId.Text? ==> s.sessionId.text != "") && !s.sessionId.Missing?
       && s.startTime.Some? && s.startTime.value < o.nowMs - o.hotDays * 86_400_000
  }

  /** And it claims a file: a trace or log by its id, a screenshot by its id and "-T", the file of
      its run. */
  ghost predicate ColdClaim(o: Options, lines: seq<string>, i: nat, p: Path)
    requires i < |lines|
  {
    && ColdAt(o, lines, i) && p.Live?
    && var s := o.parse(lines[i]).value;
       match p.kind
       case RunFile => s.runId == Text(p.name)
       case Screenshot => s.sessionId.text + "-T" <= p.name
       case _ => s.sessionId.text == p.name
  }

  lemma {:induction false} ColdLines(o: Options, lines: seq<string>, s: Record)
    ensures s in Cold(o, SessionsIn(o, lines))
       <==> exists i: nat :: i < |lines| && ColdAt(o, lines, i) && o.parse(lines[i]).value == s
  {
    ColdMembers(o, SessionsIn(o, lines), s);
    SessionsMembers(o, lines, s);
    if s in Cold(o, SessionsIn(o, lines)) {
      var raw :| raw in lines && o.parse(raw) == Some(s);
      var i: nat :| i < |lines| && lines[i] == raw;
      assert ColdAt(o, lines, i);
    }
  }

  /** The archived ids are those of the cold lines, as strings. */
  lemma IdsAre(o: Options, lines: seq<string>, id: string)
    ensures id in SessionIds(o, lines)
       <==> exists i: nat :: i < |lines| && ColdAt(o, lines, i) && o.parse(lines[i]).value.sessionId.text == id
  {
    hide Cold, SessionsIn;
    if id in SessionIds(o, lines) {
      var s :| s in Cold(o, SessionsIn(o, lines)) && IdText(s.sessionId) == id;
      ColdLines(o, lines, s);
      var i: nat :| i < |lines| && ColdAt(o, lines, i) && o.parse(lines[i]).value == s;
      ColdIdText(o, lines, i);
    }
    if i: nat :| i < |lines| && ColdAt(o, lines, i) && o.parse(lines[i]).value.sessionId.text == id {
      ColdLines(o, lines, o.parse(lines[i]).value);
      ColdIdText(o, lines, i);
    }
  }

  lemma ColdIdText(o: Options, lines: seq<string>, i: nat)
    requires i < |lines| && ColdAt(o, lines, i)
    ensures var id := o.parse(lines[i]).value.sessionId; !id.Missing? && IdText(id) == id.text
  {}

  ghost predicate FirstClaims(o: Options, lines: seq<string>, i: nat, p: Path)
    requires i < |lines|
  {
    ColdClaim(o, lines, i, p) && forall j: nat | j < i :: !ColdClaim(o, lines, j, p)
  }

  /** Where line i sends file p. */
  ghost function HomeFrom(o: Options, lines: seq<string>, i: nat, p: Path): Path
    requires i < |lines| && ColdClaim(o, lines, i, p)
  {
    Stored(o.month(o.parse(lines[i]).value.startTime.value), p.kind, p.name)
  }

  lemma {:induction false} HomeIs(o: Options, lines: seq<string>, p: Path)
    ensures var home := Home(o, Cold(o, SessionsIn(o, lines)), p);
            && (home.None? <==> forall i: nat | i < |lines| :: !ColdClaim(o, lines, i, p))
            && forall i: nat | i < |lines| && FirstClaims(o, lines, i, p) :: home == Some(HomeFrom(o, lines, i, p))
  {
    if lines == [] {
      NoHome(o, p);
    } else {
      hide Home, Cold, SessionsIn, ColdClaim, FirstClaims, HomeFrom;
      var n := |lines| - 1;
      HomeIs(o, lines[..n], p);
      ClaimsBefore(o, lines, n, p);
      HomeNext(o, lines, p);
      FirstIsHome(o, lines, n, p);
    }
  }

  /** Line n claims first exactly when it claims and none before it does. */
  lemma FirstIsHome(o: Options, lines: seq<string>, n: nat, p: Path)
    requires n < |lines|
    ensures FirstClaims(o, lines, n, p)
       <==> ColdClaim(o, lines, n, p) && forall i: nat | i < n :: !ColdClaim(o, lines[..n], i, p)
    ensures ColdClaim(o, lines, n, p) ==>
              HomeFrom(o, lines, n, p)
              == Stored(o.month(o.parse(lines[n]).value.startTime.value), p.kind, p.name)
  {
    hide ColdClaim;
    ClaimsBefore(o, lines, n, p);
  }

  lemma NoHome(o: Options, p: Path)
    ensures Home(o, Cold(o, SessionsIn(o, [])), p).None?
  {}

  lemma ClaimsBefore(o: Options, lines: seq<string>, n: nat, p: Path)
    requires n <= |lines|
    ensures forall i: nat | i < n ::
              && (ColdClaim(o, lines[..n], i, p) <==> ColdClaim(o, lines, i, p))
              && (FirstClaims(o, lines[..n], i, p) <==> FirstClaims(o, lines, i, p))
              && (FirstClaims(o, lines, i, p) ==> HomeFrom(o, lines[..n], i, p) == HomeFrom(o, lines, i, p))
  {
    forall i: nat | i < n ensures ColdClaim(o, lines[..n], i, p) <==> ColdClaim(o, lines, i, p) {
      assert lines[..n][i] == lines[i];
    }
  }

  /** A line more gives a file a home only if it had none. */
  lemma HomeNext(o: Options, lines: seq<string>, p: Path)
    requires lines != []
    ensures var n := |lines| - 1;
            var before := Home(o, Cold(o, SessionsIn(o, lines[..n])), p);
            Home(o, Cold(o, SessionsIn(o, lines)), p)
            == if before.Some? then before
               else if ColdClaim(o, lines, n, p) then
                 Some(Stored(o.month(o.parse(lines[n]).value.startTime.value), p.kind, p.name))
               else None
  {
    var n := |lines| - 1;
    var front, record := SessionsIn(o, lines[..n]), o.parse(lines[n]);
    ColdIs(o, lines, n);
    if record.Some? && Truthy(record.value.sessionId) {
      var s := record.value;
      assert SessionsIn(o, lines) == front + [s];
      assert (front + [s])[..|front|] == front;
      var cold := Cold(o, front);
      if IsCold(o, s) {
        assert Cold(o, front + [s]) == cold + [s];
        assert (cold + [s])[..|cold|] == cold;
        ClaimIs(o, lines, n, p);
        assert Home(o, cold + [s], p)
            == if Home(o, cold, p).Some? then Home(o, cold, p)
               else if Claims(s, p) then Some(Destination(o, s, p)) else None;
      } else {
        assert Cold(o, front + [s]) == cold;
      }
    } else {
      assert SessionsIn(o, lines) == front;
    }
  }

  lemma ColdIs(o: Options, lines: seq<string>, i: nat)
    requires i < |lines|
    ensures ColdAt(o, lines, i)
       <==> o.parse(lines[i]).Some? && Truthy(o.parse(lines[i]).value.sessionId) && IsCold(o, o.parse(lines[i]).value)
  {}

  lemma ClaimIs(o: Options, lines: seq<string>, i: nat, p: Path)
    requires i < |lines| && ColdAt(o, lines, i)
    ensures ColdClaim(o, lines, i, p) <==> Claims(o.parse(lines[i]).value, p)
  {}

  /** A moved file goes to the month in which the first cold line that claims it was started. */
  lemma DestinationIs(o: Options, d: Disk, plan: Plan, p: Path) returns (i: nat)
    requires Plans(o, d, plan) && p in FirstMoves(plan.moves)
    ensures var lines := Lines(d.index, Sessions);
            && i < |lines| && ColdClaim(o, lines, i, p) && (forall j: nat | j < i :: !ColdClaim(o, lines, j, p))
            && FirstMoves(plan.moves)[p] == Stored(o.month(o.parse(lines[i]).value.startTime.value), p.kind, p.name)
  {
    hide ColdClaim, Home, Cold, SessionsIn, FirstMoves;
    var lines := Lines(d.index, Sessions);
    HomeIs(o, lines, p);
    i :| i < |lines| && ColdClaim(o, lines, i, p);
    i := FirstClaim(o, lines, i, p);
    assert FirstClaims(o, lines, i, p);
  }

  lemma {:induction false} FirstClaim(o: Options, lines: seq<string>, i: nat, p: Path) returns (k: nat)
    requires i < |lines| && ColdClaim(o, lines, i, p)
    ensures k < |lines| && ColdClaim(o, lines, k, p) && forall j: nat | j < k :: !ColdClaim(o, lines, j, p)
    decreases i
  {
    hide ColdClaim;
    if j: nat :| j < i && ColdClaim(o, lines, j, p) {
      k := FirstClaim(o, lines, j, p);
    } else {
      k := i;
    }
  }

  /** What a plan moves, by name. */
  ghost predicate Goes(plan: Plan, p: Path) {
    match p
    case Stored(_, _, _) => false
    case Live(kind, name) =>
      match kind
      case RunFile => name in plan.runIds
      case Screenshot => exists a :: a in plan.sessionIds && IsShotOf(a, name)
      case _ => name in plan.sessionIds
  }

  lemma FileMovesIff(o: Options, d: Disk, plan: Plan, p: Path)
    requires Plans(o, d, plan) && p in d.files
    ensures p in FirstMoves(plan.moves) <==> Goes(plan, p)
  {
    hide SessionsIn, Cold, Home, FirstMoves, IsShotOf;
    HomeClaimed(o, Cold(o, SessionsIn(o, Lines(d.index, Sessions))), p);
  }

  /** Of the files of a session that is still hot, a plan moves screenshots at most, and exactly
      those that an archived id claims too. */
  lemma HotFilesStayIff(o: Options, d: Disk, plan: Plan, hot: Record, p: Path)
    requires Plans(o, d, plan) && p in d.files
    requires hot in SessionsIn(o, Lines(d.index, Sessions)) && IdText(hot.sessionId) !in plan.sessionIds
    requires Claims(hot, p)
    ensures p in FirstMoves(plan.moves)
       <==> p.kind.Screenshot? && exists a :: a in plan.sessionIds && IsShotOf(a, p.name)
  {
    hide SessionsIn, Cold, FirstMoves, IsShotOf;
    FileMovesIff(o, d, plan, p);
  }

  /** By ids: some name of a hot session's screenshot is claimed exactly when an archived id
      extends the hot one or is extended by it. */
  lemma HotShotsStayIff(ids: set<string>, hot: string)
    requires hot !in ids
    ensures (exists name: string, a: string :: IsShotOf(hot, name) && a in ids && IsShotOf(a, name))
       <==> exists a :: a in ids && (Extends(hot, a) || Extends(a, hot))
  {
    hide IsShotOf, Extends;
    if name: string, a: string :| IsShotOf(hot, name) && a in ids && IsShotOf(a, name) {
      ScreenshotSharedIff(hot, a);
    }
    if a :| a in ids && (Extends(hot, a) || Extends(a, hot)) {
      ScreenshotSharedIff(hot, a);
    }
  }

  function ColdLine(): string {
    "{\"sessionId\":\"s\",\"startTime\":0}"
  }

  function HotLine(): string {
    "{\"sessionId\":\"s-T2\",\"startTime\":691200000}"
  }

  function HotRecord(): Record {
    Record(Text("s-T2"), Missing, Some(691_200_000))
  }

  /** A cold session s and a hot one, s-T2. */
  function PrefixParser(): Options {
    Parsing(map[ColdLine() := Record(Text("s"), Missing, Some(0)), HotLine() := HotRecord()])
  }

  /** The first turn's screenshot of the hot session. */
  function HotShot(): Path {
    Live(Screenshot, "s-T2-T1.jpg")
  }

  function PrefixDisk(): Disk {
    Disk(map[HotShot() := ""], map[Sessions := [ColdLine(), HotLine()]], map[])
  }

  function PrefixPlan(): Plan {
    Plan({"s"}, {}, [Move(HotShot(), Stored("1970-01", Screenshot, "s-T2-T1.jpg"))], [Sessions])
  }

  /** It happens: the hot session's screenshot goes with the cold session's. */
  lemma HotScreenshotMoves()
    ensures var o, d, plan := PrefixParser(), PrefixDisk(), PrefixPlan();
            && Plans(o, d, plan)
            && HotRecord() in SessionsIn(o, Lines(d.index, Sessions)) && Claims(HotRecord(), HotShot())
            && IdText(HotRecord().sessionId) !in plan.sessionIds && HotShot() in FirstMoves(plan.moves)
  {
    hide ColdLine, HotLine, PrefixParser, SessionIds, RunIds, SessionsIn, Cold, HotRuns, Parsing;
    var o, moves := PrefixParser(), PrefixPlan().moves;
    PrefixLines();
    PrefixHome(o);
    assert moves[..0] == [] && FirstMoves(moves[..0]) == map[];
    assert FirstMoves(moves) == map[HotShot() := moves[0].destination];
    assert "s-T" == "s-T2-T1.jpg"[..3] && "s-T2" + "-T" == "s-T2-T1.jpg"[..6];
    assert HotRecord() in [Record(Text("s"), Missing, Some(0)), HotRecord()];
    assert Homes(o, [ColdLine(), HotLine()], PrefixDisk().files) == FirstMoves(moves);
  }

  lemma PrefixLines()
    ensures var o, lines := PrefixParser(), [ColdLine(), HotLine()];
            && SessionsIn(o, lines) == [Record(Text("s"), Missing, Some(0)), HotRecord()]
            && Cold(o, SessionsIn(o, lines)) == [Record(Text("s"), Missing, Some(0))]
            && SessionIds(o, lines) == {"s"} && RunIds(o, lines) == {} && o.month(0) == "1970-01"
  {
    assert |ColdLine()| != |HotLine()|;
    hide ColdLine, HotLine, SessionsIn, Cold, SessionIds, RunIds;
    var o := PrefixParser();
    var cold, hot := Record(Text("s"), Missing, Some(0)), HotRecord();
    assert o.parse(ColdLine()) == Some(cold) && o.parse(HotLine()) == Some(hot);
    ColdAndHot(o, ColdLine(), HotLine(), cold, hot);
  }

  lemma ColdAndHot(o: Options, first: string, second: string, cold: Record, hot: Record)
    requires o.parse(first) == Some(cold) && Truthy(cold.sessionId) && IsCold(o, cold) && cold.runId.Missing?
    requires o.parse(second) == Some(hot) && Truthy(hot.sessionId) && !IsCold(o, hot)
    ensures SessionsIn(o, [first, second]) == [cold, hot] && Cold(o, [cold, hot]) == [cold]
    ensures SessionIds(o, [first, second]) == {IdText(cold.sessionId)} && RunIds(o, [first, second]) == {}
  {
    hide IsCold, Truthy, HotRuns;
    var lines, sessions := [first, second], [cold, hot];
    assert lines[..1] == [first] && [first][..0] == [] && SessionsIn(o, []) == [];
    assert SessionsIn(o, [first]) == [cold];
    assert SessionsIn(o, lines) == sessions;
    assert sessions[..1] == [cold] && [cold][..0] == [] && Cold(o, []) == [];
    assert Cold(o, [cold]) == [cold];
    assert Cold(o, sessions) == [cold];
  }

  lemma PrefixHome(o: Options)
    requires o.month(0) == "1970-01"
    ensures var cold := [Record(Text("s"), Missing, Some(0))];
            Home(o, cold, HotShot()) == Some(Stored("1970-01", Screenshot, "s-T2-T1.jpg"))
  {
    var cold := [Record(Text("s"), Missing, Some(0))];
    assert cold[..0] == [];
    assert "s" + "-T" == "s-T2-T1.jpg"[..3];
  }

  // ---------- The program ----------

  /** homes, extended by what session s claims among ps. */
  ghost function Extended(o: Options, homes: map<Path, Path>, s: Record, ps: set<Path>): map<Path, Path> {
    map p | p in homes.Keys + ps :: if p in homes then homes[p] else Destination(o, s, p)
  }

  ghost function ClaimedIn(files: Files, s: Record): set<Path> {
    set p | p in files && !p.kind.RunFile? && Claims(s, p)
  }

  lemma OneMoreSession(o: Options, cold: seq<Record>, i: nat, files: Files)
    requires i < |cold|
    ensures HomesOf(o, cold[..i + 1], {}, files)
         == Extended(o, HomesOf(o, cold[..i], {}, files), cold[i], ClaimedIn(files, cold[i]))
  {
    assert cold[..i + 1][..i] == cold[..i];
    hide Claims, Destination;
  }

  /** The first cold session naming a run gives the run's file its month. */
  function Naming(cold: seq<Record>, run: string): seq<Record> {
    if cold == [] then []
    else
      var n := |cold| - 1;
      Naming(cold[..n], run) + (if cold[n].runId == Text(run) then [cold[n]] else [])
  }

  lemma {:induction false} RunHome(o: Options, cold: seq<Record>, run: string)
    ensures var p := Live(RunFile, run);
            Home(o, cold, p) == if Naming(cold, run) == [] then None else Some(Destination(o, Naming(cold, run)[0], p))
  {
    if cold != [] {
      RunHome(o, cold[..|cold| - 1], run);
    }
  }

  lemma {:induction false} NamingSome(o: Options, cold: seq<Record>, s: Record)
    requires s in cold && NamesRun(s)
    ensures Naming(cold, s.runId.text) != []
  {
    var n := |cold| - 1;
    if cold[n] != s {
      assert cold == cold[..n] + [cold[n]];
      NamingSome(o, cold[..n], s);
    }
  }

  lemma ExtendedByNone(o: Options, homes: map<Path, Path>, s: Record)
    ensures Extended(o, homes, s, {}) == homes
  {
    var e := Extended(o, homes, s, {});
    assert e.Keys == homes.Keys;
    assert forall p | p in homes :: e[p] == homes[p];
  }

  ghost function Named(files: Files, id: string): set<Path> {
    (if Live(Trace, id) in files then {Live(Trace, id)} else {})
    + (if Live(Log, id) in files then {Live(Log, id)} else {})
  }

  ghost function Shots(listing: seq<string>, id: string): set<Path> {
    if listing == [] then {}
    else
      var n := |listing| - 1;
      Shots(listing[..n], id) + (if IsShotOf(id, listing[n]) then {Live(Screenshot, listing[n])} else {})
  }

  lemma {:induction false} ShotsMembers(listing: seq<string>, id: string, p: Path)
    ensures p in Shots(listing, id) <==> p.Live? && p.kind.Screenshot? && p.name in listing && IsShotOf(id, p.name)
  {
    hide IsShotOf;
    if listing != [] {
      var n := |listing| - 1;
      ShotsMembers(listing[..n], id, p);
      assert listing == listing[..n] + [listing[n]];
    }
  }

  lemma AllClaimed(files: Files, s: Record, listing: seq<string>)
    requires forall name :: name in listing <==> Live(Screenshot, name) in files
    ensures Named(files, IdText(s.sessionId)) + Shots(listing, IdText(s.sessionId)) == ClaimedIn(files, s)
  {
    hide IsShotOf, Shots;
    var id := IdText(s.sessionId);
    forall p ensures p in Named(files, id) + Shots(listing, id) <==> p in ClaimedIn(files, s) {
      ShotsMembers(listing, id, p);
    }
  }

  lemma OneMoreRun(o: Options, cold: seq<Record>, runs: set<string>, run: string, files: Files)
    requires run !in runs && Naming(cold, run) != []
    ensures var p := Live(RunFile, run);
            var homes := HomesOf(o, cold, runs, files);
            && p !in homes
            && HomesOf(o, cold, runs + {run}, files)
            == if p in files then homes[p := Destination(o, Naming(cold, run)[0], p)] else homes
  {
    hide Naming, Destination, Home;
    RunHome(o, cold, run);
    var p := Live(RunFile, run);
    var homes, more := HomesOf(o, cold, runs, files), HomesOf(o, cold, runs + {run}, files);
    forall q: Path ensures q in more <==> q in homes || (q == p && p in files)
                   ensures q in homes ==> more[q] == homes[q]
    {
      if q.kind.RunFile? && q.name == run {
        assert q != p ==> q.Stored?;
        StoredStays(o, cold, q);
      }
    }
  }

  lemma OneMoreMove(moves: seq<Move>, m: Move)
    ensures FirstMoves(moves + [m])
         == if m.source in FirstMoves(moves) then FirstMoves(moves) else FirstMoves(moves)[m.source := m.destination]
  {
    assert (moves + [m])[..|moves|] == moves;
  }

  lemma RunsAreNamed(o: Options, lines: seq<string>)
    ensures forall run | run in RunIds(o, lines) :: Naming(Cold(o, SessionsIn(o, lines)), run) != []
  {
    hide Cold, SessionsIn, Naming, HotRuns;
    var cold := Cold(o, SessionsIn(o, lines));
    forall s | s in cold && NamesRun(s) ensures Naming(cold, s.runId.text) != [] {
      NamingSome(o, cold, s);
    }
  }

  /** The i-th move is the first of its source, or a later one of a source already moved. */
  lemma {:induction false} FirstOf(moves: seq<Move>, i: nat)
    requires i < |moves|
    ensures var m := moves[i];
            && m.source in FirstMoves(moves)
            && FirstMoves(moves[..i + 1]).Keys == FirstMoves(moves[..i]).Keys + {m.source}
            && (m.source !in FirstMoves(moves[..i]) ==> FirstMoves(moves)[m.source] == m.destination)
    decreases |moves|
  {
    assert moves[..i + 1][..i] == moves[..i];
    var n := |moves| - 1;
    if i < n {
      assert moves[..n][..i] == moves[..i] && moves[..n][..i + 1] == moves[..i + 1];
      FirstOf(moves[..n], i);
      assert moves[i].source in FirstMoves(moves[..n]);
    } else {
      assert moves[..n + 1] == moves;
    }
  }

  lemma NoneMoved(files: Files, moves: seq<Move>)
    requires Destinations(FirstMoves(moves))
    ensures Moved(files, FirstMoves(moves), {}) == files && FirstMoves(moves[..0]) == map[]
  {
    var now := Moved(files, FirstMoves(moves), {});
    assert now.Keys == files.Keys;
    assert forall p | p in files :: now[p] == files[p];
  }

  /** What the i-th move does once those before it are done. */
  lemma NextMove(files: Files, moves: seq<Move>, i: nat)
    requires i < |moves| && WellShaped(moves) && Destinations(FirstMoves(moves))
    requires FirstMoves(moves[..i]).Keys * files.Keys <= FirstMoves(moves).Keys
    ensures var homes := FirstMoves(moves);
            var done := FirstMoves(moves[..i]).Keys * files.Keys;
            var m := moves[i];
            var now := Moved(files, homes, done);
            && m.source in homes
            && FirstMoves(moves[..i + 1]).Keys * files.Keys == done + {m.source} * files.Keys
            && (m.source in now ==>
                  && m.source in files && m.destination == homes[m.source]
                  && (m.destination in now <==> m.destination in files)
                  && (m.destination !in files ==>
                        Moved(files, homes, done + {m.source} * files.Keys)
                          == (now - {m.source})[m.destination := now[m.source]]))
            && (m.source in now && m.destination in files ==> !DestinationsFree(files, homes))
            && (m.source !in now ==> done + {m.source} * files.Keys == done)
  {
    hide FirstMoves, WellShaped;
    FirstOf(moves, i);
    var m := moves[i];
    var homes := FirstMoves(moves);
    var done := FirstMoves(moves[..i]).Keys * files.Keys;
    MovedAt(files, homes, done, m.source);
    if m.source in files - done {
      MovedAt(files, homes, done, m.destination);
      assert {m.source} * files.Keys == {m.source};
      if m.destination !in files {
        MoveOne(files, homes, done, m.source);
      }
    }
  }

  lemma AllFree(files: Files, homes: map<Path, Path>, done: set<Path>)
    requires done == homes.Keys * files.Keys && forall p | p in done :: homes[p] !in files
    ensures DestinationsFree(files, homes)
  {}

  class TraceStore {
    const o: Options
    var files: Files
    var index: Journal
    var archive: Journal

    constructor (o: Options, d: Disk)
      ensures this.o == o && View() == d
    {
      this.o := o;
      files, index, archive := d.files, d.index, d.archive;
    }

    ghost function View(): Disk
      reads this
    {
      Disk(files, index, archive)
    }

    /** A move whose source is gone does nothing; one whose destination is taken fails. */
    method MovePath(source: Path, destination: Path) returns (ok: bool)
      modifies this`files
      ensures ok <==> source !in old(files) || destination !in old(files)
      ensures files == if source in old(files) && ok then (old(files) - {source})[destination := old(files)[source]]
                       else old(files)
    {
      if source !in files {
        return true;
      }
      if destination in files {
        return false;
      }
      files := (files - {source})[destination := files[source]];
      return true;
    }

    /** The moves for one cold session: its trace, its log, its screenshots. */
    method PlanSession(s: Record, listing: seq<string>, before: seq<Move>) returns (moves: seq<Move>)
      requires WellShaped(before)
      requires forall name :: name in listing <==> Live(Screenshot, name) in files
      ensures WellShaped(moves)
      ensures FirstMoves(moves) == Extended(o, FirstMoves(before), s, ClaimedIn(files, s))
    {
      hide WellShaped, FirstMoves, Extended, ClaimedIn;
      moves := before;
      var id := IdText(s.sessionId);
      ghost var homes, ps: set<Path> := FirstMoves(before), {};
      ExtendedByNone(o, homes, s);
      var trace, log := Live(Trace, id), Live(Log, id);
      if trace in files {
        moves := Push(s, trace, moves, homes, ps);
        ps := ps + {trace};
      }
      if log in files {
        moves := Push(s, log, moves, homes, ps);
        ps := ps + {log};
      }
      for i := 0 to |listing|
        invariant WellShaped(moves) && FirstMoves(moves) == Extended(o, homes, s, ps)
        invariant ps == Named(files, id) + Shots(listing[..i], id)
      {
        assert listing[..i + 1][..i] == listing[..i];
        if IsShotOf(id, listing[i]) {
          moves := Push(s, Live(Screenshot, listing[i]), moves, homes, ps);
          ps := ps + {Live(Screenshot, listing[i])};
        }
      }
      assert listing[..|listing|] == listing;
      AllClaimed(files, s, listing);
    }

    method Push(s: Record, p: Path, moves: seq<Move>, ghost homes: map<Path, Path>, ghost ps: set<Path>)
      returns (next: seq<Move>)
      requires WellShaped(moves) && p.Live?
      requires FirstMoves(moves) == Extended(o, homes, s, ps)
      ensures WellShaped(next)
      ensures FirstMoves(next) == Extended(o, homes, s, ps + {p})
    {
      next := moves + [Move(p, Destination(o, s, p))];
      assert next[..|moves|] == moves;
    }

    method BuildPlan(listing: seq<string>) returns (plan: Plan)
      requires forall name :: name in listing <==> Live(Screenshot, name) in files
      ensures Plans(o, View(), plan)
    {
      var lines := Lines(index, Sessions);
      var cold := Cold(o, SessionsIn(o, lines));
      var sessionIds, runIds := SessionIds(o, lines), RunIds(o, lines);
      var moves: seq<Move> := [];
      for i := 0 to |cold|
        invariant WellShaped(moves)
        invariant FirstMoves(moves) == HomesOf(o, cold[..i], {}, files)
      {
        OneMoreSession(o, cold, i, files);
        moves := PlanSession(cold[i], listing, moves);
      }
      assert cold[..|cold|] == cold;
      RunsAreNamed(o, lines);
      moves := PlanRuns(cold, runIds, moves);
      var indexMoves := if sessionIds != {} && Sessions in index then [Sessions] else [];
      if runIds != {} && Runs in index {
        indexMoves := indexMoves + [Runs];
      }
      FirstMovesOf(moves);
      plan := Plan(sessionIds, runIds, moves, indexMoves);
    }

    /** The moves of the archived runs' files, in any order of the runs. */
    method PlanRuns(cold: seq<Record>, runIds: set<string>, before: seq<Move>) returns (moves: seq<Move>)
      requires WellShaped(before) && FirstMoves(before) == HomesOf(o, cold, {}, files)
      requires forall run | run in runIds :: Naming(cold, run) != []
      ensures WellShaped(moves) && FirstMoves(moves) == HomesOf(o, cold, runIds, files)
    {
      hide FirstMoves, HomesOf, Naming;
      moves := before;
      var left := runIds;
      assert runIds - left == {};
      while left != {}
        invariant left <= runIds && WellShaped(moves)
        invariant FirstMoves(moves) == HomesOf(o, cold, runIds - left, files)
        decreases |left|
      {
        var run :| run in left;
        var p := Live(RunFile, run);
        OneMoreRun(o, cold, runIds - left, run, files);
        assert runIds - (left - {run}) == (runIds - left) + {run};
        if p in files {
          var m := Move(p, Destination(o, Naming(cold, run)[0], p));
          OneMoreMove(moves, m);
          moves := moves + [m];
        }
        left := left - {run};
      }
      assert runIds - left == runIds;
    }

    /** The file moves of a plan. One of them fails exactly when a file waiting to move finds its
        destination taken, and then `done` are the files that had moved. */
    method MoveFiles(moves: seq<Move>) returns (ok: bool, ghost done: set<Path>)
      requires WellShaped(moves) && Destinations(FirstMoves(moves))
      modifies this`files
      ensures done <= FirstMoves(moves).Keys && done <= old(files).Keys
      ensures files == Moved(old(files), FirstMoves(moves), done)
      ensures ok <==> DestinationsFree(old(files), FirstMoves(moves))
      ensures ok ==> done == FirstMoves(moves).Keys * old(files).Keys
    {
      hide FirstMoves, Moved, WellShaped, Destinations, DestinationsFree;
      ghost var homes := FirstMoves(moves);
      done := {};
      NoneMoved(files, moves);
      for i := 0 to |moves|
        invariant done == FirstMoves(moves[..i]).Keys * old(files).Keys && done <= homes.Keys
        invariant files == Moved(old(files), homes, done)
        invariant forall p | p in done :: homes[p] !in old(files)
      {
        NextMove(old(files), moves, i);
        ok := MovePath(moves[i].source, moves[i].destination);
        if !ok {
          return;
        }
        done := done + ({moves[i].source} * old(files).Keys);
      }
      ok := true;
      assert moves[..|moves|] == moves;
      AllFree(old(files), homes, done);
    }

    /** One index: its archived lines are appended to the archive, then it is rewritten. */
    method MoveIndex(plan: Plan, ix: Index)
      modifies this`index, this`archive
      ensures View() == WriteIndex(o, plan, ix, WriteArchive(o, plan, ix, old(View())))
    {
      var lines := Lines(index, ix);
      var ids := IdsOf(plan, ix);
      var archived, retained: seq<string> := [], [];
      for i := 0 to |lines|
        invariant archived == Archived(o, ix, ids, lines[..i]) && retained == Retained(o, ix, ids, lines[..i])
      {
        assert lines[..i + 1][..i] == lines[..i];
        if Chosen(o, ix, ids, lines[i]) {
          archived := archived + [lines[i]];
        } else {
          retained := retained + [lines[i]];
        }
      }
      assert lines[..|lines|] == lines;
      if |archived| > 0 {
        archive := archive[ix := Lines(archive, ix) + archived];
      }
      assert View() == WriteArchive(o, plan, ix, old(View()));
      index := index[ix := retained];
    }

    /** A plan made on this disk is carried out, or stops at the first taken destination with no
        index touched. */
    method ApplyPlan(plan: Plan) returns (ok: bool, ghost done: set<Path>)
      requires Plans(o, View(), plan)
      modifies this
      ensures ok <==> DestinationsFree(old(files), FirstMoves(plan.moves))
      ensures ok ==> View() == Applied(o, plan, old(View()))
      ensures done <= FirstMoves(plan.moves).Keys
      ensures !ok ==> View() == old(View()).(files := Moved(old(files), FirstMoves(plan.moves), done))
    {
      hide FirstMoves, Plans, Moved, Written, WriteArchive, WriteIndex, DestinationsFree;
      PlanWellShaped(o, View(), plan);
      ok, done := MoveFiles(plan.moves);
      if !ok {
        return;
      }
      assert View() == AllMoved(old(View()), plan);
      WrittenNone(o, plan, View());
      for j := 0 to |plan.indexMoves|
        invariant View() == Written(o, plan, AllMoved(old(View()), plan), 2 * j)
      {
        MoveIndex(plan, plan.indexMoves[j]);
        WrittenTwice(o, plan, AllMoved(old(View()), plan), j);
      }
    }
  }

  lemma PlanWellShaped(o: Options, d: Disk, plan: Plan)
    requires Plans(o, d, plan)
    ensures WellShaped(plan.moves) && Movable(plan, d)
    ensures FirstMoves(plan.moves).Keys * d.files.Keys == FirstMoves(plan.moves).Keys
  {
    hide FirstMoves, HomesOf, RunIds, SessionIds;
  }

  lemma WrittenTwice(o: Options, plan: Plan, d: Disk, j: nat)
    requires j < |plan.indexMoves|
    ensures var ix := plan.indexMoves[j];
            Written(o, plan, d, 2 * j + 2)
            == WriteIndex(o, plan, ix, WriteArchive(o, plan, ix, Written(o, plan, d, 2 * j)))
  {
    hide WriteIndex, WriteArchive, Written;
    WrittenOnce(o, plan, d, 2 * j + 1);
    WrittenOnce(o, plan, d, 2 * j + 2);
  }

  lemma WrittenOnce(o: Options, plan: Plan, d: Disk, k: nat)
    requires 0 < k <= 2 * |plan.indexMoves|
    ensures var before := Written(o, plan, d, k - 1);
            Written(o, plan, d, k) == if k % 2 == 1 then WriteArchive(o, plan, plan.indexMoves[k / 2], before)
                                      else WriteIndex(o, plan, plan.indexMoves[k / 2 - 1], before)
  {
    hide WriteIndex, WriteArchive;
  }
}
