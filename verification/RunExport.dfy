/** Exporting run events into one partition per day, and reading one run back in order. */
module RunExport {
  import opened Wrappers
  import opened Utf16
  import Sorting

  const READ_LIMIT := 5000

  /** The day a timestamp falls on, or "unknown". */
  type Day = int

  /** `type` and `role` of an event, if they are strings. */
  type Field = Option<seq<Unit>>

  /** `runId`, `kind` (its type), `role` and `body` are the parsed line; `day` is where its timestamp
      puts it. */
  datatype Event = Event(runId: seq<Unit>, kind: Field, role: Field, day: Day, body: Json)

  datatype Line = Blank | Text(event: Event)

  datatype RunFile = RunFile(runId: seq<Unit>, lines: seq<Line>)

  /** A staged row: the columns beside the event's text repeat what the event says. */
  datatype Row = Row(runId: seq<Unit>, ordinal: nat, kind: Field, role: Field, event: Event)

  function RepairField(f: Field): Field {
    if f.None? then f else Some(Repair(f.value))
  }

  function RepairEvent(e: Event): Event {
    Event(Repair(e.runId), RepairField(e.kind), RepairField(e.role), e.day, RepairJson(e.body))
  }

  function RowOf(file: RunFile, ordinal: nat, e: Event): Row {
    Row(file.runId, ordinal, e.kind, e.role, e)
  }

  /** Some string of the file is repaired. */
  predicate Normalized(file: RunFile, n: nat)
    requires n <= |file.lines|
  {
    exists i :: 0 <= i < n && file.lines[i].Text? && RepairEvent(file.lines[i].event) != file.lines[i].event
  }

  function NormalizedFiles(files: seq<RunFile>): nat {
    if files == [] then 0
    else
      var last := files[|files| - 1];
      NormalizedFiles(files[..|files| - 1]) + (if Normalized(last, |last.lines|) then 1 else 0)
  }

  // ---------- Export ----------

  /** The rows of a file's first n lines: ordinals count every line, blank ones have no row. */
  function RowsOf(file: RunFile, n: nat): seq<Row>
    requires n <= |file.lines|
  {
    if n == 0 then []
    else
      RowsOf(file, n - 1)
      + (if file.lines[n - 1].Blank? then [] else [RowOf(file, n - 1, RepairEvent(file.lines[n - 1].event))])
  }

  predicate IdsMatch(file: RunFile) {
    forall i | 0 <= i < |file.lines| && file.lines[i].Text? :: RepairEvent(file.lines[i].event).runId == file.runId
  }

  /** The staged rows, by day, in the order they were appended. */
  type Stages = map<Day, seq<Row>>

  function Append(stages: Stages, row: Row): Stages {
    stages[row.event.day := (if row.event.day in stages then stages[row.event.day] else []) + [row]]
  }

  function AppendAll(stages: Stages, rows: seq<Row>): Stages {
    if rows == [] then stages else Append(AppendAll(stages, rows[..|rows| - 1]), rows[|rows| - 1])
  }

  function AllRows(files: seq<RunFile>): seq<Row> {
    if files == [] then []
    else AllRows(files[..|files| - 1]) + RowsOf(files[|files| - 1], |files[|files| - 1].lines|)
  }

  lemma {:induction false} AppendAllConcat(stages: Stages, a: seq<Row>, b: seq<Row>)
    ensures AppendAll(stages, a + b) == AppendAll(AppendAll(stages, a), b)
  {
    if b == [] {
      assert a + b == a;
    } else {
      assert (a + b)[..|a + b| - 1] == a + b[..|b| - 1];
      AppendAllConcat(stages, a, b[..|b| - 1]);
    }
  }

  /** One file: its rows are appended to the stages of their days, and `normalized` says whether
      any string was repaired. */
  method StageFile(file: RunFile, before: Stages) returns (stages: Result<Stages>, normalized: bool)
    ensures stages == if IdsMatch(file) then Ok(AppendAll(before, RowsOf(file, |file.lines|))) else Error
    ensures stages.Ok? ==> (normalized <==> Normalized(file, |file.lines|))
  {
    hide RepairEvent, Append, AppendAll, RowsOf;
    var current := before;
    normalized := false;
    StageNothing(before, file);
    for ordinal := 0 to |file.lines|
      invariant current == AppendAll(before, RowsOf(file, ordinal))
      invariant normalized <==> Normalized(file, ordinal)
      invariant forall i | 0 <= i < ordinal && file.lines[i].Text? ::
                  RepairEvent(file.lines[i].event).runId == file.runId
    {
      StageNext(before, file, ordinal);
      if file.lines[ordinal].Text? {
        var event := RepairEvent(file.lines[ordinal].event);
        normalized := normalized || event != file.lines[ordinal].event;
        if event.runId != file.runId {
          return Error, normalized;
        }
        current := Append(current, RowOf(file, ordinal, event));
      }
    }
    return Ok(current), normalized;
  }

  lemma StageNothing(before: Stages, file: RunFile)
    ensures AppendAll(before, RowsOf(file, 0)) == before
  {}

  lemma StageNext(before: Stages, file: RunFile, n: nat)
    requires n < |file.lines|
    ensures AppendAll(before, RowsOf(file, n + 1))
         == if file.lines[n].Blank? then AppendAll(before, RowsOf(file, n))
            else Append(AppendAll(before, RowsOf(file, n)), RowOf(file, n, RepairEvent(file.lines[n].event)))
  {
    hide RepairEvent, Append;
    if file.lines[n].Blank? {
      assert RowsOf(file, n + 1) == RowsOf(file, n);
    } else {
      var rows, row := RowsOf(file, n), RowOf(file, n, RepairEvent(file.lines[n].event));
      assert (rows + [row])[..|rows|] == rows;
    }
  }

  lemma NothingStaged()
    ensures AppendAll(map[], []) == map[] && AllRows([]) == []
  {}

  /** All files in order, with the number of events staged and of files repaired. */
  method ExportRunEvents(files: seq<RunFile>)
    returns (stages: Result<Stages>, runEvents: nat, normalizedRunFiles: nat)
    ensures stages == Export(files)
    ensures stages.Ok? ==> runEvents == |AllRows(files)| && normalizedRunFiles == NormalizedFiles(files)
  {
    hide IdsMatch, AppendAll, RowsOf, Normalized;
    var current: Stages := map[];
    runEvents, normalizedRunFiles := 0, 0;
    NothingStaged();
    for i := 0 to |files|
      invariant forall k | 0 <= k < i :: IdsMatch(files[k])
      invariant current == AppendAll(map[], AllRows(files[..i]))
      invariant runEvents == |AllRows(files[..i])| && normalizedRunFiles == NormalizedFiles(files[..i])
    {
      assert files[..i + 1][..i] == files[..i];
      AppendAllConcat(map[], AllRows(files[..i]), RowsOf(files[i], |files[i].lines|));
      var next, normalized := StageFile(files[i], current);
      if next.Error? {
        return Error, 0, 0;
      }
      current := next.value;
      runEvents := runEvents + |RowsOf(files[i], |files[i].lines|)|;
      normalizedRunFiles := normalizedRunFiles + (if normalized then 1 else 0);
    }
    assert files[..|files|] == files;
    return Ok(current), runEvents, normalizedRunFiles;
  }

  function Export(files: seq<RunFile>): Result<Stages> {
    if forall k | 0 <= k < |files| :: IdsMatch(files[k]) then Ok(AppendAll(map[], AllRows(files))) else Error
  }

  /** Every staged row stands for a line of a file: it names the file's run and the line's number,
      and its columns say what the repaired event says. */
  lemma {:induction false} RowsSay(files: seq<RunFile>, row: Row)
    requires row in AllRows(files)
    ensures exists k: nat, i: nat ::
              && k < |files| && i < |files[k].lines| && files[k].lines[i].Text? && LineSays(files[k], i, row)
  {
    var n := |files| - 1;
    if row in AllRows(files[..n]) {
      RowsSay(files[..n], row);
      var k: nat, i: nat :|
        k < n && i < |files[..n][k].lines| && files[..n][k].lines[i].Text? && LineSays(files[..n][k], i, row);
      assert files[k] == files[..n][k];
    } else {
      var i := RowOfLine(files[n], |files[n].lines|, row);
    }
  }

  ghost predicate LineSays(file: RunFile, i: nat, row: Row)
    requires i < |file.lines| && file.lines[i].Text?
  {
    var e := file.lines[i].event;
    && row.runId == file.runId && row.ordinal == i
    && row.kind == row.event.kind && row.role == row.event.role
    && row.event.runId == Repair(e.runId) && row.event.day == e.day && row.event.body == RepairJson(e.body)
    && (row.event.kind.None? <==> e.kind.None?) && (e.kind.Some? ==> row.event.kind == Some(Repair(e.kind.value)))
    && (row.event.role.None? <==> e.role.None?) && (e.role.Some? ==> row.event.role == Some(Repair(e.role.value)))
  }

  lemma {:induction false} RowOfLine(file: RunFile, n: nat, row: Row) returns (i: nat)
    requires n <= |file.lines| && row in RowsOf(file, n)
    ensures i < n && file.lines[i].Text? && LineSays(file, i, row)
  {
    hide Repair, RepairJson;
    if row in RowsOf(file, n - 1) {
      i := RowOfLine(file, n - 1, row);
    } else {
      i := n - 1;
    }
  }

  // ---------- Reading back ----------

  predicate Sooner(a: Row, b: Row) {
    a.ordinal < b.ordinal
  }

  function OfRun(rows: seq<Row>, runId: seq<Unit>): seq<Row> {
    if rows == [] then []
    else OfRun(rows[..|rows| - 1], runId) + (if rows[|rows| - 1].runId == runId then [rows[|rows| - 1]] else [])
  }

  function Events(rows: seq<Row>): seq<Event> {
    seq(|rows|, i requires 0 <= i < |rows| => rows[i].event)
  }

  function Staged(stages: Stages, day: Day): seq<Row> {
    if day in stages then stages[day] else []
  }

  /** A scan of the day partitions, in the order the days are listed. */
  function Scan(stages: Stages, days: seq<Day>): seq<Row> {
    if days == [] then []
    else
      var day := days[|days| - 1];
      Scan(stages, days[..|days| - 1]) + Staged(stages, day)
  }

  ghost predicate Lists(days: seq<Day>, stages: Stages) {
    && (forall i, j | 0 <= i < j < |days| :: days[i] != days[j])
    && (forall day :: day in days <==> day in stages)
  }

  /** WHERE run_id = ... ORDER BY ordinal, within the read limit. */
  function ReadRun(rows: seq<Row>, runId: seq<Unit>): Result<seq<Event>> {
    var selected := OfRun(rows, runId);
    if |selected| > READ_LIMIT then Error else Ok(Events(Sorting.Sort(selected, Sooner)))
  }

  lemma Merged<T>(a: seq<T>, b: seq<T>, c: seq<T>, d: seq<T>, m: multiset<T>, n: multiset<T>)
    requires multiset(a) == multiset(b) + m && multiset(c) == multiset(d) + n
    ensures multiset(a + c) == multiset(b + d) + (m + n)
  {}

  /** The row, once if its day is listed. */
  ghost function Added(row: Row, days: seq<Day>): multiset<Row> {
    if row.event.day in days then multiset{row} else multiset{}
  }

  lemma AddedLast(row: Row, days: seq<Day>)
    requires days != [] && forall i, j | 0 <= i < j < |days| :: days[i] != days[j]
    ensures Added(row, days) == Added(row, days[..|days| - 1])
            + (if days[|days| - 1] == row.event.day then multiset{row} else multiset{})
  {
    var front, day := days[..|days| - 1], days[|days| - 1];
    assert days == front + [day];
    assert day !in front;
  }

  lemma {:induction false} ScanAppend(stages: Stages, row: Row, days: seq<Day>)
    requires forall i, j | 0 <= i < j < |days| :: days[i] != days[j]
    ensures multiset(Scan(Append(stages, row), days)) == multiset(Scan(stages, days)) + Added(row, days)
  {
    hide Append, Staged, Added;
    if days == [] {
      assert Added(row, []) == multiset{} by { NoneAdded(row); }
    } else {
      var front, day := days[..|days| - 1], days[|days| - 1];
      ScanAppend(stages, row, front);
      AddedLast(row, days);
      StageAppend(stages, row, day);
      Merged(Scan(Append(stages, row), front), Scan(stages, front),
             Staged(Append(stages, row), day), Staged(stages, day),
             Added(row, front), if day == row.event.day then multiset{row} else multiset{});
    }
  }

  lemma NoneAdded(row: Row)
    ensures Added(row, []) == multiset{}
  {}

  /** Appending a row changes its own day's partition and no other. */
  lemma StageAppend(stages: Stages, row: Row, day: Day)
    ensures multiset(Staged(Append(stages, row), day))
         == multiset(Staged(stages, day)) + (if day == row.event.day then multiset{row} else multiset{})
  {}

  /** Partitioning by day neither loses nor invents a row. */
  lemma {:induction false} ScanAll(rows: seq<Row>, days: seq<Day>)
    requires forall i, j | 0 <= i < j < |days| :: days[i] != days[j]
    requires forall r | r in rows :: r.event.day in days
    ensures multiset(Scan(AppendAll(map[], rows), days)) == multiset(rows)
  {
    hide Append, Scan;
    if rows == [] {
      ScanNothing(days);
    } else {
      var front, row := rows[..|rows| - 1], rows[|rows| - 1];
      assert rows == front + [row];
      ScanAll(front, days);
      ScanAppend(AppendAll(map[], front), row, days);
      assert multiset(rows) == multiset(front) + multiset{row};
    }
  }

  lemma {:induction false} ScanNothing(days: seq<Day>)
    ensures Scan(map[], days) == []
  {
    if days != [] {
      ScanNothing(days[..|days| - 1]);
    }
  }

  lemma {:induction false} AppendedDays(rows: seq<Row>)
    ensures forall r | r in rows :: r.event.day in AppendAll(map[], rows)
  {
    if rows != [] {
      AppendedDays(rows[..|rows| - 1]);
      assert rows == rows[..|rows| - 1] + [rows[|rows| - 1]];
    }
  }

  lemma ScanOfExport(files: seq<RunFile>, days: seq<Day>)
    requires Export(files).Ok? && Lists(days, Export(files).value)
    ensures multiset(Scan(Export(files).value, days)) == multiset(AllRows(files))
  {
    AppendedDays(AllRows(files));
    ScanAll(AllRows(files), days);
  }

  lemma {:induction false} OfRunMembers(rows: seq<Row>, runId: seq<Unit>)
    ensures forall r :: r in OfRun(rows, runId) <==> r in rows && r.runId == runId
    ensures forall r :: multiset(OfRun(rows, runId))[r] == if r.runId == runId then multiset(rows)[r] else 0
  {
    if rows != [] {
      OfRunMembers(rows[..|rows| - 1], runId);
      assert rows == rows[..|rows| - 1] + [rows[|rows| - 1]];
    }
  }

  lemma {:induction false} RowsOrdered(file: RunFile, n: nat)
    requires n <= |file.lines|
    ensures Sorting.Ordered(RowsOf(file, n), Sooner)
    ensures forall r | r in RowsOf(file, n) :: r.ordinal < n && r.runId == file.runId
  {
    if n > 0 {
      RowsOrdered(file, n - 1);
      var before := RowsOf(file, n - 1);
      forall i | 0 <= i < |before| ensures before[i].ordinal < n - 1 {
        assert before[i] in before;
      }
    }
  }

  lemma {:induction false} AllRowsOf(files: seq<RunFile>, k: nat)
    requires k < |files| && forall i, j | 0 <= i < j < |files| :: files[i].runId != files[j].runId
    ensures OfRun(AllRows(files), files[k].runId) == RowsOf(files[k], |files[k].lines|)
  {
    hide RowsOf, OfRun;
    var n := |files| - 1;
    var front, last := files[..n], files[n];
    var rows := RowsOf(last, |last.lines|);
    assert AllRows(files) == AllRows(front) + rows;
    OfRunConcat(AllRows(front), rows, files[k].runId);
    RowsOrdered(last, |last.lines|);
    OfRunUniform(rows, last.runId, files[k].runId);
    if k < n {
      AllRowsOf(front, k);
    } else {
      NoRowsOf(front, last.runId);
    }
  }

  lemma {:induction false} NoRowsOf(files: seq<RunFile>, runId: seq<Unit>)
    requires forall i | 0 <= i < |files| :: files[i].runId != runId
    ensures OfRun(AllRows(files), runId) == []
  {
    if files != [] {
      var front, last := files[..|files| - 1], files[|files| - 1];
      NoRowsOf(front, runId);
      OfRunConcat(AllRows(front), RowsOf(last, |last.lines|), runId);
      RowsOrdered(last, |last.lines|);
      OfRunUniform(RowsOf(last, |last.lines|), last.runId, runId);
    }
  }

  lemma {:induction false} OfRunConcat(a: seq<Row>, b: seq<Row>, runId: seq<Unit>)
    ensures OfRun(a + b, runId) == OfRun(a, runId) + OfRun(b, runId)
  {
    if b == [] {
      assert a + b == a;
    } else {
      assert (a + b)[..|a + b| - 1] == a + b[..|b| - 1];
      OfRunConcat(a, b[..|b| - 1], runId);
    }
  }

  lemma {:induction false} OfRunUniform(rows: seq<Row>, own: seq<Unit>, runId: seq<Unit>)
    requires forall r | r in rows :: r.runId == own
    ensures OfRun(rows, runId) == if own == runId then rows else []
  {
    if rows != [] {
      OfRunUniform(rows[..|rows| - 1], own, runId);
    }
  }

  /** The non-blank lines of a file, in file order, repaired. */
  function RepairedLines(file: RunFile, n: nat): seq<Event>
    requires n <= |file.lines|
  {
    if n == 0 then []
    else RepairedLines(file, n - 1) + (if file.lines[n - 1].Blank? then [] else [RepairEvent(file.lines[n - 1].event)])
  }

  lemma {:induction false} EventsOfRows(file: RunFile, n: nat)
    requires n <= |file.lines|
    ensures Events(RowsOf(file, n)) == RepairedLines(file, n)
  {
    if n > 0 {
      EventsOfRows(file, n - 1);
    }
  }

  /** Two scans of the same rows sort alike when no ordinal repeats. */
  lemma SameRows(rows: seq<Row>, selected: seq<Row>)
    requires Sorting.Ordered(rows, Sooner) && multiset(selected) == multiset(rows)
    ensures Sorting.Sort(selected, Sooner) == rows && |selected| == |rows|
  {
    assert |multiset(selected)| == |selected| && |multiset(rows)| == |rows|;
    forall r ensures r in selected <==> r in rows {
      assert r in selected <==> r in multiset(selected);
      assert r in rows <==> r in multiset(rows);
    }
    NoTiesIn(rows, selected);
    Sorting.SortOrdered(selected, Sooner);
    Sorting.OrderedUnique(Sorting.Sort(selected, Sooner), rows, Sooner);
  }

  lemma NoTiesIn(rows: seq<Row>, selected: seq<Row>)
    requires Sorting.Ordered(rows, Sooner) && multiset(selected) == multiset(rows)
    ensures Sorting.NoTies(selected, Sooner)
  {
    forall i, j | 0 <= i < j < |selected| ensures selected[i].ordinal != selected[j].ordinal {
      var x, y := selected[i], selected[j];
      var a := InRows(rows, selected, i);
      var b := InRows(rows, selected, j);
      if x == y {
        TwiceIn(selected, i, j);
        OnceIn(rows, a);
      } else {
        assert a < b ==> Sooner(rows[a], rows[b]);
        assert b < a ==> Sooner(rows[b], rows[a]);
      }
    }
  }

  lemma InRows(rows: seq<Row>, selected: seq<Row>, i: nat) returns (a: nat)
    requires multiset(selected) == multiset(rows) && i < |selected|
    ensures a < |rows| && rows[a] == selected[i]
  {
    assert selected[i] in multiset(rows);
    a :| 0 <= a < |rows| && rows[a] == selected[i];
  }

  lemma TwiceIn(rows: seq<Row>, i: nat, j: nat)
    requires i < j < |rows| && rows[i] == rows[j]
    ensures multiset(rows)[rows[i]] >= 2
  {
    assert rows == rows[..j] + [rows[j]] + rows[j + 1..];
    assert rows[..j][i] == rows[i];
    assert rows[i] in multiset(rows[..j]);
  }

  lemma OnceIn(rows: seq<Row>, a: nat)
    requires Sorting.Ordered(rows, Sooner) && a < |rows|
    ensures multiset(rows)[rows[a]] == 1
  {
    assert rows == rows[..a] + [rows[a]] + rows[a + 1..];
    assert rows[a] !in rows[..a] by {
      forall i | 0 <= i < a ensures rows[..a][i] != rows[a] {
        assert Sooner(rows[i], rows[a]);
      }
    }
    var tail := rows[a + 1..];
    forall i | 0 <= i < |tail| ensures tail[i] != rows[a] {
      assert Sooner(rows[a], rows[a + 1 + i]);
    }
    assert rows[a] !in tail;
  }

  /** The run's rows found by the scan are its file's rows. */
  lemma SelectedRows(files: seq<RunFile>, k: nat, rows: seq<Row>)
    requires k < |files| && forall i, j | 0 <= i < j < |files| :: files[i].runId != files[j].runId
    requires multiset(rows) == multiset(AllRows(files))
    ensures multiset(OfRun(rows, files[k].runId)) == multiset(RowsOf(files[k], |files[k].lines|))
  {
    hide AllRows, OfRun, RowsOf;
    OfRunMembers(rows, files[k].runId);
    OfRunMembers(AllRows(files), files[k].runId);
    AllRowsOf(files, k);
  }

  /** Export then read back: within the limit a run's events come back in file order, each with
      its strings repaired and none lost to the partitioning; beyond it the read is refused. */
  lemma ExportReadBack(files: seq<RunFile>, k: nat, days: seq<Day>)
    requires k < |files| && forall i, j | 0 <= i < j < |files| :: files[i].runId != files[j].runId
    requires Export(files).Ok? && Lists(days, Export(files).value)
    ensures var lines := RepairedLines(files[k], |files[k].lines|);
            ReadRun(Scan(Export(files).value, days), files[k].runId)
            == if |lines| > READ_LIMIT then Error else Ok(lines)
  {
    hide AllRows, OfRun, RowsOf, Scan, Export, RepairedLines;
    var own := RowsOf(files[k], |files[k].lines|);
    ScanOfExport(files, days);
    SelectedRows(files, k, Scan(Export(files).value, days));
    RowsOrdered(files[k], |files[k].lines|);
    SameRows(own, OfRun(Scan(Export(files).value, days), files[k].runId));
    EventsOfRows(files[k], |files[k].lines|);
  }

  /** A run with no file reads back empty. */
  lemma ReadBackUnknown(files: seq<RunFile>, runId: seq<Unit>, days: seq<Day>)
    requires Export(files).Ok? && Lists(days, Export(files).value)
    requires forall i | 0 <= i < |files| :: files[i].runId != runId
    ensures ReadRun(Scan(Export(files).value, days), runId) == Ok([])
  {
    hide AllRows, Scan, Export;
    var rows := Scan(Export(files).value, days);
    ScanOfExport(files, days);
    OfRunMembers(rows, runId);
    OfRunMembers(AllRows(files), runId);
    NoRowsOf(files, runId);
    assert multiset(OfRun(rows, runId)) == multiset{};
    Sorting.FirstIn(OfRun(rows, runId));
    assert forall r :: r in OfRun(rows, runId) <==> r in multiset(OfRun(rows, runId));
    assert Events([]) == [];
  }

  // ---------- A live file younger than the snapshot ----------

  /** The live run file, if the span directory has it. */
  datatype LiveRun = NoFile | Live(mtime: int, file: RunFile)

  /** The events of a file's first n lines as they stand. */
  function PlainLines(file: RunFile, n: nat): seq<Event>
    requires n <= |file.lines|
  {
    if n == 0 then []
    else PlainLines(file, n - 1) + (if file.lines[n - 1].Blank? then [] else [file.lines[n - 1].event])
  }

  /** A live file at least as young as the snapshot is read as it is; else the partitions are. */
  function ReadRunEvents(live: LiveRun, startedAt: int, rows: seq<Row>, runId: seq<Unit>): Result<seq<Event>> {
    if live.Live? && live.mtime >= startedAt then
      var lines := PlainLines(live.file, |live.file.lines|);
      if |lines| > READ_LIMIT || exists i :: 0 <= i < |lines| && lines[i].runId != runId then Error else Ok(lines)
    else ReadRun(rows, runId)
  }

  lemma {:induction false} PlainMembers(file: RunFile, n: nat, e: Event)
    requires n <= |file.lines|
    ensures e in PlainLines(file, n) <==> exists i :: 0 <= i < n && file.lines[i] == Line.Text(e)
  {
    if n > 0 {
      PlainMembers(file, n - 1, e);
    }
  }

  /** A live file is refused exactly when it has more than 5000 events or one of another run. */
  lemma LiveReadFailsIff(file: RunFile, mtime: int, startedAt: int, rows: seq<Row>, runId: seq<Unit>)
    requires mtime >= startedAt
    ensures ReadRunEvents(Live(mtime, file), startedAt, rows, runId).Error?
       <==> || |PlainLines(file, |file.lines|)| > 5000
            || exists i :: 0 <= i < |file.lines| && file.lines[i].Text? && file.lines[i].event.runId != runId
  {
    hide PlainLines;
    var lines := PlainLines(file, |file.lines|);
    forall e ensures e in lines <==> exists i :: 0 <= i < |file.lines| && file.lines[i] == Line.Text(e) {
      PlainMembers(file, |file.lines|, e);
    }
    if i :| 0 <= i < |lines| && lines[i].runId != runId {
      assert lines[i] in lines;
    }
    if i :| 0 <= i < |file.lines| && file.lines[i].Text? && file.lines[i].event.runId != runId {
      assert file.lines[i] == Line.Text(file.lines[i].event);
      assert file.lines[i].event in lines;
    }
  }

  lemma {:induction false} PlainIsRepairedIff(file: RunFile, n: nat)
    requires n <= |file.lines|
    ensures |PlainLines(file, n)| == |RepairedLines(file, n)|
    ensures PlainLines(file, n) == RepairedLines(file, n) <==> !Normalized(file, n)
  {
    hide RepairEvent, Normalized;
    NormalizedNone(file);
    if n > 0 {
      PlainIsRepairedIff(file, n - 1);
      if file.lines[n - 1].Text? {
        var e := file.lines[n - 1].event;
        SameEnd(PlainLines(file, n - 1), e, RepairedLines(file, n - 1), RepairEvent(e));
        assert PlainLines(file, n) == PlainLines(file, n - 1) + [e];
        assert RepairedLines(file, n) == RepairedLines(file, n - 1) + [RepairEvent(e)];
      } else {
        assert PlainLines(file, n) == PlainLines(file, n - 1);
        assert RepairedLines(file, n) == RepairedLines(file, n - 1);
      }
      NormalizedNext(file, n);
    }
  }

  lemma NormalizedNone(file: RunFile)
    ensures !Normalized(file, 0)
  {}

  lemma SameEnd<T>(a: seq<T>, x: T, b: seq<T>, y: T)
    ensures a + [x] == b + [y] <==> a == b && x == y
  {
    if a + [x] == b + [y] {
      assert (a + [x])[..|a|] == a && (b + [y])[..|b|] == b;
      assert (a + [x])[|a|] == x && (b + [y])[|b|] == y;
    }
  }

  lemma NormalizedNext(file: RunFile, n: nat)
    requires 0 < n <= |file.lines|
    ensures Normalized(file, n)
       <==> Normalized(file, n - 1)
            || (file.lines[n - 1].Text? && RepairEvent(file.lines[n - 1].event) != file.lines[n - 1].event)
  {
    hide RepairEvent;
  }

  lemma {:induction false} RepairedLinesMatch(file: RunFile, n: nat)
    requires n <= |file.lines| && IdsMatch(file)
    ensures forall e | e in RepairedLines(file, n) :: e.runId == file.runId
  {
    hide RepairEvent;
    if n > 0 {
      RepairedLinesMatch(file, n - 1);
    }
  }

  /** An exported file read live, because it is as young as the snapshot, gives what the partitions
      give exactly when none of its strings needed repair. */
  lemma LiveReadAgreesIff(files: seq<RunFile>, k: nat, days: seq<Day>, mtime: int, startedAt: int)
    requires k < |files| && forall i, j | 0 <= i < j < |files| :: files[i].runId != files[j].runId
    requires Export(files).Ok? && Lists(days, Export(files).value) && mtime >= startedAt
    ensures var rows, runId := Scan(Export(files).value, days), files[k].runId;
            var length := |RepairedLines(files[k], |files[k].lines|)|;
            ReadRunEvents(Live(mtime, files[k]), startedAt, rows, runId)
              == ReadRunEvents(NoFile, startedAt, rows, runId)
            <==> length > READ_LIMIT || !Normalized(files[k], |files[k].lines|)
  {
    hide Scan, RepairedLines, PlainLines, IdsMatch, AppendAll, AllRows, Normalized;
    var file := files[k];
    ExportReadBack(files, k, days);
    PlainIsRepairedIff(file, |file.lines|);
    assert IdsMatch(file);
    RepairedLinesMatch(file, |file.lines|);
  }

  /** One event whose type is a lone surrogate. */
  function LoneFile(): RunFile {
    RunFile([65], [Line.Text(Event([65], Some([0xD800]), None, 0, Scalar(0)))])
  }

  /** It happens: that event reads differently before and after the file is taken into a snapshot. */
  lemma LiveReadDiffers()
    ensures Export([LoneFile()]).Ok? && Lists([0], Export([LoneFile()]).value)
    ensures var rows := Scan(Export([LoneFile()]).value, [0]);
            ReadRunEvents(Live(1, LoneFile()), 0, rows, [65]) != ReadRunEvents(NoFile, 0, rows, [65])
  {
    hide ReadRunEvents, Scan, Lists;
    var file := LoneFile();
    var e := file.lines[0].event;
    LoneIsRepaired();
    assert Normalized(file, 1) && IdsMatch(file);
    OneLineExport(file);
    assert Lists([0], Export([file]).value) by { OneDay(RowOf(file, 0, RepairEvent(e))); }
    LiveReadAgreesIff([file], 0, [0], 1, 0);
  }

  lemma LoneIsRepaired()
    ensures var e := LoneFile().lines[0].event;
            RepairEvent(e) != e && RepairEvent(e).runId == [65] && RepairEvent(e).day == 0
  {
    assert Repair([0xD800])[0] == REPLACEMENT;
  }

  lemma OneDay(row: Row)
    ensures Lists([row.event.day], map[row.event.day := [row]])
  {}

  lemma OneLineExport(file: RunFile)
    requires |file.lines| == 1 && file.lines[0].Text?
    requires RepairEvent(file.lines[0].event).runId == file.runId
    ensures var e := RepairEvent(file.lines[0].event);
            Export([file]) == Ok(map[e.day := [RowOf(file, 0, e)]])
    ensures |RepairedLines(file, 1)| == 1
  {
    hide RepairEvent, RowOf, RowsOf, RepairedLines, AllRows, AppendAll;
    var row := RowOf(file, 0, RepairEvent(file.lines[0].event));
    assert IdsMatch(file);
    OneLine(file);
    OneFile(file);
    OneRow(row);
  }

  lemma OneLine(file: RunFile)
    requires |file.lines| == 1 && file.lines[0].Text?
    ensures var e := RepairEvent(file.lines[0].event);
            RowsOf(file, 1) == [RowOf(file, 0, e)] && RowOf(file, 0, e).event == e && RepairedLines(file, 1) == [e]
  {
    hide RepairEvent;
    assert RowsOf(file, 0) == [] && RepairedLines(file, 0) == [];
  }

  lemma OneFile(file: RunFile)
    ensures AllRows([file]) == RowsOf(file, |file.lines|)
  {
    hide RowsOf;
    assert [file][..0] == [] && AllRows([]) == [];
    assert AllRows([file]) == AllRows([file][..0]) + RowsOf(file, |file.lines|);
  }

  lemma OneRow(row: Row)
    ensures AppendAll(map[], [row]) == map[row.event.day := [row]]
  {
    assert [row][..0] == [];
    var none: Stages := map[];
    assert AppendAll(none, [row]) == Append(AppendAll(none, []), row);
    assert [] + [row] == [row];
    assert Append(none, row) == none[row.event.day := [row]] == map[row.event.day := [row]];
  }
}
