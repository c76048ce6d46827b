/** What the insights pass gathers beside its rows: the facets one can filter by, and the runs with
    their sessions and counts. */
module InsightGroups {
  import opened Wrappers
  import opened InsightRows
  import opened Insights

  // ---------- Facets ----------

  datatype FacetKind = OfRun | OfSession | OfDomain | OfModel | OfSkill | OfTool | OfFailure | OfEvent
  datatype Facet = Facet(kind: FacetKind, id: string)

  function FacetsOf(kind: FacetKind, names: seq<string>): set<Facet> {
    set name | name in names && name != "" :: Facet(kind, name)
  }

  /** The tools of a session's turns, call by call. */
  function ToolNames(entries: seq<Entry>): seq<string> {
    if entries == [] then []
    else ToolNames(entries[..|entries| - 1]) + CalledTools(entries[|entries| - 1].executions)
  }

  function CalledTools(executions: seq<Execution>): seq<string> {
    seq(|executions|, (k: nat) requires k < |executions| => executions[k].tool)
  }

  function SessionFacets(input: Input, i: nat): set<Facet>
    requires i < |input.sessions|
  {
    var s, entries := input.sessions[i], EntriesOf(input, i);
    FacetsOf(OfSession, [s.id]) + FacetsOf(OfRun, [s.runId]) + FacetsOf(OfDomain, [s.domain])
    + FacetsOf(OfFailure, FailureNames(s)) + FacetsOf(OfModel, s.models) + FacetsOf(OfSkill, s.skills)
    + FacetsOf(OfTool, ToolNames(entries))
    + FacetsOf(OfEvent, Kinds(EventsOf(entries)) + Kinds(s.events) + OwnRunKinds(input, i))
  }

  /** The event types of a session's run, whether or not it is the run's first. */
  function OwnRunKinds(input: Input, i: nat): seq<string>
    requires i < |input.sessions|
  {
    if input.sessions[i].runId == "" then [] else Kinds(RunEventsOf(input, input.sessions[i].runId))
  }

  function PassFacets(input: Input, n: nat): set<Facet>
    requires n <= |input.sessions|
  {
    if n == 0 then {} else PassFacets(input, n - 1) + SessionFacets(input, n - 1)
  }

  function LateFacets(input: Input, runs: seq<string>): set<Facet> {
    set run | run in runs && LateLabel(input, run).Some? :: Facet(OfFailure, LateLabel(input, run).value)
  }

  /** The facets of the response. */
  function AllFacets(input: Input): set<Facet> {
    PassFacets(input, |input.sessions|) + LateFacets(input, VerdictRuns(input, |input.sessions|))
  }

  // ---------- Facets are the names of rows ----------

  ghost predicate Reaches(touches: seq<Touch>, key: Key) {
    exists k :: 0 <= k < |touches| && touches[k].key == key
  }

  lemma ReachesConcat(a: seq<Touch>, b: seq<Touch>, key: Key)
    ensures Reaches(a + b, key) <==> Reaches(a, key) || Reaches(b, key)
  {
    if k :| 0 <= k < |a| && a[k].key == key {
      assert (a + b)[k].key == key;
    }
    if k :| 0 <= k < |b| && b[k].key == key {
      assert (a + b)[|a| + k].key == key;
    }
  }

  lemma ReachesOne(t: Touch, key: Key)
    ensures Reaches([t], key) <==> t.key == key
    ensures !Reaches([], key)
  {
    assert [t][0] == t;
  }

  /** A row exists exactly for a key that is reached. */
  lemma {:induction false} RowReached(sessions: seq<Session>, touches: seq<Touch>, key: Key)
    requires WellNamed(sessions, touches)
    ensures key in Tally(sessions, touches).row <==> Reaches(touches, key)
  {
    hide Touched;
    if touches != [] {
      var front, t := touches[..|touches| - 1], touches[|touches| - 1];
      assert touches == front + [t];
      RowReached(sessions, front, key);
      ReachesConcat(front, [t], key);
      ReachesOne(t, key);
    }
  }

  lemma {:induction false} NamesReach(table: Table, names: seq<string>, i: nat, delta: Delta, key: Key)
    ensures Reaches(NameTouches(table, names, i, delta), key) <==> key.table == table && key.id != "" && key.id in names
  {
    hide Reaches;
    if names == [] {
      ReachesOne(Touch(key, None, delta), key);
    } else {
      var front, last := names[..|names| - 1], names[|names| - 1];
      var t := Touch(Key(table, last), Some(i), delta);
      assert names == front + [last];
      NamesReach(table, front, i, delta, key);
      ReachesOne(t, key);
      ReachesConcat(NameTouches(table, front, i, delta), if last == "" then [] else [t], key);
    }
  }

  lemma {:induction false} ExecutionsReach(executions: seq<Execution>, i: nat, key: Key)
    ensures Reaches(ExecutionTouches(executions, i), key)
       <==> key.table == Tools && key.id != "" && key.id in CalledTools(executions)
  {
    hide Reaches, ExecutionDelta;
    if executions == [] {
      ReachesOne(Touch(key, None, Zero()), key);
    } else {
      var front, e := executions[..|executions| - 1], executions[|executions| - 1];
      var t := Touch(Key(Tools, e.tool), Some(i), ExecutionDelta(e));
      assert CalledTools(executions) == CalledTools(front) + [e.tool];
      ExecutionsReach(front, i, key);
      ReachesOne(t, key);
      ReachesConcat(ExecutionTouches(front, i), if e.tool == "" then [] else [t], key);
    }
  }

  /** The rows a list of turns reaches. */
  ghost predicate TurnsReach(entries: seq<Entry>, key: Key) {
    key.id != "" &&
    match key.table
    case Tools => key.id in ToolNames(entries)
    case Events => key.id in Kinds(EventsOf(entries))
    case Models => exists k :: 0 <= k < |entries| && entries[k].model == key.id
    case _ => false
  }

  lemma EntryReaches(e: Entry, i: nat, key: Key)
    ensures Reaches(EntryTouches(e, i), key)
       <==> && key.id != ""
            && match key.table
               case Tools => key.id in CalledTools(e.executions)
               case Events => key.id in Kinds(e.events)
               case Models => key.id == e.model
               case _ => false
  {
    hide Reaches, NameTouches, ExecutionTouches, RequestDelta, Call;
    var requests, calls := NameTouches(Models, [e.model], i, RequestDelta(e)), ExecutionTouches(e.executions, i);
    NamesReach(Models, [e.model], i, RequestDelta(e), key);
    ExecutionsReach(e.executions, i, key);
    NamesReach(Events, Kinds(e.events), i, Call(), key);
    ReachesConcat(requests, calls, key);
    ReachesConcat(requests + calls, NameTouches(Events, Kinds(e.events), i, Call()), key);
  }

  lemma {:induction false} EntriesReach(entries: seq<Entry>, i: nat, key: Key)
    ensures Reaches(EntriesTouches(entries, i), key) <==> TurnsReach(entries, key)
  {
    hide Reaches, EntryTouches, Kinds, CalledTools;
    if entries == [] {
      ReachesOne(Touch(key, None, Zero()), key);
      NoKinds();
    } else {
      var front, e := entries[..|entries| - 1], entries[|entries| - 1];
      assert entries == front + [e];
      EntriesReach(front, i, key);
      EntryReaches(e, i, key);
      ReachesConcat(EntriesTouches(front, i), EntryTouches(e, i), key);
      KindsConcat(EventsOf(front), e.events);
    }
  }

  lemma NoKinds()
    ensures Kinds([]) == []
  {}

  lemma KindsConcat(a: seq<Event>, b: seq<Event>)
    ensures Kinds(a + b) == Kinds(a) + Kinds(b)
  {}

  lemma SessionReaches(input: Input, i: nat, key: Key)
    requires i < |input.sessions|
    ensures var s := input.sessions[i];
            Reaches(SessionTouches(input, i), key)
            <==> || TurnsReach(EntriesOf(input, i), key)
                 || (key.id != "" && match key.table
                                     case Failures => FailureLabel(s) == Some(key.id)
                                     case Models => key.id in s.models
                                     case Skills => key.id in s.skills
                                     case Events => key.id in Kinds(s.events) || key.id in RunKinds(input, i)
                                     case Tools => false)
  {
    hide Reaches, NameTouches, EntriesTouches, FailureLabel, Kinds, RunKinds, OutcomeDelta, Call, OneFailure,
         TurnsReach;
    var s := input.sessions[i];
    var a := NameTouches(Failures, FailureNames(s), i, OneFailure());
    var b := NameTouches(Models, s.models, i, OutcomeDelta(s));
    var c := NameTouches(Skills, s.skills, i, OutcomeDelta(s));
    var d := EntriesTouches(EntriesOf(input, i), i);
    var e := NameTouches(Events, Kinds(s.events), i, Call());
    var f := NameTouches(Events, RunKinds(input, i), i, Call());
    NamesReach(Failures, FailureNames(s), i, OneFailure(), key);
    NamesReach(Models, s.models, i, OutcomeDelta(s), key);
    NamesReach(Skills, s.skills, i, OutcomeDelta(s), key);
    EntriesReach(EntriesOf(input, i), i, key);
    NamesReach(Events, Kinds(s.events), i, Call(), key);
    NamesReach(Events, RunKinds(input, i), i, Call(), key);
    ReachesConcat(a, b, key);
    ReachesConcat(a + b, c, key);
    ReachesConcat(a + b + c, d, key);
    ReachesConcat(a + b + c + d, e, key);
    ReachesConcat(a + b + c + d + e, f, key);
  }

  /** The table whose rows a facet names, if there is one. */
  function TableOf(kind: FacetKind): Option<Table> {
    match kind
    case OfTool => Some(Tools)
    case OfSkill => Some(Skills)
    case OfModel => Some(Models)
    case OfFailure => Some(Failures)
    case OfEvent => Some(Events)
    case _ => None
  }

  /** Session i alone, its run's events taken as its own, reaches the rows its facets name, and as
      model rows those of its requests. */
  lemma OwnFacets(input: Input, i: nat, kind: FacetKind, id: string)
    requires i < |input.sessions| && TableOf(kind).Some?
    ensures var key, facet := Key(TableOf(kind).value, id), Facet(kind, id) in SessionFacets(input, i);
            var reached := Reaches(SessionTouches(input, i), key);
            && (facet ==> reached || (kind == OfEvent && id != "" && id in OwnRunKinds(input, i)))
            && (reached && kind != OfModel ==> facet)
            && (kind == OfEvent && id != "" && id in OwnRunKinds(input, i) ==> facet)
  {
    hide Reaches, SessionTouches, Kinds, ToolNames, EventsOf, FailureLabel, RunKinds, OwnRunKinds, FacetsOf;
    SessionReaches(input, i, Key(TableOf(kind).value, id));
    RunKindsAreOwn(input, i);
    FacetIsNamed(input, i, kind, id);
  }

  lemma RunKindsAreOwn(input: Input, i: nat)
    requires i < |input.sessions|
    ensures forall id | id in RunKinds(input, i) :: id in OwnRunKinds(input, i)
  {}

  /** The names behind a session's facets. */
  lemma FacetIsNamed(input: Input, i: nat, kind: FacetKind, id: string)
    requires i < |input.sessions| && TableOf(kind).Some?
    ensures var s, entries := input.sessions[i], EntriesOf(input, i);
            Facet(kind, id) in SessionFacets(input, i)
            <==> id != ""
                 && match kind
                    case OfTool => id in ToolNames(entries)
                    case OfSkill => id in s.skills
                    case OfModel => id in s.models
                    case OfFailure => FailureLabel(s) == Some(id)
                    case OfEvent =>
                      id in Kinds(EventsOf(entries)) || id in Kinds(s.events) || id in OwnRunKinds(input, i)
                    case _ => false
  {
    hide Kinds, ToolNames, EventsOf, FailureLabel, OwnRunKinds;
  }

  lemma {:induction false} PassFacetFrom(input: Input, n: nat, facet: Facet)
    requires n <= |input.sessions|
    ensures facet in PassFacets(input, n) <==> exists i: nat :: i < n && facet in SessionFacets(input, i)
  {
    hide SessionFacets;
    if n > 0 {
      PassFacetFrom(input, n - 1, facet);
    }
  }

  lemma {:induction false} PassReached(input: Input, n: nat, key: Key)
    requires n <= |input.sessions|
    ensures Reaches(PassTouches(input, n), key) <==> exists i: nat :: i < n && Reaches(SessionTouches(input, i), key)
  {
    hide SessionTouches, Reaches;
    if n == 0 {
      ReachesOne(Touch(key, None, Zero()), key);
    } else {
      PassReached(input, n - 1, key);
      ReachesConcat(PassTouches(input, n - 1), SessionTouches(input, n - 1), key);
    }
  }

  /** Every run has a first session. */
  lemma {:induction false} HasFirst(sessions: seq<Session>, i: nat) returns (j: nat)
    requires i < |sessions| && sessions[i].runId != ""
    ensures j <= i && FirstOfRun(sessions, j) && sessions[j].runId == sessions[i].runId
    decreases i
  {
    if FirstOfRun(sessions, i) {
      j := i;
    } else {
      var k :| 0 <= k < i && sessions[k].runId == sessions[i].runId;
      j := HasFirst(sessions, k);
    }
  }

  lemma {:induction false} LateReached(input: Input, runs: seq<string>, key: Key)
    ensures Reaches(LateTouches(input, runs), key)
       <==> key.table == Failures && Facet(OfFailure, key.id) in LateFacets(input, runs)
  {
    hide Reaches, LateLabel, Visits, RunSessions, OneFailure;
    if runs == [] {
      ReachesOne(Touch(key, None, Zero()), key);
    } else {
      var front, run := runs[..|runs| - 1], runs[|runs| - 1];
      assert runs == front + [run];
      LateReached(input, front, key);
      ReachesConcat(LateTouches(input, front), LateOf(input, run), key);
      ReachesOne(Touch(key, None, OneFailure()), key);
      if LateLabel(input, run).Some? {
        var row := Key(Failures, LateLabel(input, run).value);
        var who := RunSessions(input.sessions, |input.sessions|, run);
        VisitsReach(row, who, key);
        ReachesOne(Touch(row, None, OneFailure()), key);
        ReachesConcat(Visits(row, who), [Touch(row, None, OneFailure())], key);
      }
    }
  }

  lemma {:induction false} VisitsReach(row: Key, who: seq<nat>, key: Key)
    ensures Reaches(Visits(row, who), key) ==> key == row
  {
    if who != [] {
      VisitsReach(row, who[..|who| - 1], key);
      ReachesConcat(Visits(row, who[..|who| - 1]), [Touch(row, Some(who[|who| - 1]), Zero())], key);
      ReachesOne(Touch(row, Some(who[|who| - 1]), Zero()), key);
    }
  }

  /** The facets for tools, skills, failures and events are exactly the names of those rows, although
      they are gathered by other loops; those for models name some of the model rows. */
  lemma FacetsNameRows(input: Input, kind: FacetKind, id: string)
    requires TableOf(kind).Some?
    ensures var facet, row := Facet(kind, id) in AllFacets(input), Key(TableOf(kind).value, id) in FinalRows(input).row;
            && (facet ==> row)
            && (row && kind != OfModel ==> facet)
  {
    hide PassFacets, PassTouches, LateTouches, LateFacets, Tally, Reaches, VerdictRuns, WellNamed, DeltaOf, Hits,
         SumDelta, VisitsOf, Charged, Plus, Failed;
    var n, key, facet := |input.sessions|, Key(TableOf(kind).value, id), Facet(kind, id);
    var runs := VerdictRuns(input, n);
    TouchesMade(input, key);
    RowReached(input.sessions, Touches(input), key);
    ReachesConcat(PassTouches(input, n), LateTouches(input, runs), key);
    LateReached(input, runs, key);
    LateKinds(input, runs, facet);
    FacetReaches(input, kind, id);
    if kind != OfModel {
      ReachedIsFacet(input, kind, id);
    }
  }

  /** Before the second loop, every facet names a row that is there: a run's events are reached by
      the run's first session. */
  lemma FacetReaches(input: Input, kind: FacetKind, id: string)
    requires TableOf(kind).Some?
    ensures var n := |input.sessions|;
            Facet(kind, id) in PassFacets(input, n) ==>
              Reaches(PassTouches(input, n), Key(TableOf(kind).value, id))
  {
    hide PassFacets, SessionFacets, PassTouches, SessionTouches, Reaches, RunEventsOf, FirstOfRun;
    var n, key, facet := |input.sessions|, Key(TableOf(kind).value, id), Facet(kind, id);
    PassReached(input, n, key);
    PassFacetFrom(input, n, facet);
    if i: nat :| i < n && facet in SessionFacets(input, i) {
      OwnFacets(input, i, kind, id);
      if !Reaches(SessionTouches(input, i), key) {
        var j := HasFirst(input.sessions, i);
        FirstReaches(input, i, j, id);
      }
    }
  }

  lemma ReachedIsFacet(input: Input, kind: FacetKind, id: string)
    requires TableOf(kind).Some? && kind != OfModel
    ensures var n := |input.sessions|;
            Reaches(PassTouches(input, n), Key(TableOf(kind).value, id)) ==>
              Facet(kind, id) in PassFacets(input, n)
  {
    hide PassFacets, SessionFacets, PassTouches, SessionTouches, Reaches;
    var n, key, facet := |input.sessions|, Key(TableOf(kind).value, id), Facet(kind, id);
    PassReached(input, n, key);
    PassFacetFrom(input, n, facet);
    if i: nat :| i < n && Reaches(SessionTouches(input, i), key) {
      OwnFacets(input, i, kind, id);
    }
  }

  lemma LateKinds(input: Input, runs: seq<string>, facet: Facet)
    ensures facet in LateFacets(input, runs) ==> facet.kind == OfFailure
  {}

  /** The first session of a run reaches the rows of the run's events for all of them. */
  lemma FirstReaches(input: Input, i: nat, j: nat, id: string)
    requires j <= i < |input.sessions| && FirstOfRun(input.sessions, j)
    requires input.sessions[j].runId == input.sessions[i].runId != ""
    requires id != "" && id in OwnRunKinds(input, i)
    ensures Reaches(SessionTouches(input, j), Key(Events, id))
  {
    hide Reaches, SessionTouches, Kinds, FirstOfRun;
    SessionReaches(input, j, Key(Events, id));
  }

  // ---------- Runs ----------

  /** A run: its first session's query, its sessions' numbers, the last outcome that is no success,
      and how often each tool was called and each skill selected. */
  datatype RunGroup = RunGroup(query: string, outcome: string, sessions: seq<nat>,
                               tools: map<string, nat>, skills: map<string, nat>)

  function CountIn(counts: map<string, nat>, name: string): nat {
    if name in counts then counts[name] else 0
  }

  function Counted(counts: map<string, nat>, name: string): map<string, nat> {
    if name == "" then counts else counts[name := CountIn(counts, name) + 1]
  }

  function Tallied(counts: map<string, nat>, names: seq<string>): map<string, nat> {
    if names == [] then counts else Counted(Tallied(counts, names[..|names| - 1]), names[|names| - 1])
  }

  lemma {:induction false} TalliedConcat(counts: map<string, nat>, a: seq<string>, b: seq<string>)
    ensures Tallied(counts, a + b) == Tallied(Tallied(counts, a), b)
  {
    hide Counted;
    if b == [] {
      assert a + b == a;
    } else {
      assert (a + b)[..|a + b| - 1] == a + b[..|b| - 1];
      TalliedConcat(counts, a, b[..|b| - 1]);
    }
  }

  lemma {:induction false} TalliedCounts(counts: map<string, nat>, names: seq<string>, name: string)
    requires name != ""
    ensures CountIn(Tallied(counts, names), name) == CountIn(counts, name) + Count(names, name)
  {
    if names != [] {
      TalliedCounts(counts, names[..|names| - 1], name);
    }
  }

  function NewGroup(s: Session): RunGroup {
    RunGroup(s.query, "completed", [], map[], map[])
  }

  /** A run with session i among its sessions. */
  function WithSession(input: Input, i: nat, group: RunGroup): RunGroup
    requires i < |input.sessions|
  {
    var outcome := input.sessions[i].outcome;
    group.(sessions := group.sessions + [i], outcome := if Succeeded(outcome) then group.outcome else outcome)
  }

  /** And with what that session selected and called. */
  function WithCounts(input: Input, i: nat, group: RunGroup): RunGroup
    requires i < |input.sessions|
  {
    group.(skills := Tallied(group.skills, input.sessions[i].skills),
           tools := Tallied(group.tools, ToolNames(EntriesOf(input, i))))
  }

  /** A run after the first n sessions, if one of them is its. */
  function GroupAfter(input: Input, n: nat, run: string): Option<RunGroup>
    requires n <= |input.sessions|
  {
    if n == 0 then None
    else
      var s, before := input.sessions[n - 1], GroupAfter(input, n - 1, run);
      if run == "" || s.runId != run then before
      else
        var group := if before.Some? then before.value else NewGroup(s);
        Some(WithCounts(input, n - 1, WithSession(input, n - 1, group)))
  }

  lemma {:induction false} GroupSessions(input: Input, n: nat, run: string)
    requires n <= |input.sessions|
    ensures GroupAfter(input, n, run).Some? <==> run != "" && RunSessions(input.sessions, n, run) != []
    ensures GroupAfter(input, n, run).Some? ==>
              GroupAfter(input, n, run).value.sessions == RunSessions(input.sessions, n, run)
  {
    hide Tallied, ToolNames;
    if n > 0 {
      GroupSessions(input, n - 1, run);
    }
  }

  // ---------- Runs share out the tool rows ----------

  /** Calls of a tool by the first n sessions that pass a test. */
  ghost function CallsBy(input: Input, n: nat, tool: string, run: string): nat
    requires n <= |input.sessions|
  {
    if n == 0 then 0
    else
      CallsBy(input, n - 1, tool, run)
      + (if input.sessions[n - 1].runId == run then Count(ToolNames(EntriesOf(input, n - 1)), tool) else 0)
  }

  /** A run counts each tool as often as its sessions call it. */
  lemma {:induction false} RunCountsCalls(input: Input, n: nat, run: string, tool: string)
    requires n <= |input.sessions| && run != "" && tool != ""
    ensures (if GroupAfter(input, n, run).Some? then CountIn(GroupAfter(input, n, run).value.tools, tool) else 0)
         == CallsBy(input, n, tool, run)
  {
    hide ToolNames, Count, Tallied, CountIn;
    NoneCounted(tool);
    if n > 0 {
      RunCountsCalls(input, n - 1, run, tool);
      var before := GroupAfter(input, n - 1, run);
      var counts: map<string, nat> := if before.Some? then before.value.tools else map[];
      TalliedCounts(counts, ToolNames(EntriesOf(input, n - 1)), tool);
    }
  }

  lemma NoneCounted(name: string)
    ensures CountIn(map[], name) == 0
  {}

  ghost function CallsOfRuns(input: Input, n: nat, tool: string, runs: seq<string>): nat
    requires n <= |input.sessions|
  {
    if runs == [] then 0
    else CallsOfRuns(input, n, tool, runs[..|runs| - 1]) + CallsBy(input, n, tool, runs[|runs| - 1])
  }

  /** One session more changes the calls of its own run. */
  lemma {:induction false} OneMoreCaller(input: Input, n: nat, tool: string, runs: seq<string>)
    requires n < |input.sessions| && DistinctRuns(runs)
    ensures CallsOfRuns(input, n + 1, tool, runs)
         == CallsOfRuns(input, n, tool, runs)
            + (if input.sessions[n].runId in runs then Count(ToolNames(EntriesOf(input, n)), tool) else 0)
  {
    hide ToolNames, Count;
    if runs != [] {
      var front, last := runs[..|runs| - 1], runs[|runs| - 1];
      assert runs == front + [last] && last !in front;
      OneMoreCaller(input, n, tool, front);
    }
  }

  /** Calls of a tool by all of the first n sessions. */
  ghost function CallsOf(input: Input, n: nat, tool: string): nat
    requires n <= |input.sessions|
  {
    if n == 0 then 0 else CallsOf(input, n - 1, tool) + Count(ToolNames(EntriesOf(input, n - 1)), tool)
  }

  lemma {:induction false} CallsAreShared(input: Input, n: nat, tool: string)
    requires n <= |input.sessions|
    ensures CallsOf(input, n, tool)
         == CallsOfRuns(input, n, tool, RunsOf(input.sessions, n)) + CallsBy(input, n, tool, "")
  {
    hide ToolNames, Count, RunsOf, CallsOfRuns;
    if n == 0 {
      NoRunsNoCalls(input, tool);
    } else {
      CallsAreShared(input, n - 1, tool);
      var runs, run := RunsOf(input.sessions, n - 1), input.sessions[n - 1].runId;
      RunsOnce(input.sessions, n - 1);
      RunsOnce(input.sessions, n);
      OneMoreCaller(input, n - 1, tool, RunsOf(input.sessions, n));
      OneMoreRun(input, n, tool);
    }
  }

  lemma NoRunsNoCalls(input: Input, tool: string)
    ensures CallsOfRuns(input, 0, tool, RunsOf(input.sessions, 0)) == 0
  {}

  /** A run not met before has made no calls. */
  lemma OneMoreRun(input: Input, n: nat, tool: string)
    requires 0 < n <= |input.sessions|
    ensures CallsOfRuns(input, n - 1, tool, RunsOf(input.sessions, n))
         == CallsOfRuns(input, n - 1, tool, RunsOf(input.sessions, n - 1))
    ensures input.sessions[n - 1].runId != "" ==> input.sessions[n - 1].runId in RunsOf(input.sessions, n)
    ensures "" !in RunsOf(input.sessions, n)
  {
    hide ToolNames, Count, CallsBy;
    RunsOnce(input.sessions, n);
    var runs, run := RunsOf(input.sessions, n - 1), input.sessions[n - 1].runId;
    assert RunAmong(input.sessions, n, run) by { assert input.sessions[n - 1].runId == run; }
    if FirstOfRun(input.sessions, n - 1) {
      assert (runs + [run])[..|runs|] == runs;
      UnmetCallsNothing(input, n - 1, tool, run);
    } else {
      assert RunsOf(input.sessions, n) == runs;
    }
  }

  lemma {:induction false} UnmetCallsNothing(input: Input, n: nat, tool: string, run: string)
    requires n <= |input.sessions| && forall j | 0 <= j < n :: input.sessions[j].runId != run
    ensures CallsBy(input, n, tool, run) == 0
  {
    if n > 0 {
      UnmetCallsNothing(input, n - 1, tool, run);
    }
  }

  lemma {:induction false} ToolsCounted(executions: seq<Execution>, tool: string)
    ensures ExecutionsDelta(executions, tool).calls == Count(CalledTools(executions), tool)
  {
    if executions != [] {
      var front := executions[..|executions| - 1];
      ToolsCounted(front, tool);
      assert CalledTools(executions)[..|executions| - 1] == CalledTools(front);
    }
  }

  lemma {:induction false} CountConcat(a: seq<string>, b: seq<string>, name: string)
    ensures Count(a + b, name) == Count(a, name) + Count(b, name)
  {
    if b == [] {
      assert a + b == a;
    } else {
      assert (a + b)[..|a + b| - 1] == a + b[..|b| - 1];
      CountConcat(a, b[..|b| - 1], name);
    }
  }

  lemma {:induction false} TurnCallsCounted(entries: seq<Entry>, tool: string)
    ensures EntriesDelta(entries, Key(Tools, tool)).calls == Count(ToolNames(entries), tool)
  {
    hide CalledTools, Count, ExecutionsDelta;
    if entries == [] {
      assert Count([], tool) == 0 by { CountNothing(tool); }
    } else {
      var front, e := entries[..|entries| - 1], entries[|entries| - 1];
      TurnCallsCounted(front, tool);
      ToolsCounted(e.executions, tool);
      CountConcat(ToolNames(front), CalledTools(e.executions), tool);
    }
  }

  lemma CountNothing(name: string)
    ensures Count([], name) == 0
  {}

  lemma {:induction false} CallsSummed(input: Input, n: nat, tool: string)
    requires n <= |input.sessions| && tool != ""
    ensures SumDelta(input, n, Key(Tools, tool)).calls == CallsOf(input, n, tool)
  {
    hide ToolNames, Count, EntriesDelta;
    if n > 0 {
      CallsSummed(input, n - 1, tool);
      TurnCallsCounted(EntriesOf(input, n - 1), tool);
    }
  }

  /** A tool row's calls are those the runs count for the tool, each run once, and those of sessions
      without a run. */
  lemma ToolRowIsShared(input: Input, tool: string)
    requires tool != ""
    ensures var n := |input.sessions|;
            RowOf(FinalRows(input), Key(Tools, tool)).sums.calls
            == CallsOfRuns(input, n, tool, RunsOf(input.sessions, n)) + CallsBy(input, n, tool, "")
  {
    hide SumDelta, FinalRows, RowOf, VisitsOf, CallsOfRuns, CallsBy, CallsOf, Charged, VerdictRuns;
    RowCounters(input, Key(Tools, tool));
    CallsSummed(input, |input.sessions|, tool);
    CallsAreShared(input, |input.sessions|, tool);
  }

  // ---------- Sample errors ----------

  predicate Fails(e: Execution, tool: string) {
    e.tool == tool && !e.success
  }

  /** The sample error of each tool row: what its first failed execution said. */
  function Sampled(samples: map<string, string>, executions: seq<Execution>): map<string, string> {
    if executions == [] then samples
    else
      var n := |executions| - 1;
      var before, e := Sampled(samples, executions[..n]), executions[n];
      if e.tool == "" || e.success || e.tool in before then before else before[e.tool := e.error]
  }

  function ExecutionsOf(entries: seq<Entry>): seq<Execution> {
    if entries == [] then []
    else ExecutionsOf(entries[..|entries| - 1]) + entries[|entries| - 1].executions
  }

  function PassExecutionsOf(input: Input, n: nat): seq<Execution>
    requires n <= |input.sessions|
  {
    if n == 0 then [] else PassExecutionsOf(input, n - 1) + ExecutionsOf(EntriesOf(input, n - 1))
  }

  function AllSamples(input: Input): map<string, string> {
    Sampled(map[], PassExecutionsOf(input, |input.sessions|))
  }

  lemma {:induction false} SampledConcat(samples: map<string, string>, a: seq<Execution>, b: seq<Execution>)
    ensures Sampled(samples, a + b) == Sampled(Sampled(samples, a), b)
  {
    if b == [] {
      assert a + b == a;
    } else {
      assert (a + b)[..|a + b| - 1] == a + b[..|b| - 1];
      SampledConcat(samples, a, b[..|b| - 1]);
    }
  }

  /** A sample is there exactly for the tools that failed. */
  lemma {:induction false} SampledIff(executions: seq<Execution>, tool: string)
    requires tool != ""
    ensures tool in Sampled(map[], executions) <==> exists i :: 0 <= i < |executions| && Fails(executions[i], tool)
  {
    if executions != [] {
      var n := |executions| - 1;
      var front := executions[..n];
      SampledIff(front, tool);
      if tool in Sampled(map[], front) {
        var i :| 0 <= i < n && Fails(front[i], tool);
        assert Fails(executions[i], tool);
      }
    }
  }

  ghost predicate FirstFailure(executions: seq<Execution>, tool: string, i: nat)
    requires i < |executions|
  {
    Fails(executions[i], tool) && forall j | 0 <= j < i :: !Fails(executions[j], tool)
  }

  /** And it is what the first failure said. */
  lemma {:induction false} SampleIsFirst(executions: seq<Execution>, tool: string, i: nat)
    requires tool != "" && i < |executions| && FirstFailure(executions, tool, i)
    ensures tool in Sampled(map[], executions) && Sampled(map[], executions)[tool] == executions[i].error
  {
    var n := |executions| - 1;
    var front := executions[..n];
    if i < n {
      assert FirstFailure(front, tool, i);
      SampleIsFirst(front, tool, i);
    } else {
      SampledIff(front, tool);
    }
  }

  ghost function FailuresOf(executions: seq<Execution>, tool: string): nat {
    if executions == [] then 0
    else
      FailuresOf(executions[..|executions| - 1], tool)
      + (if Fails(executions[|executions| - 1], tool) then 1 else 0)
  }

  lemma {:induction false} FailuresOfConcat(a: seq<Execution>, b: seq<Execution>, tool: string)
    ensures FailuresOf(a + b, tool) == FailuresOf(a, tool) + FailuresOf(b, tool)
  {
    if b == [] {
      assert a + b == a;
    } else {
      assert (a + b)[..|a + b| - 1] == a + b[..|b| - 1];
      FailuresOfConcat(a, b[..|b| - 1], tool);
    }
  }

  lemma {:induction false} SomeFailed(executions: seq<Execution>, tool: string)
    ensures FailuresOf(executions, tool) > 0 <==> exists i :: 0 <= i < |executions| && Fails(executions[i], tool)
  {
    hide Fails;
    if executions != [] {
      var n := |executions| - 1;
      SomeFailed(executions[..n], tool);
      if i :| 0 <= i < n && Fails(executions[i], tool) {
        assert Fails(executions[..n][i], tool);
      }
    }
  }

  lemma {:induction false} FailuresDelta(executions: seq<Execution>, tool: string)
    ensures ExecutionsDelta(executions, tool).failures == FailuresOf(executions, tool)
  {
    if executions != [] {
      FailuresDelta(executions[..|executions| - 1], tool);
    }
  }

  lemma {:induction false} TurnFailures(entries: seq<Entry>, tool: string)
    ensures EntriesDelta(entries, Key(Tools, tool)).failures == FailuresOf(ExecutionsOf(entries), tool)
  {
    hide FailuresOf, ExecutionsDelta;
    if entries == [] {
      NoFailures(tool);
    } else {
      var front, e := entries[..|entries| - 1], entries[|entries| - 1];
      TurnFailures(front, tool);
      FailuresDelta(e.executions, tool);
      FailuresOfConcat(ExecutionsOf(front), e.executions, tool);
    }
  }

  lemma NoFailures(tool: string)
    ensures FailuresOf([], tool) == 0
  {}

  lemma {:induction false} FailuresSummed(input: Input, n: nat, tool: string)
    requires n <= |input.sessions| && tool != ""
    ensures SumDelta(input, n, Key(Tools, tool)).failures == FailuresOf(PassExecutionsOf(input, n), tool)
  {
    hide FailuresOf, EntriesDelta, ExecutionsOf;
    if n == 0 {
      NoFailures(tool);
    } else {
      FailuresSummed(input, n - 1, tool);
      TurnFailures(EntriesOf(input, n - 1), tool);
      FailuresOfConcat(PassExecutionsOf(input, n - 1), ExecutionsOf(EntriesOf(input, n - 1)), tool);
    }
  }

  /** A tool row has a sample error exactly when it counts a failure, and it is what the first failed
      execution of the pass said. */
  lemma SampleIffFailures(input: Input, tool: string)
    requires tool != ""
    ensures tool in AllSamples(input) <==> RowOf(FinalRows(input), Key(Tools, tool)).sums.failures > 0
    ensures var executions := PassExecutionsOf(input, |input.sessions|);
            forall i: nat | i < |executions| && FirstFailure(executions, tool, i) ::
              tool in AllSamples(input) && AllSamples(input)[tool] == executions[i].error
  {
    hide SumDelta, FinalRows, RowOf, PassExecutionsOf, FailuresOf, Sampled, Fails, FirstFailure;
    var executions := PassExecutionsOf(input, |input.sessions|);
    RowCounters(input, Key(Tools, tool));
    FailuresSummed(input, |input.sessions|, tool);
    SomeFailed(executions, tool);
    SampledIff(executions, tool);
    forall i: nat | i < |executions| && FirstFailure(executions, tool, i)
      ensures tool in AllSamples(input) && AllSamples(input)[tool] == executions[i].error
    {
      SampleIsFirst(executions, tool, i);
    }
  }

  // ---------- The whole response ----------

  /** The response is the same for any rearrangement of the sessions: same rows in the same order
      of insertion, same summary, same facets, same samples, same runs. */
  lemma ResponseIgnoresOrder(a: seq<Session>, b: seq<Session>, keep: Session -> bool, before: (string, string) -> bool,
                             entries: map<string, seq<Entry>>, runEvents: map<string, seq<Event>>)
    requires Ranks(before) && DifferentIds(a) && DifferentIds(b) && forall s :: s in a <==> s in b
    ensures var x := Input(Selected(a, keep, before), entries, runEvents);
            var y := Input(Selected(b, keep, before), entries, runEvents);
            && FinalRows(x) == FinalRows(y) && Summary(x, |x.sessions|) == Summary(y, |y.sessions|)
            && AllFacets(x) == AllFacets(y) && AllSamples(x) == AllSamples(y)
            && |x.sessions| == |y.sessions|
            && forall run :: GroupAfter(x, |x.sessions|, run) == GroupAfter(y, |y.sessions|, run)
  {
    hide Selected, FinalRows, Summary, AllFacets, AllSamples, GroupAfter;
    SelectionIgnoresOrder(a, b, keep, before);
  }
}
