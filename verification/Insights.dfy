/** The single pass that builds the insights response: the touches it makes, in its order, what each
    session brings to each row, and what the whole response adds up to. */
module Insights {
  import opened Wrappers
  import opened InsightRows
  import Sorting

  // ---------- The touches of the pass ----------

  function OutcomeDelta(s: Session): Delta {
    if Succeeded(s.outcome) then Call().(successes := 1) else Call().(failures := 1)
  }

  function ExecutionDelta(e: Execution): Delta {
    if e.success then Call().(successes := 1, duration := e.duration)
    else Call().(failures := 1, duration := e.duration)
  }

  function RequestDelta(e: Entry): Delta {
    var prompt := PromptTokens(e.usage);
    Delta(0, 1, 0, 0, e.duration, prompt, CompletionTokens(e.usage), CachedTokens(e.usage, prompt),
          TotalTokens(e.usage), MoneyOf(e))
  }

  function OneFailure(): Delta {
    Delta(1, 0, 0, 1, 0, 0, 0, 0, 0, NoMoney())
  }

  function NameTouches(table: Table, names: seq<string>, i: nat, delta: Delta): seq<Touch> {
    if names == [] then []
    else
      var n := |names| - 1;
      NameTouches(table, names[..n], i, delta)
      + (if names[n] == "" then [] else [Touch(Key(table, names[n]), Some(i), delta)])
  }

  function ExecutionTouches(executions: seq<Execution>, i: nat): seq<Touch> {
    if executions == [] then []
    else
      var n := |executions| - 1;
      var e := executions[n];
      ExecutionTouches(executions[..n], i)
      + (if e.tool == "" then [] else [Touch(Key(Tools, e.tool), Some(i), ExecutionDelta(e))])
  }

  function EntryTouches(e: Entry, i: nat): seq<Touch> {
    NameTouches(Models, [e.model], i, RequestDelta(e)) + ExecutionTouches(e.executions, i)
    + NameTouches(Events, Kinds(e.events), i, Call())
  }

  function EntriesTouches(entries: seq<Entry>, i: nat): seq<Touch> {
    if entries == [] then []
    else
      var n := |entries| - 1;
      EntriesTouches(entries[..n], i) + EntryTouches(entries[n], i)
  }

  function Kinds(events: seq<Event>): seq<string> {
    seq(|events|, (k: nat) requires k < |events| => events[k].kind)
  }

  /** Session i is the first of its run in the selection. */
  predicate FirstOfRun(sessions: seq<Session>, i: nat)
    requires i < |sessions|
  {
    sessions[i].runId != "" && forall j | 0 <= j < i :: sessions[j].runId != sessions[i].runId
  }

  /** The events of a run, for the session they are counted with. */
  function RunKinds(input: Input, i: nat): seq<string>
    requires i < |input.sessions|
  {
    if FirstOfRun(input.sessions, i) then Kinds(RunEventsOf(input, input.sessions[i].runId)) else []
  }

  function FailureNames(s: Session): seq<string> {
    match FailureLabel(s)
    case None => []
    case Some(name) => [name]
  }

  function SessionTouches(input: Input, i: nat): seq<Touch>
    requires i < |input.sessions|
  {
    var s := input.sessions[i];
    NameTouches(Failures, FailureNames(s), i, OneFailure())
    + NameTouches(Models, s.models, i, OutcomeDelta(s))
    + NameTouches(Skills, s.skills, i, OutcomeDelta(s))
    + EntriesTouches(EntriesOf(input, i), i)
    + NameTouches(Events, Kinds(s.events), i, Call())
    + NameTouches(Events, RunKinds(input, i), i, Call())
  }

  function PassTouches(input: Input, n: nat): seq<Touch>
    requires n <= |input.sessions|
  {
    if n == 0 then [] else PassTouches(input, n - 1) + SessionTouches(input, n - 1)
  }

  /** The last verdict among a run's events. */
  function VerdictOf(events: seq<Event>): Option<Verdict> {
    if events == [] then None
    else
      var e := events[|events| - 1];
      if e.kind == "task_completed" && e.classification != "" then Some(Verdict(e.success, e.classification))
      else VerdictOf(events[..|events| - 1])
  }

  /** The runs with a verdict, in order of their first sessions. */
  function VerdictRuns(input: Input, n: nat): seq<string>
    requires n <= |input.sessions|
  {
    if n == 0 then []
    else
      var run := input.sessions[n - 1].runId;
      VerdictRuns(input, n - 1)
      + (if FirstOfRun(input.sessions, n - 1) && VerdictOf(RunEventsOf(input, run)).Some? then [run] else [])
  }

  predicate Labelled(sessions: seq<Session>, run: string, reason: string) {
    exists k :: 0 <= k < |sessions| && sessions[k].runId == run && FailureLabel(sessions[k]) == Some(reason)
  }

  /** The failure a run is charged with beyond those its sessions carry. */
  function LateLabel(input: Input, run: string): Option<string> {
    match VerdictOf(RunEventsOf(input, run))
    case None => None
    case Some(v) => if v.success || Labelled(input.sessions, run, v.reason) then None else Some(v.reason)
  }

  /** The first n sessions' numbers that belong to a run. */
  function RunSessions(sessions: seq<Session>, n: nat, run: string): seq<nat>
    requires n <= |sessions|
  {
    if n == 0 then []
    else RunSessions(sessions, n - 1, run) + (if sessions[n - 1].runId == run then [n - 1] else [])
  }

  function Visits(key: Key, who: seq<nat>): seq<Touch> {
    if who == [] then [] else Visits(key, who[..|who| - 1]) + [Touch(key, Some(who[|who| - 1]), Zero())]
  }

  function LateOf(input: Input, run: string): seq<Touch> {
    match LateLabel(input, run)
    case None => []
    case Some(name) =>
      Visits(Key(Failures, name), RunSessions(input.sessions, |input.sessions|, run))
      + [Touch(Key(Failures, name), None, OneFailure())]
  }

  function LateTouches(input: Input, runs: seq<string>): seq<Touch> {
    if runs == [] then [] else LateTouches(input, runs[..|runs| - 1]) + LateOf(input, runs[|runs| - 1])
  }

  /** Every touch, in the order of the program. */
  function Touches(input: Input): seq<Touch> {
    PassTouches(input, |input.sessions|) + LateTouches(input, VerdictRuns(input, |input.sessions|))
  }

  // ---------- What each session brings to each row ----------

  /** delta, once for each occurrence of a name. */
  ghost function NamesDelta(names: seq<string>, id: string, delta: Delta): Delta {
    if names == [] then Zero()
    else
      var n := |names| - 1;
      if names[n] == id then Plus(NamesDelta(names[..n], id, delta), delta) else NamesDelta(names[..n], id, delta)
  }

  ghost function ExecutionsDelta(executions: seq<Execution>, tool: string): Delta {
    if executions == [] then Zero()
    else
      var n := |executions| - 1;
      if executions[n].tool == tool then Plus(ExecutionsDelta(executions[..n], tool), ExecutionDelta(executions[n]))
      else ExecutionsDelta(executions[..n], tool)
  }

  ghost function EntryDelta(e: Entry, key: Key): Delta {
    match key.table
    case Models => NamesDelta([e.model], key.id, RequestDelta(e))
    case Tools => ExecutionsDelta(e.executions, key.id)
    case Events => NamesDelta(Kinds(e.events), key.id, Call())
    case _ => Zero()
  }

  ghost function EntriesDelta(entries: seq<Entry>, key: Key): Delta {
    if entries == [] then Zero()
    else Plus(EntriesDelta(entries[..|entries| - 1], key), EntryDelta(entries[|entries| - 1], key))
  }

  /** What session i brings to a row: each tool execution, each request of a model, each event of
      its turns, of itself and, for the first of a run, of the run; its outcome for each of its
      models and skills; and its failure. */
  ghost function SessionDelta(input: Input, i: nat, key: Key): Delta
    requires i < |input.sessions|
  {
    var s := input.sessions[i];
    if key.id == "" then Zero()
    else
      var turns := EntriesDelta(EntriesOf(input, i), key);
      match key.table
      case Tools => turns
      case Models => Plus(turns, NamesDelta(s.models, key.id, OutcomeDelta(s)))
      case Skills => NamesDelta(s.skills, key.id, OutcomeDelta(s))
      case Failures => if FailureLabel(s) == Some(key.id) then OneFailure() else Zero()
      case Events =>
        Plus(turns,
             Plus(NamesDelta(Kinds(s.events), key.id, Call()), NamesDelta(RunKinds(input, i), key.id, Call())))
  }

  /** Touches that session i makes, each a call or a request. */
  ghost predicate MadeBy(touches: seq<Touch>, i: nat) {
    forall k | 0 <= k < |touches| ::
      touches[k].who == Some(i) && touches[k].delta.calls + touches[k].delta.requests == 1
      && touches[k].key.id != ""
  }

  /** A session's visits to a row are the calls and requests it brings. */
  lemma {:induction false} HitsOfDelta(touches: seq<Touch>, i: nat, j: nat, key: Key)
    requires MadeBy(touches, i)
    ensures Hits(touches, key, j)
            == (if i == j then DeltaOf(touches, key).calls + DeltaOf(touches, key).requests else 0)
  {
    if touches != [] {
      HitsOfDelta(touches[..|touches| - 1], i, j, key);
    }
  }

  lemma DeltaAppend(touches: seq<Touch>, t: Touch, key: Key)
    ensures DeltaOf(touches + [t], key) ==
              if t.key == key then Plus(DeltaOf(touches, key), t.delta) else DeltaOf(touches, key)
  {
    assert (touches + [t])[..|touches|] == touches;
  }

  lemma MadeAppend(touches: seq<Touch>, t: Touch, i: nat)
    requires MadeBy(touches, i) && t.who == Some(i) && t.delta.calls + t.delta.requests == 1 && t.key.id != ""
    ensures MadeBy(touches + [t], i)
  {}

  lemma MadeConcat(a: seq<Touch>, b: seq<Touch>, i: nat)
    requires MadeBy(a, i) && MadeBy(b, i)
    ensures MadeBy(a + b, i)
  {}

  lemma NoTouches(i: nat, key: Key)
    ensures MadeBy([], i) && DeltaOf([], key) == Zero()
  {}

  lemma {:induction false} NamesMade(table: Table, names: seq<string>, i: nat, delta: Delta, key: Key)
    requires delta.calls + delta.requests == 1
    ensures MadeBy(NameTouches(table, names, i, delta), i)
    ensures DeltaOf(NameTouches(table, names, i, delta), key)
         == if key.table == table && key.id != "" then NamesDelta(names, key.id, delta) else Zero()
  {
    hide Plus, MadeBy, DeltaOf;
    NoTouches(i, key);
    if names != [] {
      var n := |names| - 1;
      var t := Touch(Key(table, names[n]), Some(i), delta);
      NamesMade(table, names[..n], i, delta, key);
      DeltaAppend(NameTouches(table, names[..n], i, delta), t, key);
      if names[n] != "" {
        MadeAppend(NameTouches(table, names[..n], i, delta), t, i);
      } else {
        assert NameTouches(table, names, i, delta) == NameTouches(table, names[..n], i, delta);
      }
    }
  }

  lemma {:induction false} ExecutionsMade(executions: seq<Execution>, i: nat, key: Key)
    ensures MadeBy(ExecutionTouches(executions, i), i)
    ensures DeltaOf(ExecutionTouches(executions, i), key)
         == if key.table == Tools && key.id != "" then ExecutionsDelta(executions, key.id) else Zero()
  {
    hide Plus, MadeBy, DeltaOf, ExecutionDelta;
    NoTouches(i, key);
    if executions != [] {
      var n := |executions| - 1;
      var e := executions[n];
      var t := Touch(Key(Tools, e.tool), Some(i), ExecutionDelta(e));
      ExecutionIsOne(e);
      ExecutionsMade(executions[..n], i, key);
      DeltaAppend(ExecutionTouches(executions[..n], i), t, key);
      if e.tool != "" {
        MadeAppend(ExecutionTouches(executions[..n], i), t, i);
      } else {
        assert ExecutionTouches(executions, i) == ExecutionTouches(executions[..n], i);
      }
    }
  }

  lemma ExecutionIsOne(e: Execution)
    ensures ExecutionDelta(e).calls == 1 && ExecutionDelta(e).requests == 0
  {}

  lemma EntryMade(e: Entry, i: nat, key: Key)
    ensures MadeBy(EntryTouches(e, i), i)
    ensures DeltaOf(EntryTouches(e, i), key) == if key.id != "" then EntryDelta(e, key) else Zero()
  {
    hide Plus, NameTouches, ExecutionTouches, NamesDelta, ExecutionsDelta, DeltaOf, MadeBy, RequestDelta;
    RequestIsOne(e);
    var requests := NameTouches(Models, [e.model], i, RequestDelta(e));
    var calls := ExecutionTouches(e.executions, i);
    var events := NameTouches(Events, Kinds(e.events), i, Call());
    NamesMade(Models, [e.model], i, RequestDelta(e), key);
    ExecutionsMade(e.executions, i, key);
    NamesMade(Events, Kinds(e.events), i, Call(), key);
    MadeConcat(requests, calls, i);
    MadeConcat(requests + calls, events, i);
    DeltaConcat(requests, calls, key);
    DeltaConcat(requests + calls, events, key);
    PlusLaws(DeltaOf(requests, key), Zero(), Zero());
    PlusLaws(DeltaOf(calls, key), Zero(), Zero());
    PlusLaws(DeltaOf(events, key), Zero(), Zero());
  }

  lemma RequestIsOne(e: Entry)
    ensures RequestDelta(e).calls == 0 && RequestDelta(e).requests == 1
  {}

  lemma {:induction false} EntriesMade(entries: seq<Entry>, i: nat, key: Key)
    ensures MadeBy(EntriesTouches(entries, i), i)
    ensures DeltaOf(EntriesTouches(entries, i), key) == if key.id != "" then EntriesDelta(entries, key) else Zero()
  {
    hide Plus, EntryTouches, EntryDelta, DeltaOf, MadeBy;
    if entries == [] {
      NoTouches(i, key);
    } else {
      var n := |entries| - 1;
      EntriesMade(entries[..n], i, key);
      EntryMade(entries[n], i, key);
      MadeConcat(EntriesTouches(entries[..n], i), EntryTouches(entries[n], i), i);
      DeltaConcat(EntriesTouches(entries[..n], i), EntryTouches(entries[n], i), key);
      PlusLaws(Zero(), Zero(), Zero());
    }
  }

  lemma {:induction false} OtherTablesUntouched(entries: seq<Entry>, key: Key)
    requires key.table == Skills || key.table == Failures
    ensures EntriesDelta(entries, key) == Zero()
  {
    if entries != [] {
      OtherTablesUntouched(entries[..|entries| - 1], key);
    }
  }

  lemma SessionMade(input: Input, i: nat, key: Key)
    requires i < |input.sessions|
    ensures MadeBy(SessionTouches(input, i), i)
    ensures DeltaOf(SessionTouches(input, i), key) == SessionDelta(input, i, key)
  {
    hide Plus, NameTouches, EntriesTouches, NamesDelta, EntriesDelta, DeltaOf, MadeBy, OutcomeDelta, RunKinds,
         FailureLabel;
    var s := input.sessions[i];
    OutcomeIsOne(s);
    var a := NameTouches(Failures, FailureNames(s), i, OneFailure());
    var b := NameTouches(Models, s.models, i, OutcomeDelta(s));
    var c := NameTouches(Skills, s.skills, i, OutcomeDelta(s));
    var d := EntriesTouches(EntriesOf(input, i), i);
    var e := NameTouches(Events, Kinds(s.events), i, Call());
    var f := NameTouches(Events, RunKinds(input, i), i, Call());
    NamesMade(Failures, FailureNames(s), i, OneFailure(), key);
    NamesMade(Models, s.models, i, OutcomeDelta(s), key);
    NamesMade(Skills, s.skills, i, OutcomeDelta(s), key);
    EntriesMade(EntriesOf(input, i), i, key);
    NamesMade(Events, Kinds(s.events), i, Call(), key);
    NamesMade(Events, RunKinds(input, i), i, Call(), key);
    SixMade(a, b, c, d, e, f, i, key);
    OneName(s, key.id);
    if key.table == Skills || key.table == Failures {
      OtherTablesUntouched(EntriesOf(input, i), key);
    }
    SixSums(DeltaOf(a, key), DeltaOf(b, key), DeltaOf(c, key), DeltaOf(d, key), DeltaOf(e, key), DeltaOf(f, key));
  }

  lemma OutcomeIsOne(s: Session)
    ensures OutcomeDelta(s).calls == 1 && OutcomeDelta(s).requests == 0
  {}

  lemma OneName(s: Session, id: string)
    ensures NamesDelta(FailureNames(s), id, OneFailure()) ==
              if FailureLabel(s) == Some(id) then OneFailure() else Zero()
  {
    hide Plus, FailureLabel;
    PlusLaws(OneFailure(), OneFailure(), OneFailure());
    if FailureLabel(s).Some? {
      assert FailureNames(s)[..0] == [];
      assert NamesDelta([], id, OneFailure()) == Zero();
    }
  }

  lemma SixMade(a: seq<Touch>, b: seq<Touch>, c: seq<Touch>, d: seq<Touch>, e: seq<Touch>, f: seq<Touch>, i: nat,
                key: Key)
    requires MadeBy(a, i) && MadeBy(b, i) && MadeBy(c, i) && MadeBy(d, i) && MadeBy(e, i) && MadeBy(f, i)
    ensures MadeBy(a + b + c + d + e + f, i)
    ensures DeltaOf(a + b + c + d + e + f, key)
         == Plus(Plus(Plus(Plus(Plus(DeltaOf(a, key), DeltaOf(b, key)), DeltaOf(c, key)), DeltaOf(d, key)),
                      DeltaOf(e, key)), DeltaOf(f, key))
  {
    hide Plus, DeltaOf, MadeBy;
    MadeConcat(a, b, i);
    MadeConcat(a + b, c, i);
    MadeConcat(a + b + c, d, i);
    MadeConcat(a + b + c + d, e, i);
    MadeConcat(a + b + c + d + e, f, i);
    DeltaConcat(a, b, key);
    DeltaConcat(a + b, c, key);
    DeltaConcat(a + b + c, d, key);
    DeltaConcat(a + b + c + d, e, key);
    DeltaConcat(a + b + c + d + e, f, key);
  }

  /** The sums in which most parts are zero. */
  lemma SixSums(a: Delta, b: Delta, c: Delta, d: Delta, e: Delta, f: Delta)
    ensures var sum := Plus(Plus(Plus(Plus(Plus(a, b), c), d), e), f);
            && (b == c == d == e == f == Zero() ==> sum == a)
            && (a == c == e == f == Zero() ==> sum == Plus(d, b))
            && (a == b == d == e == f == Zero() ==> sum == c)
            && (a == b == c == e == f == Zero() ==> sum == d)
            && (a == b == c == Zero() ==> sum == Plus(d, Plus(e, f)))
  {
    hide Plus;
    forall x ensures Plus(x, Zero()) == x && Plus(Zero(), x) == x {
      PlusLaws(x, x, x);
    }
    PlusLaws(b, d, d);
    PlusLaws(d, e, f);
  }

  // ---------- The whole pass, row by row ----------

  ghost function SumDelta(input: Input, n: nat, key: Key): Delta
    requires n <= |input.sessions|
  {
    if n == 0 then Zero() else Plus(SumDelta(input, n - 1, key), SessionDelta(input, n - 1, key))
  }

  /** How often session i calls on a row, or requests from it. */
  ghost function OwnVisits(input: Input, i: nat, key: Key): nat
    requires i < |input.sessions|
  {
    SessionMade(input, i, key);
    HitsOfDelta(SessionTouches(input, i), i, i, key);
    SessionDelta(input, i, key).calls + SessionDelta(input, i, key).requests
  }

  lemma MadeNamed(sessions: seq<Session>, touches: seq<Touch>, i: nat)
    requires MadeBy(touches, i) && i < |sessions|
    ensures WellNamed(sessions, touches)
  {}

  lemma NamedConcat(sessions: seq<Session>, a: seq<Touch>, b: seq<Touch>)
    requires WellNamed(sessions, a) && WellNamed(sessions, b)
    ensures WellNamed(sessions, a + b)
  {}

  lemma {:induction false} PassMade(input: Input, n: nat, key: Key)
    requires n <= |input.sessions|
    ensures WellNamed(input.sessions, PassTouches(input, n))
    ensures DeltaOf(PassTouches(input, n), key) == SumDelta(input, n, key)
    ensures forall i: nat | i < |input.sessions| :: Hits(PassTouches(input, n), key, i) ==
              if i < n then OwnVisits(input, i, key) else 0
  {
    hide Plus, SessionTouches, SessionDelta, DeltaOf, Hits, MadeBy, WellNamed;
    Nothing(input, key);
    if n > 0 {
      PassMade(input, n - 1, key);
      var before, own := PassTouches(input, n - 1), SessionTouches(input, n - 1);
      SessionMade(input, n - 1, key);
      MadeNamed(input.sessions, own, n - 1);
      NamedConcat(input.sessions, before, own);
      DeltaConcat(before, own, key);
      forall i: nat | i < |input.sessions|
        ensures Hits(before + own, key, i) == if i < n then OwnVisits(input, i, key) else 0
      {
        HitsConcat(before, own, key, i);
        HitsOfDelta(own, n - 1, i, key);
      }
    }
  }

  lemma Nothing(input: Input, key: Key)
    ensures WellNamed(input.sessions, []) && DeltaOf([], key) == Zero() && forall i: nat :: Hits([], key, i) == 0
  {}

  // ---------- Failures charged to runs ----------

  ghost function Occurs(who: seq<nat>, i: nat): nat {
    if who == [] then 0 else Occurs(who[..|who| - 1], i) + (if who[|who| - 1] == i then 1 else 0)
  }

  lemma {:induction false} VisitsAre(key: Key, who: seq<nat>, other: Key, i: nat)
    ensures DeltaOf(Visits(key, who), other) == Zero()
    ensures Hits(Visits(key, who), other, i) == if key == other then Occurs(who, i) else 0
    ensures forall k | 0 <= k < |Visits(key, who)| ::
              Visits(key, who)[k].who.Some? && Visits(key, who)[k].who.value in who
  {
    hide Plus;
    PlusLaws(Zero(), Zero(), Zero());
    if who != [] {
      VisitsAre(key, who[..|who| - 1], other, i);
      assert who == who[..|who| - 1] + [who[|who| - 1]];
    }
  }

  lemma {:induction false} RunSessionsAre(sessions: seq<Session>, n: nat, run: string, i: nat)
    requires n <= |sessions|
    ensures Occurs(RunSessions(sessions, n, run), i) == if i < n && sessions[i].runId == run then 1 else 0
    ensures forall k | k in RunSessions(sessions, n, run) :: k < n
  {
    if n > 0 {
      RunSessionsAre(sessions, n - 1, run, i);
      var before := RunSessions(sessions, n - 1, run);
      if sessions[n - 1].runId == run {
        assert (before + [n - 1])[..|before|] == before;
      } else {
        assert RunSessions(sessions, n, run) == before;
      }
    }
  }

  /** A run is charged with its verdict in one row: every session of it visits once, and one
      failure is counted. */
  lemma LateMade(input: Input, run: string, key: Key)
    ensures WellNamed(input.sessions, LateOf(input, run))
    ensures var here := key.table == Failures && LateLabel(input, run) == Some(key.id);
            && DeltaOf(LateOf(input, run), key) == (if here then OneFailure() else Zero())
            && forall i: nat | i < |input.sessions| ::
                 Hits(LateOf(input, run), key, i) == if here && input.sessions[i].runId == run then 1 else 0
  {
    hide Plus, LateLabel, Hits, DeltaOf, Visits, RunSessions;
    Nothing(input, key);
    PlusLaws(OneFailure(), Zero(), Zero());
    if LateLabel(input, run).Some? {
      var row := Key(Failures, LateLabel(input, run).value);
      var who := RunSessions(input.sessions, |input.sessions|, run);
      RunSessionsAre(input.sessions, |input.sessions|, run, 0);
      VisitsAre(row, who, key, 0);
      DeltaAppend(Visits(row, who), Touch(row, None, OneFailure()), key);
      forall i: nat | i < |input.sessions|
        ensures Hits(LateOf(input, run), key, i) == if row == key && input.sessions[i].runId == run then 1 else 0
      {
        RunSessionsAre(input.sessions, |input.sessions|, run, i);
        VisitsAre(row, who, key, i);
        HitsConcat(Visits(row, who), [Touch(row, None, OneFailure())], key, i);
        NoVisit(row, key, i);
      }
    }
  }

  lemma NoVisit(row: Key, key: Key, i: nat)
    ensures Hits([Touch(row, None, OneFailure())], key, i) == 0
  {
    assert [Touch(row, None, OneFailure())][..0] == [];
  }

  /** The runs charged with one label. */
  ghost function Charged(input: Input, runs: seq<string>, name: string): nat {
    if runs == [] then 0
    else Charged(input, runs[..|runs| - 1], name) + (if LateLabel(input, runs[|runs| - 1]) == Some(name) then 1 else 0)
  }

  ghost predicate DistinctRuns(runs: seq<string>) {
    forall i, j | 0 <= i < j < |runs| :: runs[i] != runs[j]
  }

  function Failed(count: nat): Delta {
    Zero().(calls := count, failures := count)
  }

  lemma FailedLaws(count: nat)
    ensures Failed(0) == Zero()
    ensures Plus(Failed(count), OneFailure()) == Failed(count + 1)
    ensures Plus(Failed(count), Zero()) == Failed(count)
  {
    PlusLaws(Failed(count), Zero(), Zero());
    OneMoreFailed(count);
  }

  lemma OneMoreFailed(count: nat)
    ensures Plus(Failed(count), OneFailure()) == Failed(count + 1)
  {
    hide PlusMoney, NoMoney;
    MoneyLaws(NoMoney(), NoMoney(), NoMoney());
    var sum := Plus(Failed(count), OneFailure());
    assert sum.calls == sum.failures == count + 1 && sum.money == NoMoney();
  }

  lemma LateDelta(input: Input, run: string, key: Key)
    ensures WellNamed(input.sessions, LateOf(input, run))
    ensures DeltaOf(LateOf(input, run), key)
         == if key.table == Failures && LateLabel(input, run) == Some(key.id) then OneFailure() else Zero()
  {
    LateMade(input, run, key);
  }

  lemma {:induction false} AllLateDelta(input: Input, runs: seq<string>, key: Key)
    ensures WellNamed(input.sessions, LateTouches(input, runs))
    ensures var count := if key.table == Failures then Charged(input, runs, key.id) else 0;
            DeltaOf(LateTouches(input, runs), key) == Failed(count)
  {
    hide LateLabel, LateOf, DeltaOf, WellNamed, Hits, Plus, Failed;
    Nothing(input, key);
    FailedLaws(0);
    if runs != [] {
      var front, run := runs[..|runs| - 1], runs[|runs| - 1];
      FailedLaws(if key.table == Failures then Charged(input, front, key.id) else 0);
      AllLateDelta(input, front, key);
      LateDelta(input, run, key);
      NamedConcat(input.sessions, LateTouches(input, front), LateOf(input, run));
      DeltaConcat(LateTouches(input, front), LateOf(input, run), key);
    }
  }

  lemma {:induction false} AllLateHits(input: Input, runs: seq<string>, key: Key, i: nat)
    requires DistinctRuns(runs) && i < |input.sessions|
    ensures var run := input.sessions[i].runId;
            var charged := key.table == Failures && run in runs && LateLabel(input, run) == Some(key.id);
            Hits(LateTouches(input, runs), key, i) == if charged then 1 else 0
  {
    hide LateLabel, LateOf, DeltaOf, WellNamed, Hits;
    Nothing(input, key);
    if runs != [] {
      var front, run := runs[..|runs| - 1], runs[|runs| - 1];
      assert runs == front + [run];
      AllLateHits(input, front, key, i);
      LateMade(input, run, key);
      HitsConcat(LateTouches(input, front), LateOf(input, run), key, i);
    }
  }

  lemma {:induction false} VerdictRunsAre(input: Input, n: nat)
    requires n <= |input.sessions|
    ensures DistinctRuns(VerdictRuns(input, n))
    ensures forall run :: run in VerdictRuns(input, n)
              <==> run != "" && VerdictOf(RunEventsOf(input, run)).Some?
                   && exists i :: 0 <= i < n && input.sessions[i].runId == run
  {
    hide VerdictOf;
    if n > 0 {
      VerdictRunsAre(input, n - 1);
    }
  }

  /** Session i belongs to a run charged with the failure of this row. */
  ghost predicate ChargedRun(input: Input, i: nat, key: Key)
    requires i < |input.sessions|
  {
    && key.table == Failures && input.sessions[i].runId != ""
    && LateLabel(input, input.sessions[i].runId) == Some(key.id)
  }

  /** All visits of session i to a row. */
  ghost function VisitsOf(input: Input, i: nat, key: Key): nat
    requires i < |input.sessions|
  {
    OwnVisits(input, i, key) + (if ChargedRun(input, i, key) then 1 else 0)
  }

  lemma TouchesMade(input: Input, key: Key)
    ensures WellNamed(input.sessions, Touches(input))
    ensures var count :=
              if key.table == Failures then Charged(input, VerdictRuns(input, |input.sessions|), key.id) else 0;
            DeltaOf(Touches(input), key)
            == Plus(SumDelta(input, |input.sessions|, key), Failed(count))
    ensures forall i: nat | i < |input.sessions| :: Hits(Touches(input), key, i) == VisitsOf(input, i, key)
  {
    hide Plus, PassTouches, LateTouches, OwnVisits, Hits, DeltaOf, WellNamed, SumDelta, Charged;
    var n := |input.sessions|;
    var runs := VerdictRuns(input, n);
    VerdictRunsAre(input, n);
    PassMade(input, n, key);
    AllLateDelta(input, runs, key);
    NamedConcat(input.sessions, PassTouches(input, n), LateTouches(input, runs));
    DeltaConcat(PassTouches(input, n), LateTouches(input, runs), key);
    forall i: nat | i < n ensures Hits(Touches(input), key, i) == VisitsOf(input, i, key) {
      HitsConcat(PassTouches(input, n), LateTouches(input, runs), key, i);
      AllLateHits(input, runs, key, i);
    }
  }

  /** The rows of the response. */
  ghost function FinalRows(input: Input): Rows {
    TouchesMade(input, Key(Tools, ""));
    Tally(input.sessions, Touches(input))
  }

  ghost function OnceEach(input: Input, key: Key, m: Measure): int {
    Sum(|input.sessions|, (i: nat) =>
      if i < |input.sessions| then Share(input.sessions, m, VisitsOf(input, i, key), i) else 0)
  }

  /** What a row counts: what its sessions bring, and the failures charged to runs. */
  ghost function CountersOf(input: Input, key: Key): Delta {
    var count := if key.table == Failures then Charged(input, VerdictRuns(input, |input.sessions|), key.id) else 0;
    Plus(SumDelta(input, |input.sessions|, key), Failed(count))
  }

  lemma RowCounters(input: Input, key: Key)
    ensures RowOf(FinalRows(input), key).sums == CountersOf(input, key)
  {
    hide Plus, Touches, Hits, DeltaOf, SumDelta, Charged, Tally, RowOf, VerdictRuns, VisitsOf;
    TouchesMade(input, key);
    RowSums(input.sessions, Touches(input), key);
  }

  /** A row's sessions are those that visit it; its turns and cost count each of them once,
      through however many loops it came; a session without an id counts at every visit. Its
      counters are what its sessions bring, and the failures charged to runs. */
  lemma RowIsPerSession(input: Input, key: Key)
    requires DistinctIds(input.sessions)
    ensures var row := RowOf(FinalRows(input), key);
            && row.turns == OnceEach(input, key, Turns)
            && row.cost == OnceEach(input, key, Cost)
            && (forall id :: id in row.sessions
                  <==> id != ""
                       && exists i: nat ::
                            i < |input.sessions| && input.sessions[i].id == id && VisitsOf(input, i, key) > 0)
    ensures RowOf(FinalRows(input), key).sums == CountersOf(input, key)
  {
    hide Plus, Touches, VisitsOf, Hits, DeltaOf, Tally, RowOf, CountersOf, DistinctIds;
    RowCounters(input, key);
    TouchesMade(input, key);
    RowsAddUp(input.sessions, Touches(input), key);
    SharesAre(input, key, Turns);
    SharesAre(input, key, Cost);
  }

  lemma SharesAre(input: Input, key: Key, m: Measure)
    requires forall i: nat | i < |input.sessions| :: Hits(Touches(input), key, i) == VisitsOf(input, i, key)
    ensures Shares(input.sessions, Touches(input), key, m) == OnceEach(input, key, m)
  {
    hide Touches, VisitsOf, Hits, Sum;
    SumSame(|input.sessions|,
      (i: nat) => if i < |input.sessions| then Share(input.sessions, m, Hits(Touches(input), key, i), i) else 0,
      (i: nat) => if i < |input.sessions| then Share(input.sessions, m, VisitsOf(input, i, key), i) else 0);
  }

  /** What each visiting session would add if every one of them counted once. */
  ghost function PerSession(input: Input, key: Key, m: Measure): int {
    Sum(|input.sessions|, (i: nat) =>
      if i < |input.sessions| && VisitsOf(input, i, key) > 0 then Amount(m, input.sessions[i]) else 0)
  }

  /** Each session counts once in a row exactly when none without an id, and with something to
      count, visits the row twice. */
  lemma CountedOnceIff(input: Input, key: Key, m: Measure)
    requires forall i: nat | i < |input.sessions| :: Amount(m, input.sessions[i]) >= 0
    ensures OnceEach(input, key, m) == PerSession(input, key, m)
       <==> forall i: nat | i < |input.sessions| :: CountsOnce(input, key, m, i)
  {
    hide VisitsOf, Sum, CountsOnce, Amount, Share;
    var n := |input.sessions|;
    var f := (i: nat) =>
      if i < |input.sessions| && VisitsOf(input, i, key) > 0 then Amount(m, input.sessions[i]) else 0;
    var g := (i: nat) => if i < |input.sessions| then Share(input.sessions, m, VisitsOf(input, i, key), i) else 0;
    forall i: nat | i < n ensures f(i) <= g(i) && (f(i) == g(i) <==> CountsOnce(input, key, m, i)) {
      ShareIsOnce(input, key, m, i);
    }
    SumEqualIff(n, f, g);
  }

  ghost predicate CountsOnce(input: Input, key: Key, m: Measure, i: nat)
    requires i < |input.sessions|
  {
    input.sessions[i].id == "" && VisitsOf(input, i, key) > 1 ==> Amount(m, input.sessions[i]) == 0
  }

  lemma ShareIsOnce(input: Input, key: Key, m: Measure, i: nat)
    requires i < |input.sessions| && Amount(m, input.sessions[i]) >= 0
    ensures var h, a := VisitsOf(input, i, key), Amount(m, input.sessions[i]);
            var share, once := Share(input.sessions, m, h, i), if h > 0 then a else 0;
            share >= once && (share == once <==> CountsOnce(input, key, m, i))
  {
    hide VisitsOf, Amount;
    ShareOnce(VisitsOf(input, i, key), Amount(m, input.sessions[i]));
  }

  lemma ShareOnce(h: nat, a: int)
    requires a >= 0
    ensures h * a >= (if h > 0 then a else 0)
    ensures h * a == (if h > 0 then a else 0) <==> (h > 1 ==> a == 0)
  {
    if h > 1 {
      assert h * a == a + (h - 1) * a && (h - 1) * a >= a by {
        assert (h - 2) * a >= 0;
      }
    }
  }

  lemma {:induction false} SumEqualIff(n: nat, f: nat -> int, g: nat -> int)
    requires forall i: nat | i < n :: f(i) <= g(i)
    ensures Sum(n, f) <= Sum(n, g)
    ensures Sum(n, g) == Sum(n, f) <==> forall i: nat | i < n :: f(i) == g(i)
  {
    if n > 0 {
      SumEqualIff(n - 1, f, g);
      assert f(n - 1) <= g(n - 1);
    }
  }

  /** One session without an id, with one turn and two events of a type. */
  function TwoEvents(): Input {
    var e := Event("e", "", "", false, "");
    Input([Session("", "", "", "", 0, 0, 1, 0, "", "", "", None, [], [], [e, e])], map[], map[])
  }

  /** It happens: that one turn counts twice in the event's row. */
  lemma CountedTwice()
    ensures RowOf(FinalRows(TwoEvents()), Key(Events, "e")).turns == 2
    ensures PerSession(TwoEvents(), Key(Events, "e"), Turns) == 1
  {
    hide FinalRows, RowOf, VisitsOf, SumDelta;
    var input, key := TwoEvents(), Key(Events, "e");
    RowIsPerSession(input, key);
    TwoVisits();
    SumOfOne((i: nat) => if i < |input.sessions| then Share(input.sessions, Turns, VisitsOf(input, i, key), i) else 0);
    SumOfOne((i: nat) =>
      if i < |input.sessions| && VisitsOf(input, i, key) > 0 then Amount(Turns, input.sessions[i]) else 0);
  }

  lemma SumOfOne(f: nat -> int)
    ensures Sum(1, f) == f(0)
  {
    assert Sum(0, f) == 0;
  }

  lemma TwoVisits()
    ensures VisitsOf(TwoEvents(), 0, Key(Events, "e")) == 2
  {
    hide Plus;
    var names := ["e", "e"];
    assert Kinds(TwoEvents().sessions[0].events) == names;
    assert names[..1] == ["e"] && names[..1][..0] == [];
    assert NamesDelta([], "e", Call()) == Zero();
    assert NamesDelta(names[..1], "e", Call()) == Plus(Zero(), Call());
    assert NamesDelta(names, "e", Call()) == Plus(Plus(Zero(), Call()), Call());
    assert SessionDelta(TwoEvents(), 0, Key(Events, "e")) == Plus(Zero(), Plus(NamesDelta(names, "e", Call()), Zero()));
    TwoCalls();
  }

  lemma TwoCalls()
    ensures var d := Plus(Zero(), Plus(Plus(Plus(Zero(), Call()), Call()), Zero()));
            d.calls == 2 && d.requests == 0
  {
    hide Plus, Zero, Call;
    Counters();
    PlusCounts(Zero(), Call());
    PlusCounts(Plus(Zero(), Call()), Call());
    PlusCounts(Plus(Plus(Zero(), Call()), Call()), Zero());
    PlusCounts(Zero(), Plus(Plus(Plus(Zero(), Call()), Call()), Zero()));
  }

  lemma Counters()
    ensures Zero().calls == Zero().requests == Call().requests == 0 && Call().calls == 1
  {}

  lemma PlusCounts(a: Delta, b: Delta)
    ensures Plus(a, b).calls == a.calls + b.calls && Plus(a, b).requests == a.requests + b.requests
  {}

  // ---------- Counters that balance ----------

  /** Outcomes split the calls, an event has none, a failure row only fails, and cached tokens
      are some of the prompt's. */
  predicate Balanced(table: Table, d: Delta) {
    && 0 <= d.cached <= d.prompt
    && match table
       case Events => d.successes == 0 && d.failures == 0
       case Failures => d.successes == 0 && d.failures == d.calls
       case _ => d.successes + d.failures == d.calls
  }

  ghost predicate AllBalanced(touches: seq<Touch>) {
    forall k | 0 <= k < |touches| :: Balanced(touches[k].key.table, touches[k].delta)
  }

  lemma {:induction false} SumsBalanced(touches: seq<Touch>, key: Key)
    requires AllBalanced(touches)
    ensures Balanced(key.table, DeltaOf(touches, key)) && Balanced(key.table, TableDelta(touches, key.table))
  {
    if touches != [] {
      SumsBalanced(touches[..|touches| - 1], key);
    }
  }

  lemma BalancedConcat(a: seq<Touch>, b: seq<Touch>)
    requires AllBalanced(a) && AllBalanced(b)
    ensures AllBalanced(a + b)
  {}

  lemma {:induction false} NamesBalanced(table: Table, names: seq<string>, i: nat, delta: Delta)
    requires Balanced(table, delta)
    ensures AllBalanced(NameTouches(table, names, i, delta))
  {
    hide Balanced;
    if names != [] {
      NamesBalanced(table, names[..|names| - 1], i, delta);
    }
  }

  lemma {:induction false} ExecutionsBalanced(executions: seq<Execution>, i: nat)
    ensures AllBalanced(ExecutionTouches(executions, i))
  {
    if executions != [] {
      ExecutionsBalanced(executions[..|executions| - 1], i);
    }
  }

  lemma {:induction false} EntriesBalanced(entries: seq<Entry>, i: nat)
    ensures AllBalanced(EntriesTouches(entries, i))
  {
    hide AllBalanced, NameTouches, ExecutionTouches;
    assert AllBalanced([]) by {
      NamesBalanced(Events, [], i, Call());
      assert NameTouches(Events, [], i, Call()) == [] by { NoNames(Events, i); }
    }
    if entries != [] {
      var n := |entries| - 1;
      var e := entries[n];
      EntriesBalanced(entries[..n], i);
      NamesBalanced(Models, [e.model], i, RequestDelta(e));
      ExecutionsBalanced(e.executions, i);
      NamesBalanced(Events, Kinds(e.events), i, Call());
      var requests, calls := NameTouches(Models, [e.model], i, RequestDelta(e)), ExecutionTouches(e.executions, i);
      BalancedConcat(requests, calls);
      BalancedConcat(requests + calls, NameTouches(Events, Kinds(e.events), i, Call()));
      BalancedConcat(EntriesTouches(entries[..n], i), EntryTouches(e, i));
    }
  }

  lemma NoNames(table: Table, i: nat)
    ensures NameTouches(table, [], i, Call()) == []
  {}

  lemma DeltasBalanced(s: Session)
    ensures Balanced(Failures, OneFailure()) && Balanced(Events, Call())
    ensures Balanced(Models, OutcomeDelta(s)) && Balanced(Skills, OutcomeDelta(s))
  {}

  lemma SessionBalanced(input: Input, i: nat)
    requires i < |input.sessions|
    ensures AllBalanced(SessionTouches(input, i))
  {
    hide AllBalanced, NameTouches, EntriesTouches, FailureLabel, Balanced, OutcomeDelta, RunKinds;
    DeltasBalanced(input.sessions[i]);
    var s := input.sessions[i];
    var a := NameTouches(Failures, FailureNames(s), i, OneFailure());
    var b := NameTouches(Models, s.models, i, OutcomeDelta(s));
    var c := NameTouches(Skills, s.skills, i, OutcomeDelta(s));
    var d := EntriesTouches(EntriesOf(input, i), i);
    var e := NameTouches(Events, Kinds(s.events), i, Call());
    NamesBalanced(Failures, FailureNames(s), i, OneFailure());
    NamesBalanced(Models, s.models, i, OutcomeDelta(s));
    NamesBalanced(Skills, s.skills, i, OutcomeDelta(s));
    EntriesBalanced(EntriesOf(input, i), i);
    NamesBalanced(Events, Kinds(s.events), i, Call());
    NamesBalanced(Events, RunKinds(input, i), i, Call());
    BalancedConcat(a, b);
    BalancedConcat(a + b, c);
    BalancedConcat(a + b + c, d);
    BalancedConcat(a + b + c + d, e);
    BalancedConcat(a + b + c + d + e, NameTouches(Events, RunKinds(input, i), i, Call()));
  }

  lemma {:induction false} PassBalanced(input: Input, n: nat)
    requires n <= |input.sessions|
    ensures AllBalanced(PassTouches(input, n))
  {
    hide SessionTouches;
    if n > 0 {
      PassBalanced(input, n - 1);
      SessionBalanced(input, n - 1);
      BalancedConcat(PassTouches(input, n - 1), SessionTouches(input, n - 1));
    }
  }

  lemma {:induction false} VisitsBalanced(key: Key, who: seq<nat>)
    requires key.table == Failures
    ensures AllBalanced(Visits(key, who))
  {
    if who != [] {
      VisitsBalanced(key, who[..|who| - 1]);
    }
  }

  lemma {:induction false} LateBalanced(input: Input, runs: seq<string>)
    ensures AllBalanced(LateTouches(input, runs))
  {
    hide LateLabel, Visits;
    if runs != [] {
      var run := runs[|runs| - 1];
      LateBalanced(input, runs[..|runs| - 1]);
      if LateLabel(input, run).Some? {
        VisitsBalanced(Key(Failures, LateLabel(input, run).value), RunSessions(input.sessions, |input.sessions|, run));
      }
    }
  }

  /** In every row the counters balance, and so they do in a whole table. */
  lemma RowsBalance(input: Input, key: Key)
    ensures Balanced(key.table, RowOf(FinalRows(input), key).sums)
    ensures Balanced(key.table, TableDelta(Touches(input), key.table))
  {
    hide PassTouches, LateTouches, Balanced, Tally, RowOf, AllBalanced, DeltaOf, TableDelta;
    PassBalanced(input, |input.sessions|);
    var runs := VerdictRuns(input, |input.sessions|);
    LateBalanced(input, runs);
    BalancedConcat(PassTouches(input, |input.sessions|), LateTouches(input, runs));
    SumsBalanced(Touches(input), key);
    TouchesMade(input, key);
    RowSums(input.sessions, Touches(input), key);
  }

  // ---------- Events and failures ----------

  ghost function Count(names: seq<string>, name: string): nat {
    if names == [] then 0 else Count(names[..|names| - 1], name) + (if names[|names| - 1] == name then 1 else 0)
  }

  /** Events of a type in the turns of a session. */
  ghost function TurnEvents(entries: seq<Entry>, kind: string): nat {
    if entries == [] then 0
    else TurnEvents(entries[..|entries| - 1], kind) + Count(Kinds(entries[|entries| - 1].events), kind)
  }

  /** Events of a type in the first n sessions and their turns. */
  ghost function SessionEvents(input: Input, n: nat, kind: string): nat
    requires n <= |input.sessions|
  {
    if n == 0 then 0
    else
      SessionEvents(input, n - 1, kind) + TurnEvents(EntriesOf(input, n - 1), kind)
      + Count(Kinds(input.sessions[n - 1].events), kind)
  }

  /** The runs of the first n sessions, each once. */
  ghost function RunsOf(sessions: seq<Session>, n: nat): seq<string>
    requires n <= |sessions|
  {
    if n == 0 then []
    else RunsOf(sessions, n - 1) + (if FirstOfRun(sessions, n - 1) then [sessions[n - 1].runId] else [])
  }

  ghost function RunEventCount(input: Input, runs: seq<string>, kind: string): nat {
    if runs == [] then 0
    else RunEventCount(input, runs[..|runs| - 1], kind) + Count(Kinds(RunEventsOf(input, runs[|runs| - 1])), kind)
  }

  ghost predicate RunAmong(sessions: seq<Session>, n: nat, run: string)
    requires n <= |sessions|
  {
    exists i :: 0 <= i < n && sessions[i].runId == run
  }

  lemma RunAmongNext(sessions: seq<Session>, n: nat, run: string)
    requires n < |sessions|
    ensures RunAmong(sessions, n + 1, run) <==> RunAmong(sessions, n, run) || sessions[n].runId == run
    ensures FirstOfRun(sessions, n) <==> sessions[n].runId != "" && !RunAmong(sessions, n, sessions[n].runId)
  {}

  lemma {:induction false} RunsOnce(sessions: seq<Session>, n: nat)
    requires n <= |sessions|
    ensures DistinctRuns(RunsOf(sessions, n))
    ensures forall run :: run in RunsOf(sessions, n) <==> run != "" && RunAmong(sessions, n, run)
  {
    hide FirstOfRun;
    if n > 0 {
      hide RunAmong;
      RunsOnce(sessions, n - 1);
      var last := sessions[n - 1].runId;
      forall run ensures RunAmong(sessions, n, run) <==> RunAmong(sessions, n - 1, run) || last == run {
        RunAmongNext(sessions, n - 1, run);
      }
      RunAmongNext(sessions, n - 1, last);
    }
  }

  lemma {:induction false} NamesCounted(names: seq<string>, name: string)
    ensures NamesDelta(names, name, Call()).calls == Count(names, name)
  {
    if names != [] {
      NamesCounted(names[..|names| - 1], name);
    }
  }

  lemma {:induction false} TurnsCounted(entries: seq<Entry>, kind: string)
    ensures EntriesDelta(entries, Key(Events, kind)).calls == TurnEvents(entries, kind)
  {
    hide NamesDelta, Count;
    if entries != [] {
      TurnsCounted(entries[..|entries| - 1], kind);
      NamesCounted(Kinds(entries[|entries| - 1].events), kind);
    }
  }

  lemma {:induction false} EventsCounted(input: Input, n: nat, kind: string)
    requires n <= |input.sessions| && kind != ""
    ensures SumDelta(input, n, Key(Events, kind)).calls
         == SessionEvents(input, n, kind) + RunEventCount(input, RunsOf(input.sessions, n), kind)
  {
    hide SessionDelta, RunsOf, RunEventCount, Count, TurnEvents, RunKinds;
    if n == 0 {
      assert RunEventCount(input, RunsOf(input.sessions, 0), kind) == 0 by { NoRuns(input, kind); }
    } else {
      EventsCounted(input, n - 1, kind);
      EventsBrought(input, n - 1, kind);
      RunCounted(input, n, kind);
    }
  }

  lemma NoRuns(input: Input, kind: string)
    ensures RunEventCount(input, RunsOf(input.sessions, 0), kind) == 0
  {}

  lemma EventsBrought(input: Input, i: nat, kind: string)
    requires i < |input.sessions| && kind != ""
    ensures SessionDelta(input, i, Key(Events, kind)).calls
         == TurnEvents(EntriesOf(input, i), kind) + Count(Kinds(input.sessions[i].events), kind)
            + Count(RunKinds(input, i), kind)
  {
    hide NamesDelta, Count, EntriesDelta, TurnEvents, RunKinds;
    TurnsCounted(EntriesOf(input, i), kind);
    NamesCounted(Kinds(input.sessions[i].events), kind);
    NamesCounted(RunKinds(input, i), kind);
  }

  lemma RunCounted(input: Input, n: nat, kind: string)
    requires 0 < n <= |input.sessions|
    ensures RunEventCount(input, RunsOf(input.sessions, n), kind)
         == RunEventCount(input, RunsOf(input.sessions, n - 1), kind) + Count(RunKinds(input, n - 1), kind)
  {
    hide FirstOfRun;
    var runs := RunsOf(input.sessions, n - 1);
    var run := input.sessions[n - 1].runId;
    if FirstOfRun(input.sessions, n - 1) {
      assert (runs + [run])[..|runs|] == runs;
    } else {
      assert RunsOf(input.sessions, n) == runs;
    }
  }

  /** An event row counts the events of every selected session and turn, and those of every
      selected run once, however many of its sessions are selected. */
  lemma EventRow(input: Input, kind: string)
    requires kind != ""
    ensures RowOf(FinalRows(input), Key(Events, kind)).sums.calls
         == SessionEvents(input, |input.sessions|, kind)
            + RunEventCount(input, RunsOf(input.sessions, |input.sessions|), kind)
  {
    hide SumDelta, FinalRows, RowOf, Charged, VerdictRuns, VisitsOf;
    RowCounters(input, Key(Events, kind));
    EventsCounted(input, |input.sessions|, kind);
  }

  ghost function LabelledSessions(sessions: seq<Session>, n: nat, name: string): nat
    requires n <= |sessions|
  {
    if n == 0 then 0
    else LabelledSessions(sessions, n - 1, name) + (if FailureLabel(sessions[n - 1]) == Some(name) then 1 else 0)
  }

  lemma {:induction false} FailuresCounted(input: Input, n: nat, name: string)
    requires n <= |input.sessions| && name != ""
    ensures SumDelta(input, n, Key(Failures, name)).failures == LabelledSessions(input.sessions, n, name)
  {
    hide FailureLabel, EntriesDelta;
    if n > 0 {
      FailuresCounted(input, n - 1, name);
    }
  }

  /** A failure row counts the sessions that carry the label, and the runs whose verdict is that
      failure while none of their sessions carries it. */
  lemma FailureRow(input: Input, name: string)
    requires name != ""
    ensures var sums := RowOf(FinalRows(input), Key(Failures, name)).sums;
            && sums.failures == sums.calls
            && sums.failures == LabelledSessions(input.sessions, |input.sessions|, name)
                              + Charged(input, VerdictRuns(input, |input.sessions|), name)
  {
    hide SumDelta, FinalRows, RowOf, Charged, VerdictRuns, LabelledSessions, TableDelta, VisitsOf;
    RowCounters(input, Key(Failures, name));
    FailuresCounted(input, |input.sessions|, name);
    RowsBalance(input, Key(Failures, name));
  }

  // ---------- The selection ----------

  function Keep(sessions: seq<Session>, keep: Session -> bool): seq<Session> {
    if sessions == [] then []
    else (if keep(sessions[0]) then [sessions[0]] else []) + Keep(sessions[1..], keep)
  }

  /** Newest first, then by id. */
  function NewestFirst(before: (string, string) -> bool): (Session, Session) -> bool {
    (a: Session, b: Session) => a.start > b.start || (a.start == b.start && before(a.id, b.id))
  }

  function Selected(sessions: seq<Session>, keep: Session -> bool, before: (string, string) -> bool): seq<Session> {
    Sorting.Sort(Keep(sessions, keep), NewestFirst(before))
  }

  ghost predicate DifferentIds(sessions: seq<Session>) {
    forall i, j | 0 <= i < j < |sessions| :: sessions[i].id != sessions[j].id
  }

  ghost predicate Ranks(before: (string, string) -> bool) {
    Sorting.StrictOrder(before) && forall a, b :: a == b || before(a, b) || before(b, a)
  }

  lemma {:induction false} KeepMembers(sessions: seq<Session>, keep: Session -> bool)
    ensures forall s :: s in Keep(sessions, keep) <==> s in sessions && keep(s)
    ensures DifferentIds(sessions) ==> DifferentIds(Keep(sessions, keep))
  {
    if sessions != [] {
      KeepMembers(sessions[1..], keep);
      var rest := Keep(sessions[1..], keep);
      assert sessions == [sessions[0]] + sessions[1..];
      if DifferentIds(sessions) {
        forall s | s in rest ensures s.id != sessions[0].id {
          var j :| 0 <= j < |sessions[1..]| && sessions[1..][j] == s;
          assert sessions[j + 1] == s;
        }
      }
    }
  }

  /** The sessions that pass the filter, the newest first, and those of one start time by id. */
  lemma SelectedIs(sessions: seq<Session>, keep: Session -> bool, before: (string, string) -> bool)
    requires Ranks(before) && DifferentIds(sessions)
    ensures var selected := Selected(sessions, keep, before);
            && (forall s :: s in selected <==> s in sessions && keep(s))
            && forall i, j | 0 <= i < j < |selected| ::
                 || selected[i].start > selected[j].start
                 || (selected[i].start == selected[j].start && before(selected[i].id, selected[j].id))
  {
    KeepMembers(sessions, keep);
    NewestFirstOrders(before);
    NoTiesAmong(Keep(sessions, keep), before);
    Sorting.SortOrdered(Keep(sessions, keep), NewestFirst(before));
  }

  /** The response depends only on the set of sessions: any rearrangement of them selects the same
      sessions in the same order, and with that order everything else is determined. */
  lemma SelectionIgnoresOrder(a: seq<Session>, b: seq<Session>, keep: Session -> bool, before: (string, string) -> bool)
    requires Ranks(before) && DifferentIds(a) && DifferentIds(b) && forall s :: s in a <==> s in b
    ensures Selected(a, keep, before) == Selected(b, keep, before)
  {
    KeepMembers(a, keep);
    KeepMembers(b, keep);
    NewestFirstOrders(before);
    NoTiesAmong(Keep(a, keep), before);
    NoTiesAmong(Keep(b, keep), before);
    Sorting.SortIgnoresOrder(Keep(a, keep), Keep(b, keep), NewestFirst(before));
  }

  lemma NewestFirstOrders(before: (string, string) -> bool)
    requires Ranks(before)
    ensures Sorting.StrictOrder(NewestFirst(before))
  {
    var less := NewestFirst(before);
    assert forall x: Session :: !before(x.id, x.id);
    forall x, y, z | less(x, y) && less(y, z) ensures less(x, z) {
      assert before(x.id, y.id) && before(y.id, z.id) ==> before(x.id, z.id);
    }
  }

  lemma NoTiesAmong(sessions: seq<Session>, before: (string, string) -> bool)
    requires Ranks(before) && DifferentIds(sessions)
    ensures Sorting.NoTies(sessions, NewestFirst(before))
  {
    forall i, j | 0 <= i < j < |sessions|
      ensures NewestFirst(before)(sessions[i], sessions[j]) || NewestFirst(before)(sessions[j], sessions[i])
    {
      assert before(sessions[i].id, sessions[j].id) || before(sessions[j].id, sessions[i].id);
    }
  }

  // ---------- The summary ----------

  /** Escalations of a session: how many fired, and how they ended. */
  datatype Escalations = Escalations(fires: nat, rescued: nat, failedFast: nat, exhausted: nat)

  function CountEscalation(before: Escalations, e: Event): Escalations {
    if e.kind == "escalation" || (e.kind == "stuck_signal" && e.dataKind == "escalate") then
      before.(fires := before.fires + 1)
    else if e.kind == "escalation_outcome" && e.outcome == "rescued" then before.(rescued := before.rescued + 1)
    else if e.kind == "escalation_outcome" && e.outcome == "failed_fast" then
      before.(failedFast := before.failedFast + 1)
    else if e.kind == "escalation_outcome" && e.outcome == "budget_exhausted" then
      before.(exhausted := before.exhausted + 1)
    else before
  }

  function EscalationsIn(events: seq<Event>): Escalations {
    if events == [] then Escalations(0, 0, 0, 0)
    else CountEscalation(EscalationsIn(events[..|events| - 1]), events[|events| - 1])
  }

  function EventsOf(entries: seq<Entry>): seq<Event> {
    if entries == [] then [] else EventsOf(entries[..|entries| - 1]) + entries[|entries| - 1].events
  }

  /** Durations, handoffs and escalations. `stuck` counts the sessions that ran out of turns without
      useful progress to hand over. */
  datatype Signals = Signals(duration: int, handoffs: int, outOfTurnsWithHandoff: int, stuck: int, escalated: int,
                             fires: int, rescued: int, failedFast: int, exhausted: int)

  function NoSignals(): Signals {
    Signals(0, 0, 0, 0, 0, 0, 0, 0, 0)
  }

  function PlusSignals(a: Signals, b: Signals): Signals {
    Signals(a.duration + b.duration, a.handoffs + b.handoffs, a.outOfTurnsWithHandoff + b.outOfTurnsWithHandoff,
            a.stuck + b.stuck, a.escalated + b.escalated, a.fires + b.fires, a.rescued + b.rescued,
            a.failedFast + b.failedFast, a.exhausted + b.exhausted)
  }

  lemma SignalsLaws(a: Signals, b: Signals, c: Signals)
    ensures PlusSignals(a, PlusSignals(b, c)) == PlusSignals(PlusSignals(a, b), c)
    ensures PlusSignals(a, NoSignals()) == a
  {}

  predicate OutOfTurns(s: Session) {
    s.outcome == "max_turns"
  }

  function SignalsOf(s: Session, escalations: Escalations): Signals {
    var stuck := OutOfTurns(s) && (s.handoff.None? || !s.handoff.value);
    Signals(if s.end > s.start then s.end - s.start else 0,
            if s.handoff.Some? then 1 else 0,
            if s.handoff.Some? && OutOfTurns(s) then 1 else 0,
            if stuck then 1 else 0,
            if escalations.fires > 0 then 1 else 0,
            escalations.fires, escalations.rescued, escalations.failedFast, escalations.exhausted)
  }

  datatype Totals = Totals(completed: int, turns: int, cost: int, toolCalls: int, toolFailures: int, requests: int,
                           prompt: int, completion: int, cached: int, total: int,
                           llmDuration: int, llmTimed: int, money: Money, signals: Signals)

  function NoTotals(): Totals {
    Totals(0, 0, 0, 0, 0, 0, 0, 0, 0, 0, 0, 0, NoMoney(), NoSignals())
  }

  function Add(a: Totals, b: Totals): Totals {
    Totals(a.completed + b.completed, a.turns + b.turns, a.cost + b.cost, a.toolCalls + b.toolCalls,
           a.toolFailures + b.toolFailures, a.requests + b.requests, a.prompt + b.prompt,
           a.completion + b.completion, a.cached + b.cached, a.total + b.total,
           a.llmDuration + b.llmDuration, a.llmTimed + b.llmTimed,
           PlusMoney(a.money, b.money), PlusSignals(a.signals, b.signals))
  }

  lemma AddLaws(a: Totals, b: Totals, c: Totals)
    ensures Add(a, Add(b, c)) == Add(Add(a, b), c) && Add(a, NoTotals()) == a
  {
    hide PlusMoney, NoMoney, PlusSignals, NoSignals;
    MoneyLaws(a.money, b.money, c.money);
    SignalsLaws(a.signals, b.signals, c.signals);
  }

  function OwnTotals(s: Session, escalations: Escalations): Totals {
    Totals(if Succeeded(s.outcome) then 1 else 0, s.turns, s.cost, 0, 0, 0, 0, 0, 0, 0, 0, 0, NoMoney(),
           SignalsOf(s, escalations))
  }

  /** A session's own part, with the escalations among its turns' events and its own. */
  function SessionTotals(s: Session, entries: seq<Entry>): Totals {
    OwnTotals(s, EscalationsIn(EventsOf(entries) + s.events))
  }

  function RequestTotals(e: Entry): Totals {
    var prompt := PromptTokens(e.usage);
    Totals(0, 0, 0, 0, 0, if e.asked then 1 else 0,
           prompt, CompletionTokens(e.usage), CachedTokens(e.usage, prompt), TotalTokens(e.usage),
           if e.duration > 0 then e.duration else 0, if e.duration > 0 then 1 else 0, MoneyOf(e), NoSignals())
  }

  function ExecutionTotals(e: Execution): Totals {
    if e.tool == "" then NoTotals()
    else Totals(0, 0, 0, 1, if e.success then 0 else 1, 0, 0, 0, 0, 0, 0, 0, NoMoney(), NoSignals())
  }

  function ExecutionsTotals(executions: seq<Execution>): Totals {
    if executions == [] then NoTotals()
    else Add(ExecutionsTotals(executions[..|executions| - 1]), ExecutionTotals(executions[|executions| - 1]))
  }

  function EntriesTotals(entries: seq<Entry>): Totals {
    if entries == [] then NoTotals()
    else
      var e := entries[|entries| - 1];
      Add(Add(EntriesTotals(entries[..|entries| - 1]), RequestTotals(e)), ExecutionsTotals(e.executions))
  }

  function Summary(input: Input, n: nat): Totals
    requires n <= |input.sessions|
  {
    if n == 0 then NoTotals()
    else
      var entries := EntriesOf(input, n - 1);
      Add(Add(Summary(input, n - 1), SessionTotals(input.sessions[n - 1], entries)), EntriesTotals(entries))
  }

  /** What a list of touches put into the tool table. */
  ghost predicate ToolSums(touches: seq<Touch>, calls: int, failures: int) {
    TableDelta(touches, Tools).calls == calls && TableDelta(touches, Tools).failures == failures
  }

  lemma ToolSumsConcat(a: seq<Touch>, c: int, f: int, b: seq<Touch>, d: int, g: int)
    requires ToolSums(a, c, f) && ToolSums(b, d, g)
    ensures ToolSums(a + b, c + d, f + g)
  {
    TableConcat(a, b, Tools);
    hide TableDelta;
  }

  lemma ToolSumsAppend(touches: seq<Touch>, c: int, f: int, t: Touch)
    requires ToolSums(touches, c, f)
    ensures if t.key.table == Tools then ToolSums(touches + [t], c + t.delta.calls, f + t.delta.failures)
            else ToolSums(touches + [t], c, f)
  {
    assert (touches + [t])[..|touches|] == touches;
  }

  lemma EmptyTools()
    ensures ToolSums([], 0, 0)
  {}

  lemma {:induction false} NoToolNames(table: Table, names: seq<string>, i: nat, delta: Delta)
    requires table != Tools
    ensures ToolSums(NameTouches(table, names, i, delta), 0, 0)
  {
    hide ToolSums;
    EmptyTools();
    if names != [] {
      var n := |names| - 1;
      var front := NameTouches(table, names[..n], i, delta);
      NoToolNames(table, names[..n], i, delta);
      if names[n] == "" {
        assert front + [] == front;
      } else {
        ToolSumsAppend(front, 0, 0, Touch(Key(table, names[n]), Some(i), delta));
      }
    }
  }

  lemma AddTools(a: Totals, b: Totals)
    ensures Add(a, b).toolCalls == a.toolCalls + b.toolCalls
            && Add(a, b).toolFailures == a.toolFailures + b.toolFailures
  {}

  lemma {:induction false} ToolsOfExecutions(executions: seq<Execution>, i: nat)
    ensures ToolSums(ExecutionTouches(executions, i),
                     ExecutionsTotals(executions).toolCalls, ExecutionsTotals(executions).toolFailures)
  {
    hide ToolSums, Add;
    EmptyTools();
    if executions != [] {
      var front, e := executions[..|executions| - 1], executions[|executions| - 1];
      var before := ExecutionTouches(front, i);
      ToolsOfExecutions(front, i);
      AddTools(ExecutionsTotals(front), ExecutionTotals(e));
      if e.tool == "" {
        assert before + [] == before;
      } else {
        ToolSumsAppend(before, ExecutionsTotals(front).toolCalls, ExecutionsTotals(front).toolFailures,
                       Touch(Key(Tools, e.tool), Some(i), ExecutionDelta(e)));
      }
    }
  }

  lemma ToolsOfEntry(e: Entry, i: nat)
    ensures ToolSums(EntryTouches(e, i), ExecutionsTotals(e.executions).toolCalls,
                     ExecutionsTotals(e.executions).toolFailures)
  {
    hide ToolSums, NameTouches, ExecutionTouches, ExecutionsTotals;
    var requests, calls := NameTouches(Models, [e.model], i, RequestDelta(e)), ExecutionTouches(e.executions, i);
    var t := ExecutionsTotals(e.executions);
    NoToolNames(Models, [e.model], i, RequestDelta(e));
    NoToolNames(Events, Kinds(e.events), i, Call());
    ToolsOfExecutions(e.executions, i);
    ToolSumsConcat(requests, 0, 0, calls, t.toolCalls, t.toolFailures);
    ToolSumsConcat(requests + calls, t.toolCalls, t.toolFailures,
                   NameTouches(Events, Kinds(e.events), i, Call()), 0, 0);
  }

  lemma {:induction false} ToolsOfEntries(entries: seq<Entry>, i: nat)
    ensures ToolSums(EntriesTouches(entries, i), EntriesTotals(entries).toolCalls, EntriesTotals(entries).toolFailures)
  {
    hide ToolSums, Add, EntryTouches, ExecutionsTotals, RequestTotals;
    EmptyTools();
    if entries != [] {
      var front, e := entries[..|entries| - 1], entries[|entries| - 1];
      var t, u := EntriesTotals(front), ExecutionsTotals(e.executions);
      ToolsOfEntries(front, i);
      ToolsOfEntry(e, i);
      ToolSumsConcat(EntriesTouches(front, i), t.toolCalls, t.toolFailures,
                     EntryTouches(e, i), u.toolCalls, u.toolFailures);
      RequestsAreNoTools(e);
      AddTools(t, RequestTotals(e));
      AddTools(Add(t, RequestTotals(e)), u);
    }
  }

  lemma RequestsAreNoTools(e: Entry)
    ensures RequestTotals(e).toolCalls == 0 && RequestTotals(e).toolFailures == 0
  {}

  lemma ToolsOfSession(input: Input, i: nat)
    requires i < |input.sessions|
    ensures var t := EntriesTotals(EntriesOf(input, i)); ToolSums(SessionTouches(input, i), t.toolCalls, t.toolFailures)
  {
    hide ToolSums, NameTouches, EntriesTouches, EntriesTotals, FailureLabel, RunKinds, OutcomeDelta;
    var s := input.sessions[i];
    var t := EntriesTotals(EntriesOf(input, i));
    var a := NameTouches(Failures, FailureNames(s), i, OneFailure());
    var b := NameTouches(Models, s.models, i, OutcomeDelta(s));
    var c := NameTouches(Skills, s.skills, i, OutcomeDelta(s));
    var d := EntriesTouches(EntriesOf(input, i), i);
    var e := NameTouches(Events, Kinds(s.events), i, Call());
    NoToolNames(Failures, FailureNames(s), i, OneFailure());
    NoToolNames(Models, s.models, i, OutcomeDelta(s));
    NoToolNames(Skills, s.skills, i, OutcomeDelta(s));
    ToolsOfEntries(EntriesOf(input, i), i);
    NoToolNames(Events, Kinds(s.events), i, Call());
    NoToolNames(Events, RunKinds(input, i), i, Call());
    ToolSumsConcat(a, 0, 0, b, 0, 0);
    ToolSumsConcat(a + b, 0, 0, c, 0, 0);
    ToolSumsConcat(a + b + c, 0, 0, d, t.toolCalls, t.toolFailures);
    ToolSumsConcat(a + b + c + d, t.toolCalls, t.toolFailures, e, 0, 0);
    ToolSumsConcat(a + b + c + d + e, t.toolCalls, t.toolFailures,
                   NameTouches(Events, RunKinds(input, i), i, Call()), 0, 0);
  }

  lemma {:induction false} ToolsOfPass(input: Input, n: nat)
    requires n <= |input.sessions|
    ensures ToolSums(PassTouches(input, n), Summary(input, n).toolCalls, Summary(input, n).toolFailures)
  {
    hide ToolSums, SessionTouches, EntriesTotals, Add, SessionTotals;
    EmptyTools();
    if n > 0 {
      var s, t := input.sessions[n - 1], EntriesTotals(EntriesOf(input, n - 1));
      var before := Summary(input, n - 1);
      ToolsOfPass(input, n - 1);
      ToolsOfSession(input, n - 1);
      ToolSumsConcat(PassTouches(input, n - 1), before.toolCalls, before.toolFailures,
                     SessionTouches(input, n - 1), t.toolCalls, t.toolFailures);
      var own := SessionTotals(s, EntriesOf(input, n - 1));
      OutcomesAreNoTools(s, EntriesOf(input, n - 1));
      AddTools(before, own);
      AddTools(Add(before, own), t);
    }
  }

  lemma OutcomesAreNoTools(s: Session, entries: seq<Entry>)
    ensures SessionTotals(s, entries).toolCalls == 0 && SessionTotals(s, entries).toolFailures == 0
  {}

  lemma {:induction false} NoToolVisits(key: Key, who: seq<nat>)
    requires key.table == Failures
    ensures ToolSums(Visits(key, who), 0, 0)
  {
    hide ToolSums;
    EmptyTools();
    if who != [] {
      NoToolVisits(key, who[..|who| - 1]);
      ToolSumsAppend(Visits(key, who[..|who| - 1]), 0, 0, Touch(key, Some(who[|who| - 1]), Zero()));
    }
  }

  lemma {:induction false} NoLateTools(input: Input, runs: seq<string>)
    ensures ToolSums(LateTouches(input, runs), 0, 0)
  {
    hide ToolSums, LateLabel, Visits, RunSessions;
    EmptyTools();
    if runs != [] {
      var front, run := runs[..|runs| - 1], runs[|runs| - 1];
      NoLateTools(input, front);
      if LateLabel(input, run).Some? {
        var row := Key(Failures, LateLabel(input, run).value);
        var who := RunSessions(input.sessions, |input.sessions|, run);
        NoToolVisits(row, who);
        ToolSumsAppend(Visits(row, who), 0, 0, Touch(row, None, OneFailure()));
      }
      ToolSumsConcat(LateTouches(input, front), 0, 0, LateOf(input, run), 0, 0);
    }
  }

  /** The tool rows add up to the summary's tool calls and failures. */
  lemma ToolRowsMakeTheSummary(input: Input)
    ensures var rows := FinalRows(input);
            var totals := Summary(input, |input.sessions|);
            && InOrder(rows)
            && OrderSum(rows.order, rows.row, Tools).calls == totals.toolCalls
            && OrderSum(rows.order, rows.row, Tools).failures == totals.toolFailures
  {
    hide ToolSums, PassTouches, LateTouches, Summary, Tally, OrderSum, InOrder;
    var n := |input.sessions|;
    var runs := VerdictRuns(input, n);
    var totals := Summary(input, n);
    TouchesMade(input, Key(Tools, ""));
    ToolsOfPass(input, n);
    NoLateTools(input, runs);
    ToolSumsConcat(PassTouches(input, n), totals.toolCalls, totals.toolFailures, LateTouches(input, runs), 0, 0);
    ToolTable(Touches(input), totals.toolCalls, totals.toolFailures);
    TableAddsUp(input.sessions, Touches(input), Tools);
  }

  lemma ToolTable(touches: seq<Touch>, calls: int, failures: int)
    requires ToolSums(touches, calls, failures)
    ensures TableDelta(touches, Tools).calls == calls && TableDelta(touches, Tools).failures == failures
  {}

  lemma {:induction false} EntriesCached(entries: seq<Entry>)
    ensures 0 <= EntriesTotals(entries).cached <= EntriesTotals(entries).prompt
  {
    if entries != [] {
      EntriesCached(entries[..|entries| - 1]);
      NoTokens(entries[|entries| - 1].executions);
    }
  }

  lemma {:induction false} NoTokens(executions: seq<Execution>)
    ensures ExecutionsTotals(executions).cached == ExecutionsTotals(executions).prompt == 0
  {
    if executions != [] {
      NoTokens(executions[..|executions| - 1]);
    }
  }

  lemma AddTokens(a: Totals, b: Totals, c: Totals)
    ensures Add(Add(a, b), c).cached == a.cached + b.cached + c.cached
    ensures Add(Add(a, b), c).prompt == a.prompt + b.prompt + c.prompt
  {}

  lemma OwnTokens(s: Session, entries: seq<Entry>)
    ensures SessionTotals(s, entries).cached == SessionTotals(s, entries).prompt == 0
  {}

  /** In the summary too, cached tokens are some of the prompt's. */
  lemma {:induction false} SummaryCached(input: Input, n: nat)
    requires n <= |input.sessions|
    ensures 0 <= Summary(input, n).cached <= Summary(input, n).prompt
  {
    hide Add, SessionTotals, EntriesTotals;
    if n > 0 {
      SummaryCached(input, n - 1);
      var s, entries := input.sessions[n - 1], EntriesOf(input, n - 1);
      EntriesCached(entries);
      OwnTokens(s, entries);
      AddTokens(Summary(input, n - 1), SessionTotals(s, entries), EntriesTotals(entries));
    }
  }

  ghost function OutOfTurnsCount(sessions: seq<Session>, n: nat): nat
    requires n <= |sessions|
  {
    if n == 0 then 0 else OutOfTurnsCount(sessions, n - 1) + (if OutOfTurns(sessions[n - 1]) then 1 else 0)
  }

  ghost function UsefulHandoffs(sessions: seq<Session>, n: nat): nat
    requires n <= |sessions|
  {
    if n == 0 then 0
    else
      var s := sessions[n - 1];
      UsefulHandoffs(sessions, n - 1) + (if OutOfTurns(s) && s.handoff == Some(true) then 1 else 0)
  }

  lemma AddSignals(a: Totals, b: Totals, c: Totals)
    ensures Add(Add(a, b), c).signals == PlusSignals(PlusSignals(a.signals, b.signals), c.signals)
  {
    hide PlusSignals, PlusMoney;
  }

  lemma {:induction false} NoEntrySignals(entries: seq<Entry>)
    ensures EntriesTotals(entries).signals == NoSignals()
  {
    hide PlusSignals, NoSignals, ExecutionsTotals, RequestTotals, Add;
    if entries == [] {
      NothingSignals();
    } else {
      var front, e := entries[..|entries| - 1], entries[|entries| - 1];
      NoEntrySignals(front);
      NoExecutionSignals(e.executions);
      RequestSignals(e);
      AddSignals(EntriesTotals(front), RequestTotals(e), ExecutionsTotals(e.executions));
      SignalsLaws(NoSignals(), NoSignals(), NoSignals());
    }
  }

  lemma NothingSignals()
    ensures NoTotals().signals == NoSignals()
  {}

  lemma RequestSignals(e: Entry)
    ensures RequestTotals(e).signals == NoSignals()
  {}

  lemma {:induction false} NoExecutionSignals(executions: seq<Execution>)
    ensures ExecutionsTotals(executions).signals == NoSignals()
  {
    hide PlusSignals, NoSignals, PlusMoney;
    if executions != [] {
      NoExecutionSignals(executions[..|executions| - 1]);
      SignalsLaws(NoSignals(), NoSignals(), NoSignals());
    }
  }

  /** The summary's handoff and escalation counts hang together: the sessions that ran out of turns
      are those stuck and those with useful progress to hand over, and a session escalates only by
      an escalation that fired. */
  lemma {:induction false} SignalsAddUp(input: Input, n: nat)
    requires n <= |input.sessions|
    ensures var s := Summary(input, n).signals;
            && s.stuck + UsefulHandoffs(input.sessions, n) == OutOfTurnsCount(input.sessions, n)
            && 0 <= s.outOfTurnsWithHandoff <= s.handoffs <= n
            && 0 <= s.escalated <= n && s.escalated <= s.fires
  {
    hide EntriesTotals, Add, EscalationsIn, PlusMoney;
    if n == 0 {
      NothingSignals();
    } else {
      SignalsAddUp(input, n - 1);
      var s, entries := input.sessions[n - 1], EntriesOf(input, n - 1);
      AddSignals(Summary(input, n - 1), SessionTotals(s, entries), EntriesTotals(entries));
      NoEntrySignals(entries);
    }
  }
}
