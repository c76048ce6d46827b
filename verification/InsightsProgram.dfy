/** The loops of the insights pass, against the touches and the summary of `Insights`. */
module InsightsProgram {
  import opened Wrappers
  import opened InsightRows
  import opened Insights
  import opened InsightGroups

  /** The runs met so far. */
  ghost predicate RunsMet(input: Input, n: nat, runs: map<string, RunGroup>)
    requires n <= |input.sessions|
  {
    forall run :: GroupAfter(input, n, run) == if run in runs then Some(runs[run]) else None
  }

  function WithTools(group: Option<RunGroup>, names: seq<string>): Option<RunGroup> {
    if group.None? then None else Some(group.value.(tools := Tallied(group.value.tools, names)))
  }

  function WithSkills(group: Option<RunGroup>, names: seq<string>): Option<RunGroup> {
    if group.None? then None else Some(group.value.(skills := Tallied(group.value.skills, names)))
  }

  lemma WithToolsLaws(group: Option<RunGroup>, a: seq<string>, b: seq<string>)
    ensures WithTools(group, []) == group
    ensures WithTools(group, a + b) == WithTools(WithTools(group, a), b)
  {
    hide Tallied;
    if group.Some? {
      TalliedConcat(group.value.tools, a, b);
      TalliedNone(group.value.tools);
    }
  }

  lemma TalliedNone(counts: map<string, nat>)
    ensures Tallied(counts, []) == counts
  {}

  lemma TalliedNext(counts: map<string, nat>, names: seq<string>, name: string)
    ensures Tallied(counts, names + [name]) == Counted(Tallied(counts, names), name)
  {
    assert (names + [name])[..|names|] == names;
  }

  ghost predicate VerdictsMet(input: Input, n: nat, order: seq<string>, verdicts: map<string, Verdict>)
    requires n <= |input.sessions|
  {
    && order == VerdictRuns(input, n)
    && forall run :: if run in order then run in verdicts && VerdictOf(RunEventsOf(input, run)) == Some(verdicts[run])
                     else run !in verdicts
  }

  lemma {:induction false} RunSessionsEmpty(sessions: seq<Session>, n: nat, run: string)
    requires n <= |sessions|
    ensures RunSessions(sessions, n, run) == [] <==> forall j | 0 <= j < n :: sessions[j].runId != run
  {
    if n > 0 {
      RunSessionsEmpty(sessions, n - 1, run);
    }
  }

  lemma {:induction false} LabelledAmong(sessions: seq<Session>, n: nat, run: string, reason: string)
    requires n <= |sessions|
    ensures (exists k :: k in RunSessions(sessions, n, run) && k < |sessions|
              && FailureLabel(sessions[k]) == Some(reason))
       <==> (exists k :: 0 <= k < n && sessions[k].runId == run && FailureLabel(sessions[k]) == Some(reason))
  {
    hide FailureLabel;
    if n > 0 {
      LabelledAmong(sessions, n - 1, run, reason);
    }
  }

  lemma SixParts<T>(first: seq<T>, a: seq<T>, b: seq<T>, c: seq<T>, d: seq<T>, e: seq<T>, f: seq<T>)
    ensures first + a + b + c + d + e + f == first + (a + b + c + d + e + f)
  {}

  lemma CallCounted(totals: Totals, e: Execution)
    ensures e.tool != "" ==>
              Add(totals, ExecutionTotals(e))
              == totals.(toolCalls := totals.toolCalls + 1,
                         toolFailures := totals.toolFailures + (if e.success then 0 else 1))
  {}

  lemma NoEntries(i: nat)
    ensures EntriesTouches([], i) == [] && EntriesTotals([]) == NoTotals()
    ensures ToolNames([]) == [] && ExecutionsOf([]) == []
  {}

  lemma OneMoreEntry(entries: seq<Entry>, e: Entry, i: nat)
    ensures EntriesTouches(entries + [e], i) == EntriesTouches(entries, i) + EntryTouches(e, i)
    ensures EntriesTotals(entries + [e])
         == Add(Add(EntriesTotals(entries), RequestTotals(e)), ExecutionsTotals(e.executions))
    ensures ToolNames(entries + [e]) == ToolNames(entries) + CalledTools(e.executions)
    ensures ExecutionsOf(entries + [e]) == ExecutionsOf(entries) + e.executions
  {
    hide EntryTouches, Add, RequestTotals, ExecutionsTotals, CalledTools;
    assert (entries + [e])[..|entries|] == entries;
  }

  lemma NoExecutions(i: nat)
    ensures ExecutionTouches([], i) == [] && ExecutionsTotals([]) == NoTotals() && CalledTools([]) == []
  {}

  lemma OneMoreExecution(executions: seq<Execution>, e: Execution, i: nat, samples: map<string, string>)
    ensures ExecutionTouches(executions + [e], i)
         == ExecutionTouches(executions, i)
            + (if e.tool == "" then [] else [Touch(Key(Tools, e.tool), Some(i), ExecutionDelta(e))])
    ensures ExecutionsTotals(executions + [e]) == Add(ExecutionsTotals(executions), ExecutionTotals(e))
    ensures CalledTools(executions + [e]) == CalledTools(executions) + [e.tool]
    ensures var before := Sampled(samples, executions);
            Sampled(samples, executions + [e])
            == if e.tool == "" || e.success || e.tool in before then before else before[e.tool := e.error]
  {
    hide Add, ExecutionTotals, ExecutionDelta;
    assert (executions + [e])[..|executions|] == executions;
  }

  class InsightsPass {
    const input: Input
    var rows: Rows
    var totals: Totals
    var facets: set<Facet>
    var runs: map<string, RunGroup>
    var samples: map<string, string>
    ghost var touches: seq<Touch>

    constructor (input: Input)
      ensures this.input == input && Valid() && touches == [] && totals == NoTotals() && facets == {} && runs == map[]
              && samples == map[]
    {
      this.input := input;
      rows, totals, facets, runs, samples, touches := Rows([], map[]), NoTotals(), {}, map[], map[], [];
    }

    /** The rows are those of the touches made so far. */
    ghost predicate Valid()
      reads this
    {
      WellNamed(input.sessions, touches) && rows == Tally(input.sessions, touches)
    }

    /** The row of a key, made if it is new, with a session recorded in it and counters added. */
    method Visit(key: Key, who: Option<nat>, delta: Delta)
      requires Valid() && (who.Some? ==> who.value < |input.sessions|)
      modifies this`rows, this`touches
      ensures Valid() && touches == old(touches) + [Touch(key, who, delta)]
    {
      ghost var t := Touch(key, who, delta);
      assert (touches + [t])[..|touches|] == touches;
      rows := WithRow(rows, key);
      var row := rows.row[key];
      if who.Some? {
        row := RecordSession(row, input.sessions[who.value]);
      }
      row := row.(sums := Plus(row.sums, delta));
      rows := rows.(row := rows.row[key := row]);
      touches := touches + [t];
    }

    method TouchNames(table: Table, names: seq<string>, i: nat, delta: Delta)
      requires Valid() && i < |input.sessions|
      modifies this`rows, this`touches
      ensures Valid() && touches == old(touches) + NameTouches(table, names, i, delta)
    {
      hide Tally, WellNamed;
      for k := 0 to |names|
        invariant Valid() && touches == old(touches) + NameTouches(table, names[..k], i, delta)
      {
        assert names[..k + 1][..k] == names[..k];
        if names[k] != "" {
          Visit(Key(table, names[k]), Some(i), delta);
        }
      }
      assert names[..|names|] == names;
    }

    /** Facets of one kind, for the names that are not empty. */
    method AddFacets(kind: FacetKind, names: seq<string>)
      modifies this`facets
      ensures facets == old(facets) + FacetsOf(kind, names)
    {
      for k := 0 to |names|
        invariant facets == old(facets) + FacetsOf(kind, names[..k])
      {
        assert names[..k + 1] == names[..k] + [names[k]];
        if names[k] != "" {
          facets := facets + {Facet(kind, names[k])};
        }
      }
      assert names[..|names|] == names;
    }

    method AddSessionFacets(i: nat)
      requires i < |input.sessions|
      modifies this`facets
      ensures facets == old(facets) + SessionFacets(input, i)
    {
      hide FacetsOf, ToolNames, EventsOf, Kinds, OwnRunKinds, FailureNames;
      var s, entries := input.sessions[i], EntriesOf(input, i);
      AddFacets(OfSession, [s.id]);
      AddFacets(OfRun, [s.runId]);
      AddFacets(OfDomain, [s.domain]);
      AddFacets(OfFailure, FailureNames(s));
      AddFacets(OfModel, s.models);
      AddFacets(OfSkill, s.skills);
      AddFacets(OfTool, ToolNames(entries));
      AddFacets(OfEvent, Kinds(EventsOf(entries)) + Kinds(s.events) + OwnRunKinds(input, i));
    }

    /** A turn's tool executions: a visit and a count in the summary and in the run for each, and the
        first failure of a tool for a sample. */
    method PassExecutions(executions: seq<Execution>, i: nat, group: Option<RunGroup>) returns (next: Option<RunGroup>)
      requires Valid() && i < |input.sessions|
      modifies this`rows, this`touches, this`totals, this`samples
      ensures Valid() && touches == old(touches) + ExecutionTouches(executions, i)
      ensures totals == Add(old(totals), ExecutionsTotals(executions))
      ensures next == WithTools(group, CalledTools(executions))
      ensures samples == Sampled(old(samples), executions)
    {
      hide Add, Tally, WellNamed, Counted, Tallied, NoTotals, ExecutionDelta, ExecutionTouches, ExecutionsTotals,
           CalledTools, Sampled, CountIn;
      AddLaws(totals, totals, totals);
      WithToolsLaws(group, [], []);
      NoExecutions(i);
      NothingSampled(samples);
      assert executions[..0] == [];
      next := group;
      for k := 0 to |executions|
        invariant Valid() && touches == old(touches) + ExecutionTouches(executions[..k], i)
        invariant totals == Add(old(totals), ExecutionsTotals(executions[..k]))
        invariant next == WithTools(group, CalledTools(executions[..k]))
        invariant samples == Sampled(old(samples), executions[..k])
      {
        var e := executions[k];
        assert executions[..k + 1] == executions[..k] + [e];
        OneMoreExecution(executions[..k], e, i, old(samples));
        AddLaws(old(totals), ExecutionsTotals(executions[..k]), ExecutionTotals(e));
        CallCounted(totals, e);
        AddLaws(totals, totals, totals);
        if e.tool != "" {
          Visit(Key(Tools, e.tool), Some(i), ExecutionDelta(e));
          totals := totals.(toolCalls := totals.toolCalls + 1,
                            toolFailures := totals.toolFailures + (if e.success then 0 else 1));
          if !e.success && e.tool !in samples {
            samples := samples[e.tool := e.error];
          }
        }
        if next.Some? {
          TalliedNext(group.value.tools, CalledTools(executions[..k]), e.tool);
          next := Some(next.value.(tools := Counted(next.value.tools, e.tool)));
        }
      }
      assert executions[..|executions|] == executions;
    }

    method PassEntries(entries: seq<Entry>, i: nat, group: Option<RunGroup>) returns (next: Option<RunGroup>)
      requires Valid() && i < |input.sessions|
      modifies this`rows, this`touches, this`totals, this`samples
      ensures Valid() && touches == old(touches) + EntriesTouches(entries, i)
      ensures totals == Add(old(totals), EntriesTotals(entries))
      ensures next == WithTools(group, ToolNames(entries))
      ensures samples == Sampled(old(samples), ExecutionsOf(entries))
    {
      hide Add, NameTouches, EntriesTouches, ExecutionTouches, ExecutionsTotals, EntriesTotals, RequestTotals, Tally,
           WellNamed, WithTools, CalledTools, ToolNames, Kinds, Sampled, ExecutionsOf;
      NothingSampled(samples);
      NoEntries(i);
      AddLaws(totals, totals, totals);
      WithToolsLaws(group, [], []);
      assert entries[..0] == [];
      next := group;
      for k := 0 to |entries|
        invariant Valid() && touches == old(touches) + EntriesTouches(entries[..k], i)
        invariant totals == Add(old(totals), EntriesTotals(entries[..k]))
        invariant next == WithTools(group, ToolNames(entries[..k]))
        invariant samples == Sampled(old(samples), ExecutionsOf(entries[..k]))
      {
        var e := entries[k];
        ghost var before := EntriesTotals(entries[..k]);
        assert entries[..k + 1] == entries[..k] + [e];
        OneMoreEntry(entries[..k], e, i);
        AddLaws(old(totals), before, RequestTotals(e));
        AddLaws(old(totals), Add(before, RequestTotals(e)), ExecutionsTotals(e.executions));
        WithToolsLaws(group, ToolNames(entries[..k]), CalledTools(e.executions));
        SampledConcat(old(samples), ExecutionsOf(entries[..k]), e.executions);
        totals := Add(totals, RequestTotals(e));
        TouchNames(Models, [e.model], i, RequestDelta(e));
        next := PassExecutions(e.executions, i, next);
        TouchNames(Events, Kinds(e.events), i, Call());
      }
      assert entries[..|entries|] == entries;
    }

    /** The escalations among the events of a session's turns, then its own. */
    method CollectEscalations(entries: seq<Entry>, s: Session) returns (stats: Escalations)
      ensures stats == EscalationsIn(EventsOf(entries) + s.events)
    {
      hide CountEscalation;
      stats := Escalations(0, 0, 0, 0);
      for k := 0 to |entries|
        invariant stats == EscalationsIn(EventsOf(entries[..k]))
      {
        assert entries[..k + 1][..k] == entries[..k];
        stats := CountAll(stats, EventsOf(entries[..k]), entries[k].events);
      }
      assert entries[..|entries|] == entries;
      stats := CountAll(stats, EventsOf(entries), s.events);
    }

    method CountAll(before: Escalations, ghost seen: seq<Event>, events: seq<Event>) returns (stats: Escalations)
      requires before == EscalationsIn(seen)
      ensures stats == EscalationsIn(seen + events)
    {
      hide CountEscalation;
      stats := before;
      assert seen + events[..0] == seen;
      for j := 0 to |events|
        invariant stats == EscalationsIn(seen + events[..j])
      {
        assert (seen + events[..j + 1])[..|seen| + j] == seen + events[..j];
        stats := CountEscalation(stats, events[j]);
      }
      assert events[..|events|] == events;
    }

    /** Skill counts of a run. */
    method CountSkills(names: seq<string>, group: Option<RunGroup>) returns (next: Option<RunGroup>)
      ensures next == WithSkills(group, names)
    {
      hide Counted, Tallied, CountIn;
      next := group;
      if group.Some? {
        TalliedNone(group.value.skills);
        for k := 0 to |names|
          invariant next == WithSkills(group, names[..k])
        {
          assert names[..k + 1] == names[..k] + [names[k]];
          TalliedNext(group.value.skills, names[..k], names[k]);
          next := Some(next.value.(skills := Counted(next.value.skills, names[k])));
        }
        assert names[..|names|] == names;
      }
    }

    /** The loop body for one session, its run's events among its own if it is the run's first. */
    method PassSession(i: nat, runKinds: seq<string>, group: Option<RunGroup>) returns (next: Option<RunGroup>)
      requires Valid() && i < |input.sessions| && runKinds == RunKinds(input, i)
      modifies this`rows, this`touches, this`totals, this`samples, this`facets
      ensures Valid() && touches == old(touches) + SessionTouches(input, i)
      ensures totals
           == Add(Add(old(totals), SessionTotals(input.sessions[i], EntriesOf(input, i))),
                EntriesTotals(EntriesOf(input, i)))
      ensures facets == old(facets) + SessionFacets(input, i)
      ensures samples == Sampled(old(samples), ExecutionsOf(EntriesOf(input, i)))
      ensures next == WithTools(WithSkills(group, input.sessions[i].skills), ToolNames(EntriesOf(input, i)))
    {
      hide Add, NameTouches, EntriesTouches, EntriesTotals, RunKinds, Tally, WellNamed, FailureLabel, OutcomeDelta,
           SessionFacets, WithTools, WithSkills, ToolNames, EscalationsIn, OwnTotals, Kinds, EventsOf, FailureNames,
           Sampled, ExecutionsOf;
      var s := input.sessions[i];
      AddSessionFacets(i);
      var escalations := CollectEscalations(EntriesOf(input, i), s);
      totals := Add(totals, OwnTotals(s, escalations));
      TouchNames(Failures, FailureNames(s), i, OneFailure());
      TouchNames(Models, s.models, i, OutcomeDelta(s));
      TouchNames(Skills, s.skills, i, OutcomeDelta(s));
      next := CountSkills(s.skills, group);
      next := PassEntries(EntriesOf(input, i), i, next);
      TouchNames(Events, Kinds(s.events), i, Call());
      TouchNames(Events, runKinds, i, Call());
      SixParts(old(touches), NameTouches(Failures, FailureNames(s), i, OneFailure()),
               NameTouches(Models, s.models, i, OutcomeDelta(s)), NameTouches(Skills, s.skills, i, OutcomeDelta(s)),
               EntriesTouches(EntriesOf(input, i), i), NameTouches(Events, Kinds(s.events), i, Call()),
               NameTouches(Events, runKinds, i, Call()));
    }

    method TouchSessions(key: Key, who: seq<nat>)
      requires Valid() && forall k | k in who :: k < |input.sessions|
      modifies this`rows, this`touches
      ensures Valid() && touches == old(touches) + Visits(key, who)
    {
      for k := 0 to |who|
        invariant Valid() && touches == old(touches) + Visits(key, who[..k])
      {
        assert who[..k + 1][..k] == who[..k];
        assert who[k] in who;
        Visit(key, Some(who[k]), Zero());
      }
      assert who[..|who|] == who;
    }

    /** The second loop: runs that failed without a session saying so. */
    method PassVerdicts(order: seq<string>, verdicts: map<string, Verdict>)
      requires Valid() && VerdictsMet(input, |input.sessions|, order, verdicts)
               && RunsMet(input, |input.sessions|, runs)
      modifies this`rows, this`touches, this`facets
      ensures Valid() && touches == old(touches) + LateTouches(input, order)
      ensures facets == old(facets) + LateFacets(input, order)
    {
      hide Tally, WellNamed, LateOf, VerdictsMet, RunsMet, RunSessions, Labelled, VerdictOf, LateLabel;
      for k := 0 to |order|
        invariant Valid() && touches == old(touches) + LateTouches(input, order[..k])
        invariant facets == old(facets) + LateFacets(input, order[..k])
      {
        assert order[..k + 1][..k] == order[..k] && order[k] in order;
        assert order[..k + 1] == order[..k] + [order[k]];
        VerdictHasRun(input, order, verdicts, runs, order[k]);
        ChargeRun(order[k], verdicts[order[k]], runs[order[k]].sessions);
      }
      assert order[..|order|] == order;
    }

    method ChargeRun(run: string, verdict: Verdict, who: seq<nat>)
      requires Valid() && VerdictOf(RunEventsOf(input, run)) == Some(verdict)
      requires who == RunSessions(input.sessions, |input.sessions|, run) && forall k | k in who :: k < |input.sessions|
      requires (exists k :: k in who && k < |input.sessions| && FailureLabel(input.sessions[k]) == Some(verdict.reason))
          <==> Labelled(input.sessions, run, verdict.reason)
      modifies this`rows, this`touches, this`facets
      ensures Valid() && touches == old(touches) + LateOf(input, run)
      ensures facets == old(facets) + LateFacets(input, [run])
    {
      hide Tally, WellNamed, VerdictOf, Visits, RunSessions, Labelled;
      assert run in [run];
      var labelled := HasLabel(who, verdict.reason);
      if !verdict.success && !labelled {
        facets := facets + {Facet(OfFailure, verdict.reason)};
        TouchSessions(Key(Failures, verdict.reason), who);
        Visit(Key(Failures, verdict.reason), None, OneFailure());
      }
    }

    method HasLabel(who: seq<nat>, reason: string) returns (found: bool)
      requires forall k | k in who :: k < |input.sessions|
      ensures found <==> exists k :: k in who && k < |input.sessions| && FailureLabel(input.sessions[k]) == Some(reason)
    {
      hide FailureLabel;
      for j := 0 to |who|
        invariant forall k | k in who[..j] :: k < |input.sessions| && FailureLabel(input.sessions[k]) != Some(reason)
      {
        assert who[j] in who;
        if FailureLabel(input.sessions[who[j]]) == Some(reason) {
          return true;
        }
        assert who[..j + 1] == who[..j] + [who[j]];
      }
      assert who[..|who|] == who;
      return false;
    }

    /** buildTraceInsights after the selection, up to the sorting of what it gathered. */
    method Run()
      requires Valid() && touches == [] && totals == NoTotals() && facets == {} && runs == map[]
      requires samples == map[]
      modifies this
      ensures rows == FinalRows(input) && totals == Summary(input, |input.sessions|)
      ensures facets == AllFacets(input) && RunsMet(input, |input.sessions|, runs)
      ensures samples == AllSamples(input)
    {
      hide Tally, WellNamed, SessionTouches, EntriesTotals, SessionTotals, Add, RunsMet, VerdictsMet, LateTouches,
           RunKinds, SessionFacets, LateFacets, WithTools, WithSkills, WithSession, ToolNames,
           PassTouches, PassFacets, Summary, Sampled, ExecutionsOf;
      NothingSampled(samples);
      var order: seq<string>, verdicts: map<string, Verdict> := [], map[];
      NothingMet(input);
      for i := 0 to |input.sessions|
        invariant Valid() && touches == PassTouches(input, i) && totals == Summary(input, i)
        invariant facets == PassFacets(input, i) && samples == Sampled(map[], PassExecutionsOf(input, i))
        invariant RunsMet(input, i, runs) && VerdictsMet(input, i, order, verdicts)
      {
        var s := input.sessions[i];
        var run := s.runId;
        SessionMet(input, i, runs, order, verdicts);
        OneMorePassed(input, i);
        SampledConcat(map[], PassExecutionsOf(input, i), ExecutionsOf(EntriesOf(input, i)));
        var first := run != "" && run !in runs;
        var group: Option<RunGroup> := None;
        if run != "" {
          group := Some(WithSession(input, i, if run in runs then runs[run] else NewGroup(s)));
        }
        var counted := PassSession(i, if first then Kinds(RunEventsOf(input, run)) else [], group);
        if run != "" {
          GroupCounted(input, i, group.value);
          runs := runs[run := counted.value];
        }
        if first {
          var verdict := LastVerdict(RunEventsOf(input, run));
          if verdict.Some? {
            order, verdicts := order + [run], verdicts[run := verdict.value];
          }
        }
      }
      PassVerdicts(order, verdicts);
      Finished(input, order, verdicts);
    }

    /** The classification loop over a run's events. */
    method LastVerdict(events: seq<Event>) returns (verdict: Option<Verdict>)
      ensures verdict == VerdictOf(events)
    {
      verdict := None;
      for k := 0 to |events|
        invariant verdict == VerdictOf(events[..k])
      {
        assert events[..k + 1][..k] == events[..k];
        if events[k].kind == "task_completed" && events[k].classification != "" {
          verdict := Some(Verdict(events[k].success, events[k].classification));
        }
      }
      assert events[..|events|] == events;
    }
  }

  lemma NothingSampled(samples: map<string, string>)
    ensures Sampled(samples, []) == samples
  {}

  lemma NothingMet(input: Input)
    ensures RunsMet(input, 0, map[]) && VerdictsMet(input, 0, [], map[])
    ensures PassTouches(input, 0) == [] && PassFacets(input, 0) == {} && Summary(input, 0) == NoTotals()
  {}

  lemma OneMorePassed(input: Input, i: nat)
    requires i < |input.sessions|
    ensures PassTouches(input, i + 1) == PassTouches(input, i) + SessionTouches(input, i)
    ensures PassFacets(input, i + 1) == PassFacets(input, i) + SessionFacets(input, i)
    ensures var s, entries := input.sessions[i], EntriesOf(input, i);
            Summary(input, i + 1) == Add(Add(Summary(input, i), SessionTotals(s, entries)), EntriesTotals(entries))
  {
    hide SessionTouches, SessionFacets, Add, SessionTotals, EntriesTotals;
  }

  lemma GroupCounted(input: Input, i: nat, group: RunGroup)
    requires i < |input.sessions|
    ensures WithTools(WithSkills(Some(group), input.sessions[i].skills), ToolNames(EntriesOf(input, i)))
         == Some(WithCounts(input, i, group))
  {
    hide Tallied, ToolNames;
  }

  /** What the next session does to the runs and their verdicts. */
  lemma SessionMet(input: Input, i: nat, runs: map<string, RunGroup>, order: seq<string>,
                   verdicts: map<string, Verdict>)
    requires i < |input.sessions| && RunsMet(input, i, runs) && VerdictsMet(input, i, order, verdicts)
    ensures var s := input.sessions[i];
            var run := s.runId;
            var first := run != "" && run !in runs;
            var verdict := VerdictOf(RunEventsOf(input, run));
            && RunKinds(input, i) == (if first then Kinds(RunEventsOf(input, run)) else [])
            && RunsMet(input, i + 1,
                       if run == "" then runs
                       else
                         runs[run := WithCounts(input, i,
                                                WithSession(input, i, if run in runs then runs[run] else NewGroup(s)))])
            && (if first && verdict.Some? then VerdictsMet(input, i + 1, order + [run], verdicts[run := verdict.value])
                else VerdictsMet(input, i + 1, order, verdicts))
  {
    hide VerdictOf, Kinds, RunsMet, VerdictsMet, WithCounts, WithSession, NewGroup;
    FirstUnmet(input, i, runs);
    RunMet(input, i, runs);
    VerdictMet(input, i, order, verdicts);
  }

  lemma FirstUnmet(input: Input, i: nat, runs: map<string, RunGroup>)
    requires i < |input.sessions| && RunsMet(input, i, runs)
    ensures FirstOfRun(input.sessions, i) <==> input.sessions[i].runId != "" && input.sessions[i].runId !in runs
  {
    hide GroupAfter, RunSessions;
    var run := input.sessions[i].runId;
    GroupSessions(input, i, run);
    RunSessionsEmpty(input.sessions, i, run);
  }

  lemma RunMet(input: Input, i: nat, runs: map<string, RunGroup>)
    requires i < |input.sessions| && RunsMet(input, i, runs)
    ensures var s := input.sessions[i];
            var run := s.runId;
            RunsMet(input, i + 1,
                    if run == "" then runs
                    else
                      runs[run := WithCounts(input, i,
                                             WithSession(input, i, if run in runs then runs[run] else NewGroup(s)))])
  {
    hide WithCounts, WithSession, NewGroup;
  }

  lemma VerdictMet(input: Input, i: nat, order: seq<string>, verdicts: map<string, Verdict>)
    requires i < |input.sessions| && VerdictsMet(input, i, order, verdicts)
    ensures var run := input.sessions[i].runId;
            var verdict := VerdictOf(RunEventsOf(input, run));
            if FirstOfRun(input.sessions, i) && verdict.Some? then
              VerdictsMet(input, i + 1, order + [run], verdicts[run := verdict.value])
            else VerdictsMet(input, i + 1, order, verdicts)
  {
    hide VerdictOf, FirstOfRun, RunEventsOf;
    var run := input.sessions[i].runId;
    var added := if FirstOfRun(input.sessions, i) && VerdictOf(RunEventsOf(input, run)).Some? then [run] else [];
    assert VerdictRuns(input, i + 1) == VerdictRuns(input, i) + added;
    assert order + [] == order;
  }

  /** A run with a verdict has its sessions; its label is found among them. */
  lemma VerdictHasRun(input: Input, order: seq<string>, verdicts: map<string, Verdict>,
                      runs: map<string, RunGroup>, run: string)
    requires VerdictsMet(input, |input.sessions|, order, verdicts) && RunsMet(input, |input.sessions|, runs)
    requires run in order
    ensures run in verdicts && run in runs && runs[run].sessions == RunSessions(input.sessions, |input.sessions|, run)
    ensures forall k | k in runs[run].sessions :: k < |input.sessions|
    ensures VerdictOf(RunEventsOf(input, run)) == Some(verdicts[run])
    ensures (exists k :: k in runs[run].sessions && k < |input.sessions|
                         && FailureLabel(input.sessions[k]) == Some(verdicts[run].reason))
       <==> Labelled(input.sessions, run, verdicts[run].reason)
  {
    hide VerdictOf, FailureLabel, VerdictRuns, RunSessions, GroupAfter;
    GroupSessions(input, |input.sessions|, run);
    VerdictRunsAre(input, |input.sessions|);
    RunSessionsEmpty(input.sessions, |input.sessions|, run);
    RunSessionsAre(input.sessions, |input.sessions|, run, 0);
    LabelledAmong(input.sessions, |input.sessions|, run, verdicts[run].reason);
  }

  lemma Finished(input: Input, order: seq<string>, verdicts: map<string, Verdict>)
    requires VerdictsMet(input, |input.sessions|, order, verdicts)
    ensures PassTouches(input, |input.sessions|) + LateTouches(input, order) == Touches(input)
    ensures WellNamed(input.sessions, Touches(input)) && FinalRows(input) == Tally(input.sessions, Touches(input))
    ensures PassFacets(input, |input.sessions|) + LateFacets(input, order) == AllFacets(input)
  {
    TouchesMade(input, Key(Tools, ""));
    hide PassTouches, LateTouches, Tally;
  }
}
