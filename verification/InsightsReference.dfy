/** The insights response said another way: each row and the summary as counts and sums over the
    selected sessions, their turns, the calls and events of these, and the runs. */
module InsightsReference {
  import opened Wrappers
  import opened InsightRows
  import opened Insights
  import opened InsightGroups

  // ---------- Sums over lists ----------

  ghost function Over<T>(xs: seq<T>, f: T -> int): int {
    if xs == [] then 0 else Over(xs[..|xs| - 1], f) + f(xs[|xs| - 1])
  }

  lemma {:induction false} OverConcat<T>(a: seq<T>, b: seq<T>, f: T -> int)
    ensures Over(a + b, f) == Over(a, f) + Over(b, f)
  {
    if b == [] {
      assert a + b == a;
    } else {
      assert (a + b)[..|a + b| - 1] == a + b[..|b| - 1];
      OverConcat(a, b[..|b| - 1], f);
    }
  }

  lemma OverOne<T>(x: T, f: T -> int)
    ensures Over([x], f) == f(x) && Over([], f) == 0
  {
    assert [x][..0] == [];
  }

  ghost function Flag(b: bool): int {
    if b then 1 else 0
  }

  // ---------- Turns and calls ----------

  ghost function TurnsOf(input: Input, s: Session): seq<Entry> {
    if s.id in input.entries then input.entries[s.id] else []
  }

  ghost function AllTurns(input: Input, sessions: seq<Session>): seq<Entry> {
    if sessions == [] then []
    else AllTurns(input, sessions[..|sessions| - 1]) + TurnsOf(input, sessions[|sessions| - 1])
  }

  ghost function AllCalls(turns: seq<Entry>): seq<Execution> {
    if turns == [] then [] else AllCalls(turns[..|turns| - 1]) + turns[|turns| - 1].executions
  }

  lemma {:induction false} CallsConcat(a: seq<Entry>, b: seq<Entry>)
    ensures AllCalls(a + b) == AllCalls(a) + AllCalls(b)
  {
    if b == [] {
      assert a + b == a;
    } else {
      assert (a + b)[..|a + b| - 1] == a + b[..|b| - 1];
      CallsConcat(a, b[..|b| - 1]);
    }
  }

  // ---------- What is counted of a call ----------

  ghost function CallOf(id: string): Execution -> int {
    (e: Execution) => Flag(e.tool == id)
  }

  ghost function GoodCallOf(id: string): Execution -> int {
    (e: Execution) => Flag(e.tool == id && e.success)
  }

  ghost function BadCallOf(id: string): Execution -> int {
    (e: Execution) => Flag(e.tool == id && !e.success)
  }

  ghost function CallTime(id: string): Execution -> int {
    (e: Execution) => if e.tool == id then e.duration else 0
  }

  // ---------- What is counted of a turn ----------

  ghost function Each(e: Entry): int {
    1
  }

  ghost function Time(e: Entry): int {
    e.duration
  }

  /** Of two counts a response may carry, the first that is positive. */
  ghost function Given(a: int, b: int): int {
    if a > 0 then a else if b > 0 then b else 0
  }

  ghost function Prompt(e: Entry): int {
    if e.usage.Some? then Given(e.usage.value.promptTokens, e.usage.value.inputTokens) else 0
  }

  ghost function Completion(e: Entry): int {
    if e.usage.Some? then Given(e.usage.value.completionTokens, e.usage.value.outputTokens) else 0
  }

  /** Cached tokens as given, but no more than the prompt's. */
  ghost function Cached(e: Entry): int {
    if e.usage.None? then 0
    else
      var u := e.usage.value;
      var given := Given(u.cachedTokens, Given(u.detailsCached, u.telemetryCached));
      if given > Prompt(e) then Prompt(e) else given
  }

  ghost function AllTokens(e: Entry): int {
    if e.usage.Some? && e.usage.value.totalTokens > 0 then e.usage.value.totalTokens else Prompt(e) + Completion(e)
  }

  ghost function StatedCost(e: Entry): int {
    if e.usage.Some? && e.usage.value.cost > 0 then e.usage.value.cost else 0
  }

  ghost function InputPrice(e: Entry): int {
    if e.price.Some? then e.price.value.input else 0
  }

  ghost function CachedPrice(e: Entry): int {
    if e.price.Some? then e.price.value.cachedInput else 0
  }

  ghost function OutputPrice(e: Entry): int {
    if e.price.Some? then e.price.value.output else 0
  }

  ghost function WholePrice(e: Entry): int {
    if e.price.Some? then e.price.value.total else 0
  }

  ghost function Unpriced(e: Entry): int {
    Flag(e.price.None? && (Prompt(e) > 0 || Completion(e) > 0))
  }

  /** The same, of the turns that asked one model. */
  ghost function Asking(id: string, x: Entry -> int): Entry -> int {
    (e: Entry) => if e.model == id then x(e) else 0
  }

  // ---------- What is counted of a session ----------

  ghost predicate EndedWell(s: Session) {
    s.outcome in {"completed", "success"}
  }

  ghost function ModelListings(id: string): Session -> int {
    (s: Session) => multiset(s.models)[id]
  }

  ghost function GoodModelListings(id: string): Session -> int {
    (s: Session) => if EndedWell(s) then multiset(s.models)[id] else 0
  }

  ghost function BadModelListings(id: string): Session -> int {
    (s: Session) => if EndedWell(s) then 0 else multiset(s.models)[id]
  }

  ghost function SkillListings(id: string): Session -> int {
    (s: Session) => multiset(s.skills)[id]
  }

  ghost function GoodSkillListings(id: string): Session -> int {
    (s: Session) => if EndedWell(s) then multiset(s.skills)[id] else 0
  }

  ghost function BadSkillListings(id: string): Session -> int {
    (s: Session) => if EndedWell(s) then 0 else multiset(s.skills)[id]
  }

  // ---------- Tool rows ----------

  ghost function ToolRow(calls: seq<Execution>, id: string): Delta {
    Delta(Over(calls, CallOf(id)), 0, Over(calls, GoodCallOf(id)), Over(calls, BadCallOf(id)),
          Over(calls, CallTime(id)), 0, 0, 0, 0, Money(0, 0, 0, 0, 0, 0))
  }

  lemma ToolRowConcat(a: seq<Execution>, b: seq<Execution>, id: string)
    ensures ToolRow(a + b, id) == Plus(ToolRow(a, id), ToolRow(b, id))
  {
    hide Over, CallOf, GoodCallOf, BadCallOf, CallTime;
    OverConcat(a, b, CallOf(id));
    OverConcat(a, b, GoodCallOf(id));
    OverConcat(a, b, BadCallOf(id));
    OverConcat(a, b, CallTime(id));
  }

  lemma ToolRowOne(e: Execution, id: string)
    ensures ToolRow([e], id) == if e.tool == id then ExecutionDelta(e) else Zero()
  {
    hide Over;
    OverOne(e, CallOf(id));
    OverOne(e, GoodCallOf(id));
    OverOne(e, BadCallOf(id));
    OverOne(e, CallTime(id));
  }

  lemma NoToolRow(id: string)
    ensures ToolRow([], id) == Zero()
  {}

  lemma {:induction false} CallsMakeToolRow(calls: seq<Execution>, id: string)
    ensures ExecutionsDelta(calls, id) == ToolRow(calls, id)
  {
    hide ToolRow, ExecutionDelta, Plus, Zero;
    NoToolRow(id);
    if calls != [] {
      var front, last := calls[..|calls| - 1], calls[|calls| - 1];
      assert calls == front + [last];
      CallsMakeToolRow(front, id);
      ToolRowConcat(front, [last], id);
      ToolRowOne(last, id);
      PlusLaws(ToolRow(front, id), Zero(), Zero());
    }
  }

  lemma {:induction false} TurnsMakeToolRow(turns: seq<Entry>, id: string)
    ensures EntriesDelta(turns, Key(Tools, id)) == ToolRow(AllCalls(turns), id)
  {
    hide ToolRow, ExecutionsDelta, Plus, Zero;
    NoToolRow(id);
    if turns != [] {
      var front, last := turns[..|turns| - 1], turns[|turns| - 1];
      TurnsMakeToolRow(front, id);
      CallsMakeToolRow(last.executions, id);
      ToolRowConcat(AllCalls(front), last.executions, id);
    }
  }

  // ---------- Model and skill rows ----------

  /** What the turns bring to a model's row. */
  ghost function RequestRow(turns: seq<Entry>, id: string): Delta {
    Delta(0, Over(turns, Asking(id, Each)), 0, 0, Over(turns, Asking(id, Time)), Over(turns, Asking(id, Prompt)),
          Over(turns, Asking(id, Completion)), Over(turns, Asking(id, Cached)), Over(turns, Asking(id, AllTokens)),
          Money(Over(turns, Asking(id, StatedCost)), Over(turns, Asking(id, InputPrice)),
                Over(turns, Asking(id, CachedPrice)), Over(turns, Asking(id, OutputPrice)),
                Over(turns, Asking(id, WholePrice)), Over(turns, Asking(id, Unpriced))))
  }

  lemma RequestRowConcat(a: seq<Entry>, b: seq<Entry>, id: string)
    ensures RequestRow(a + b, id) == Plus(RequestRow(a, id), RequestRow(b, id))
  {
    hide Over, Asking;
    OverConcat(a, b, Asking(id, Each));
    OverConcat(a, b, Asking(id, Time));
    OverConcat(a, b, Asking(id, Prompt));
    OverConcat(a, b, Asking(id, Completion));
    OverConcat(a, b, Asking(id, Cached));
    OverConcat(a, b, Asking(id, AllTokens));
    OverConcat(a, b, Asking(id, StatedCost));
    OverConcat(a, b, Asking(id, InputPrice));
    OverConcat(a, b, Asking(id, CachedPrice));
    OverConcat(a, b, Asking(id, OutputPrice));
    OverConcat(a, b, Asking(id, WholePrice));
    OverConcat(a, b, Asking(id, Unpriced));
  }

  lemma AskingOne(e: Entry, id: string, x: Entry -> int)
    ensures Over([e], Asking(id, x)) == if e.model == id then x(e) else 0
  {
    OverOne(e, Asking(id, x));
  }

  lemma RequestRowOne(e: Entry, id: string)
    ensures RequestRow([e], id) == if e.model == id then RequestDelta(e) else Zero()
  {
    hide Over, Asking;
    AskingOne(e, id, Each);
    AskingOne(e, id, Time);
    AskingOne(e, id, Prompt);
    AskingOne(e, id, Completion);
    AskingOne(e, id, Cached);
    AskingOne(e, id, AllTokens);
    AskingOne(e, id, StatedCost);
    AskingOne(e, id, InputPrice);
    AskingOne(e, id, CachedPrice);
    AskingOne(e, id, OutputPrice);
    AskingOne(e, id, WholePrice);
    AskingOne(e, id, Unpriced);
    TokensAre(e);
    MoneyIs(e);
  }

  lemma TokensAre(e: Entry)
    ensures PromptTokens(e.usage) == Prompt(e) && CompletionTokens(e.usage) == Completion(e)
    ensures CachedTokens(e.usage, PromptTokens(e.usage)) == Cached(e) && TotalTokens(e.usage) == AllTokens(e)
  {
    if e.usage.Some? {
      var u := e.usage.value;
      FirstOfTwo(u.promptTokens, u.inputTokens);
      FirstOfTwo(u.completionTokens, u.outputTokens);
      FirstOfThree(u.cachedTokens, u.detailsCached, u.telemetryCached);
      FirstOfOne(u.totalTokens);
      hide FirstPositive;
    }
  }

  lemma FirstOfOne(a: int)
    ensures FirstPositive([a]) == Given(a, 0)
  {
    assert [a][1..] == [];
  }

  lemma FirstOfTwo(a: int, b: int)
    ensures FirstPositive([a, b]) == Given(a, b)
  {
    assert [a, b][1..] == [b];
    FirstOfOne(b);
  }

  lemma FirstOfThree(a: int, b: int, c: int)
    ensures FirstPositive([a, b, c]) == Given(a, Given(b, c))
  {
    assert [a, b, c][1..] == [b, c];
    FirstOfTwo(b, c);
  }

  lemma MoneyIs(e: Entry)
    ensures MoneyOf(e)
         == Money(StatedCost(e), InputPrice(e), CachedPrice(e), OutputPrice(e), WholePrice(e), Unpriced(e))
  {
    hide FirstPositive, PromptTokens, CompletionTokens, Prompt, Completion;
    TokensAre(e);
    if e.usage.Some? {
      FirstOfOne(e.usage.value.cost);
    }
    var m := MoneyOf(e);
    assert m.stated == StatedCost(e) && m.unpriced == Unpriced(e);
    assert m.input == InputPrice(e) && m.cachedInput == CachedPrice(e);
    assert m.output == OutputPrice(e) && m.total == WholePrice(e);
  }

  lemma NoRequestRow(id: string)
    ensures RequestRow([], id) == Zero()
  {}

  lemma NamedOnce(name: string, id: string, delta: Delta)
    ensures NamesDelta([name], id, delta) == if name == id then delta else Zero()
  {
    hide Plus, Zero;
    assert [name][..0] == [];
    PlusLaws(delta, delta, delta);
  }

  lemma {:induction false} TurnsMakeRequestRow(turns: seq<Entry>, id: string)
    ensures EntriesDelta(turns, Key(Models, id)) == RequestRow(turns, id)
  {
    hide RequestRow, RequestDelta, NamesDelta, Plus, Zero;
    NoRequestRow(id);
    if turns != [] {
      var front, last := turns[..|turns| - 1], turns[|turns| - 1];
      assert turns == front + [last];
      TurnsMakeRequestRow(front, id);
      NamedOnce(last.model, id, RequestDelta(last));
      RequestRowConcat(front, [last], id);
      RequestRowOne(last, id);
    }
  }

  /** n listings in a session that ended well, or badly. */
  ghost function Listings(n: int, well: bool): Delta {
    Delta(n, 0, if well then n else 0, if well then 0 else n, 0, 0, 0, 0, 0, Money(0, 0, 0, 0, 0, 0))
  }

  lemma OneListingMore(n: int, s: Session)
    ensures Listings(0, EndedWell(s)) == Zero()
    ensures Plus(Listings(n, EndedWell(s)), OutcomeDelta(s)) == Listings(n + 1, EndedWell(s))
  {}

  lemma {:induction false} NamesAreListings(names: seq<string>, id: string, s: Session)
    ensures NamesDelta(names, id, OutcomeDelta(s)) == Listings(multiset(names)[id], EndedWell(s))
  {
    hide Plus, Listings, OutcomeDelta, EndedWell, Zero;
    OneListingMore(0, s);
    if names != [] {
      var front, last := names[..|names| - 1], names[|names| - 1];
      assert names == front + [last];
      NamesAreListings(front, id, s);
      OneListingMore(multiset(front)[id], s);
    }
  }

  ghost function SkillRow(sessions: seq<Session>, id: string): Delta {
    Delta(Over(sessions, SkillListings(id)), 0, Over(sessions, GoodSkillListings(id)),
          Over(sessions, BadSkillListings(id)), 0, 0, 0, 0, 0, Money(0, 0, 0, 0, 0, 0))
  }

  /** What the sessions themselves bring to a model's row. */
  ghost function ListingRow(sessions: seq<Session>, id: string): Delta {
    Delta(Over(sessions, ModelListings(id)), 0, Over(sessions, GoodModelListings(id)),
          Over(sessions, BadModelListings(id)), 0, 0, 0, 0, 0, Money(0, 0, 0, 0, 0, 0))
  }

  lemma SkillRowNext(sessions: seq<Session>, s: Session, id: string)
    ensures SkillRow(sessions + [s], id) == Plus(SkillRow(sessions, id), Listings(multiset(s.skills)[id], EndedWell(s)))
  {
    assert (sessions + [s])[..|sessions|] == sessions;
  }

  lemma ListingRowNext(sessions: seq<Session>, s: Session, id: string)
    ensures ListingRow(sessions + [s], id)
         == Plus(ListingRow(sessions, id), Listings(multiset(s.models)[id], EndedWell(s)))
  {
    assert (sessions + [s])[..|sessions|] == sessions;
  }

  // ---------- Failure and event rows ----------

  /** A session carries a failure: its code, else its category, else an outcome that is no success. */
  ghost predicate Carries(s: Session, name: string) {
    var code, category := s.failureCode, s.failureCategory;
    if code !in {"", "none"} then name == code
    else if category !in {"", "none"} then name == category
    else !EndedWell(s) && (name == s.outcome != "" || (s.outcome == "" && name == "unknown_failure"))
  }

  lemma CarriesIff(s: Session, name: string)
    ensures Carries(s, name) <==> FailureLabel(s) == Some(name)
  {}

  ghost function Carriers(name: string): Session -> int {
    (s: Session) => Flag(Carries(s, name))
  }

  /** Event k of a run is the last one that classifies how it ended. */
  ghost predicate LastClassified(events: seq<Event>, k: nat)
    requires k < |events|
  {
    && events[k].kind == "task_completed" && events[k].classification != ""
    && forall j | k < j < |events| :: events[j].kind != "task_completed" || events[j].classification == ""
  }

  lemma {:induction false} VerdictIs(events: seq<Event>)
    ensures forall k: nat | k < |events| && LastClassified(events, k) ::
              VerdictOf(events) == Some(Verdict(events[k].success, events[k].classification))
    ensures (forall k: nat | k < |events| :: !LastClassified(events, k)) ==> VerdictOf(events).None?
  {
    if events != [] {
      var n := |events| - 1;
      var front := events[..n];
      VerdictIs(front);
      if events[n].kind == "task_completed" && events[n].classification != "" {
        assert LastClassified(events, n);
      } else {
        forall k: nat | k < n ensures LastClassified(events, k) <==> LastClassified(front, k) {
          assert front[k] == events[k];
          if LastClassified(front, k) {
            forall j | k < j < |events|
              ensures events[j].kind != "task_completed" || events[j].classification == ""
            {
              assert j < n ==> front[j] == events[j];
            }
          }
        }
        assert !LastClassified(events, n);
      }
    }
  }

  /** A run is charged with a failure: its last classification says so and no session of it does. */
  ghost predicate ChargedFor(input: Input, name: string, run: string) {
    && run in input.runEvents
    && (exists k: nat :: k < |input.runEvents[run]| && LastClassified(input.runEvents[run], k)
                      && !input.runEvents[run][k].success && input.runEvents[run][k].classification == name)
    && forall s | s in input.sessions && s.runId == run :: !Carries(s, name)
  }

  ghost function ChargesOf(input: Input, name: string): string -> int {
    (run: string) => Flag(ChargedFor(input, name, run))
  }

  lemma ChargedIff(input: Input, name: string, run: string)
    ensures ChargedFor(input, name, run) <==> LateLabel(input, run) == Some(name)
  {
    var events := RunEventsOf(input, run);
    VerdictIs(events);
    LabelledIff(input.sessions, run, name);
    if k: nat :| k < |events| && LastClassified(events, k) {
      OneLast(events);
    }
  }

  lemma OneLast(events: seq<Event>)
    ensures forall j: nat, k: nat |
              j < |events| && k < |events| && LastClassified(events, j) && LastClassified(events, k)
              :: j == k
  {}

  lemma LabelledIff(sessions: seq<Session>, run: string, name: string)
    ensures Labelled(sessions, run, name) <==> exists s :: s in sessions && s.runId == run && Carries(s, name)
  {
    hide FailureLabel, Carries;
    forall s ensures Carries(s, name) <==> FailureLabel(s) == Some(name) {
      CarriesIff(s, name);
    }
    if s :| s in sessions && s.runId == run && Carries(s, name) {
      var k :| 0 <= k < |sessions| && sessions[k] == s;
    }
  }

  /** Each selected run once, in order of first sessions (`RunsOnce`). */
  ghost function RunsIn(input: Input): seq<string> {
    RunsOf(input.sessions, |input.sessions|)
  }

  lemma {:induction false} ChargesCounted(input: Input, n: nat, name: string)
    requires n <= |input.sessions|
    ensures Charged(input, VerdictRuns(input, n), name) == Over(RunsOf(input.sessions, n), ChargesOf(input, name))
  {
    hide VerdictOf, LateLabel, FirstOfRun, ChargedFor, Charged, Over;
    if n == 0 {
      NothingCharged(input, name);
    } else {
      ChargesCounted(input, n - 1, name);
      var run := input.sessions[n - 1].runId;
      if FirstOfRun(input.sessions, n - 1) {
        OneMoreCharged(input, VerdictRuns(input, n - 1), run, name);
        OverConcat(RunsOf(input.sessions, n - 1), [run], ChargesOf(input, name));
      } else {
        assert RunsOf(input.sessions, n) == RunsOf(input.sessions, n - 1);
        assert VerdictRuns(input, n) == VerdictRuns(input, n - 1);
      }
    }
  }

  lemma NothingCharged(input: Input, name: string)
    ensures Charged(input, [], name) == 0 && Over([], ChargesOf(input, name)) == 0
  {}

  lemma OneMoreCharged(input: Input, verdicts: seq<string>, run: string, name: string)
    ensures Charged(input, verdicts + (if VerdictOf(RunEventsOf(input, run)).Some? then [run] else []), name)
         == Charged(input, verdicts, name) + Over([run], ChargesOf(input, name))
  {
    hide VerdictOf, LateLabel, ChargedFor;
    ChargedIff(input, name, run);
    NoVerdictNoCharge(input, run);
    OverOne(run, ChargesOf(input, name));
    assert (verdicts + [run])[..|verdicts|] == verdicts;
    assert verdicts + [] == verdicts;
  }

  lemma NoVerdictNoCharge(input: Input, run: string)
    ensures VerdictOf(RunEventsOf(input, run)).None? ==> LateLabel(input, run).None?
  {}

  ghost function KindIs(id: string): Event -> int {
    (e: Event) => Flag(e.kind == id)
  }

  ghost function TurnEventsOf(id: string): Entry -> int {
    (e: Entry) => Over(e.events, KindIs(id))
  }

  ghost function SessionEventsOf(id: string): Session -> int {
    (s: Session) => Over(s.events, KindIs(id))
  }

  ghost function RunEvents(input: Input, id: string): string -> int {
    (run: string) => if run in input.runEvents then Over(input.runEvents[run], KindIs(id)) else 0
  }

  lemma {:induction false} KindsCounted(events: seq<Event>, id: string)
    ensures Count(Kinds(events), id) == Over(events, KindIs(id))
  {
    if events != [] {
      var n := |events| - 1;
      assert Kinds(events)[..n] == Kinds(events[..n]);
      KindsCounted(events[..n], id);
    }
  }

  lemma {:induction false} TurnEventsCounted(turns: seq<Entry>, id: string)
    ensures TurnEvents(turns, id) == Over(turns, TurnEventsOf(id))
  {
    hide Kinds, Count, KindIs;
    if turns != [] {
      TurnEventsCounted(turns[..|turns| - 1], id);
      KindsCounted(turns[|turns| - 1].events, id);
    }
  }

  lemma {:induction false} RunEventsCounted(input: Input, runs: seq<string>, id: string)
    ensures RunEventCount(input, runs, id) == Over(runs, RunEvents(input, id))
  {
    hide Kinds, Count, KindIs;
    if runs != [] {
      RunEventsCounted(input, runs[..|runs| - 1], id);
      KindsCounted(RunEventsOf(input, runs[|runs| - 1]), id);
    }
  }

  lemma {:induction false} SessionEventsCounted(input: Input, n: nat, id: string)
    requires n <= |input.sessions|
    ensures var sessions := input.sessions[..n];
            SessionEvents(input, n, id)
            == Over(AllTurns(input, sessions), TurnEventsOf(id)) + Over(sessions, SessionEventsOf(id))
  {
    hide TurnEvents, Kinds, Count, KindIs, TurnEventsOf;
    if n > 0 {
      SessionEventsCounted(input, n - 1, id);
      SessionsNext(input, n);
      var turns := AllTurns(input, input.sessions[..n - 1]);
      TurnEventsCounted(EntriesOf(input, n - 1), id);
      KindsCounted(input.sessions[n - 1].events, id);
      OverConcat(turns, EntriesOf(input, n - 1), TurnEventsOf(id));
    }
  }

  lemma SessionsNext(input: Input, n: nat)
    requires 0 < n <= |input.sessions|
    ensures var front, last := input.sessions[..n - 1], input.sessions[n - 1];
            && input.sessions[..n] == front + [last]
            && AllTurns(input, input.sessions[..n]) == AllTurns(input, front) + EntriesOf(input, n - 1)
            && TurnsOf(input, last) == EntriesOf(input, n - 1)
  {
    assert input.sessions[..n][..n - 1] == input.sessions[..n - 1];
  }

  // ---------- Every row ----------

  ghost function Times(n: int): Delta {
    Delta(n, 0, 0, 0, 0, 0, 0, 0, 0, Money(0, 0, 0, 0, 0, 0))
  }

  ghost function Failing(n: int): Delta {
    Times(n).(failures := n)
  }

  /** What the row of a key counts. */
  ghost function RowSays(input: Input, key: Key): Delta {
    var sessions := input.sessions;
    var turns := AllTurns(input, sessions);
    match key.table
    case Tools => ToolRow(AllCalls(turns), key.id)
    case Skills => SkillRow(sessions, key.id)
    case Models => Plus(RequestRow(turns, key.id), ListingRow(sessions, key.id))
    case Failures =>
      var n := Over(sessions, Carriers(key.id)) + Over(RunsIn(input), ChargesOf(input, key.id));
      Failing(n)
    case Events =>
      Times(Over(turns, TurnEventsOf(key.id)) + Over(sessions, SessionEventsOf(key.id))
            + Over(RunsIn(input), RunEvents(input, key.id)))
  }

  lemma {:induction false} ToolsUpto(input: Input, n: nat, id: string)
    requires n <= |input.sessions| && id != ""
    ensures SumDelta(input, n, Key(Tools, id)) == ToolRow(AllCalls(AllTurns(input, input.sessions[..n])), id)
  {
    hide ToolRow, EntriesDelta, Plus, Zero, AllCalls, EntriesOf, TurnsOf;
    if n == 0 {
      NoToolRow(id);
      NoCalls();
    } else {
      ToolsUpto(input, n - 1, id);
      SessionsNext(input, n);
      var turns := AllTurns(input, input.sessions[..n - 1]);
      TurnsMakeToolRow(EntriesOf(input, n - 1), id);
      CallsConcat(turns, EntriesOf(input, n - 1));
      ToolRowConcat(AllCalls(turns), AllCalls(EntriesOf(input, n - 1)), id);
    }
  }

  lemma NoCalls()
    ensures AllCalls([]) == []
  {}

  lemma {:induction false} SkillsUpto(input: Input, n: nat, id: string)
    requires n <= |input.sessions| && id != ""
    ensures SumDelta(input, n, Key(Skills, id)) == SkillRow(input.sessions[..n], id)
  {
    hide SkillRow, NamesDelta, Plus, Zero, EntriesDelta, OutcomeDelta;
    if n == 0 {
      NoSkillRow(id);
    } else {
      var s := input.sessions[n - 1];
      SkillsUpto(input, n - 1, id);
      SessionsNext(input, n);
      NamesAreListings(s.skills, id, s);
      SkillRowNext(input.sessions[..n - 1], s, id);
    }
  }

  lemma NoSkillRow(id: string)
    ensures SkillRow([], id) == Zero() && ListingRow([], id) == Zero()
  {}

  lemma {:induction false} ModelsUpto(input: Input, n: nat, id: string)
    requires n <= |input.sessions| && id != ""
    ensures var sessions := input.sessions[..n];
            SumDelta(input, n, Key(Models, id))
            == Plus(RequestRow(AllTurns(input, sessions), id), ListingRow(sessions, id))
  {
    hide RequestRow, ListingRow, NamesDelta, Plus, Zero, EntriesDelta, OutcomeDelta, EntriesOf, TurnsOf;
    if n == 0 {
      NoSkillRow(id);
      NoRequestRow(id);
      PlusLaws(Zero(), Zero(), Zero());
    } else {
      var s, entries := input.sessions[n - 1], EntriesOf(input, n - 1);
      var front := input.sessions[..n - 1];
      var turns := AllTurns(input, front);
      ModelsUpto(input, n - 1, id);
      SessionsNext(input, n);
      NamesAreListings(s.models, id, s);
      ListingRowNext(front, s, id);
      TurnsMakeRequestRow(entries, id);
      RequestRowConcat(turns, entries, id);
      Exchange(RequestRow(turns, id), ListingRow(front, id), RequestRow(entries, id),
               Listings(multiset(s.models)[id], EndedWell(s)));
    }
  }

  lemma Exchange(a: Delta, b: Delta, c: Delta, d: Delta)
    ensures Plus(Plus(a, b), Plus(c, d)) == Plus(Plus(a, c), Plus(b, d))
  {
    hide Plus;
    PlusLaws(Plus(a, b), c, d);
    PlusLaws(a, b, c);
    PlusLaws(b, c, c);
    PlusLaws(a, c, b);
    PlusLaws(Plus(a, c), b, d);
  }

  lemma {:induction false} FailuresUpto(input: Input, n: nat, name: string)
    requires n <= |input.sessions| && name != ""
    ensures SumDelta(input, n, Key(Failures, name)) == Failing(Over(input.sessions[..n], Carriers(name)))
  {
    hide FailureLabel, EntriesDelta, Carries, EntriesOf, TurnsOf, Plus, Zero, OneFailure, Failing, Over;
    FailingLaws(0);
    if n == 0 {
      assert input.sessions[..0] == [] && Over(input.sessions[..0], Carriers(name)) == 0 by {
        OverNothing(Carriers(name));
      }
    } else {
      FailuresUpto(input, n - 1, name);
      SessionsNext(input, n);
      var front, s := input.sessions[..n - 1], input.sessions[n - 1];
      CarriesIff(s, name);
      OverConcat(front, [s], Carriers(name));
      OverOne(s, Carriers(name));
      FailingLaws(Over(front, Carriers(name)));
    }
  }

  lemma OverNothing<T>(f: T -> int)
    ensures Over([], f) == 0
  {}

  lemma FailingLaws(n: int)
    ensures Failing(0) == Zero()
    ensures Plus(Failing(n), OneFailure()) == Failing(n + 1) && Plus(Failing(n), Zero()) == Failing(n)
  {
    hide Plus;
    PlusLaws(Failing(n), Zero(), Zero());
    OneFailureMore(n);
  }

  lemma OneFailureMore(n: int)
    ensures Plus(Failing(n), OneFailure()) == Failing(n + 1)
  {
    hide PlusMoney, NoMoney;
    NothingStated();
    MoneyLaws(NoMoney(), NoMoney(), NoMoney());
    var sum := Plus(Failing(n), OneFailure());
    assert sum.calls == sum.failures == n + 1 && sum.money == NoMoney();
  }

  lemma NothingStated()
    ensures NoMoney() == Money(0, 0, 0, 0, 0, 0)
  {}

  /** Calls are all it counts. */
  ghost predicate OnlyCounts(d: Delta) {
    d == Times(d.calls)
  }

  lemma CountsLaws(a: Delta, b: Delta)
    ensures OnlyCounts(Zero()) && OnlyCounts(Call())
    ensures OnlyCounts(a) && OnlyCounts(b) ==> OnlyCounts(Plus(a, b))
  {}

  lemma {:induction false} EventsUpto(input: Input, n: nat, id: string)
    requires n <= |input.sessions| && id != ""
    ensures OnlyCounts(SumDelta(input, n, Key(Events, id)))
  {
    hide NamesDelta, EntriesDelta, EntriesOf, RunKinds, Kinds, Plus, Call, Zero, OnlyCounts;
    CountsLaws(Zero(), Zero());
    if n > 0 {
      var turns := EntriesDelta(EntriesOf(input, n - 1), Key(Events, id));
      var own := NamesDelta(Kinds(input.sessions[n - 1].events), id, Call());
      var run := NamesDelta(RunKinds(input, n - 1), id, Call());
      EventsUpto(input, n - 1, id);
      OnlyCalls(Kinds(input.sessions[n - 1].events), id);
      OnlyCalls(RunKinds(input, n - 1), id);
      TurnsOnlyCall(EntriesOf(input, n - 1), id);
      CountsLaws(own, run);
      CountsLaws(turns, Plus(own, run));
      CountsLaws(SumDelta(input, n - 1, Key(Events, id)), Plus(turns, Plus(own, run)));
    }
  }

  lemma {:induction false} OnlyCalls(names: seq<string>, id: string)
    ensures OnlyCounts(NamesDelta(names, id, Call()))
  {
    hide Plus, Call, Zero, OnlyCounts;
    CountsLaws(Zero(), Zero());
    if names != [] {
      var n := |names| - 1;
      OnlyCalls(names[..n], id);
      CountsLaws(NamesDelta(names[..n], id, Call()), Call());
    }
  }

  lemma {:induction false} TurnsOnlyCall(turns: seq<Entry>, id: string)
    ensures OnlyCounts(EntriesDelta(turns, Key(Events, id)))
  {
    hide NamesDelta, Kinds, Plus, Call, Zero, OnlyCounts;
    CountsLaws(Zero(), Zero());
    if turns != [] {
      var n := |turns| - 1;
      TurnsOnlyCall(turns[..n], id);
      OnlyCalls(Kinds(turns[n].events), id);
      CountsLaws(EntriesDelta(turns[..n], Key(Events, id)), NamesDelta(Kinds(turns[n].events), id, Call()));
    }
  }

  /** Every row of the response counts what its key says: calls of a tool with their successes,
      failures and time; requests of a model with their tokens and costs; listings of a model or a
      skill, in sessions that ended well and in others; sessions that carry a failure and runs
      charged with it; events of turns, sessions and runs. */
  lemma RowIsWhatItSays(input: Input, key: Key)
    requires key.id != ""
    ensures RowOf(FinalRows(input), key).sums == RowSays(input, key)
  {
    hide SumDelta, FinalRows, RowOf, Plus, ToolRow, SkillRow, RequestRow, ListingRow, AllTurns, AllCalls, Over, Charged,
         VerdictRuns, RunsOf, SessionEvents, RunEventCount;
    var n := |input.sessions|;
    assert input.sessions[..n] == input.sessions;
    RowCounters(input, key);
    NoneFailed(SumDelta(input, n, key));
    match key.table
    case Tools => ToolsUpto(input, n, key.id);
    case Skills => SkillsUpto(input, n, key.id);
    case Models => ModelsUpto(input, n, key.id);
    case Failures =>
      FailuresUpto(input, n, key.id);
      ChargesCounted(input, n, key.id);
      MoreFailed(Over(input.sessions, Carriers(key.id)), Charged(input, VerdictRuns(input, n), key.id));
    case Events =>
      EventsUpto(input, n, key.id);
      EventsCounted(input, n, key.id);
      SessionEventsCounted(input, n, key.id);
      RunEventsCounted(input, RunsIn(input), key.id);
  }

  lemma NoneFailed(d: Delta)
    ensures Plus(d, Failed(0)) == d
  {
    hide Plus, Failed, Zero;
    FailedLaws(0);
    PlusLaws(d, d, d);
  }

  lemma MoreFailed(m: int, n: nat)
    ensures Plus(Failing(m), Failed(n)) == Failing(m + n)
  {
    hide PlusMoney, NoMoney;
    NothingStated();
    MoneyLaws(NoMoney(), NoMoney(), NoMoney());
    var sum := Plus(Failing(m), Failed(n));
    assert sum.calls == sum.failures == m + n && sum.money == NoMoney();
  }

  // ---------- The summary ----------

  ghost function Well(s: Session): int {
    Flag(EndedWell(s))
  }

  ghost function TurnCount(s: Session): int {
    s.turns
  }

  ghost function CostOf(s: Session): int {
    s.cost
  }

  ghost function Length(s: Session): int {
    if s.end > s.start then s.end - s.start else 0
  }

  ghost function HandsOver(s: Session): int {
    Flag(s.handoff.Some?)
  }

  ghost function HandsOverLate(s: Session): int {
    Flag(s.handoff.Some? && s.outcome == "max_turns")
  }

  ghost function Stuck(s: Session): int {
    Flag(s.outcome == "max_turns" && s.handoff != Some(true))
  }

  ghost function Fires(e: Event): int {
    Flag(e.kind == "escalation" || (e.kind == "stuck_signal" && e.dataKind == "escalate"))
  }

  ghost function Ends(how: string): Event -> int {
    (e: Event) => Flag(e.kind == "escalation_outcome" && e.outcome == how)
  }

  ghost function TurnEventsIn(turns: seq<Entry>): seq<Event> {
    if turns == [] then [] else TurnEventsIn(turns[..|turns| - 1]) + turns[|turns| - 1].events
  }

  ghost function EventsSeen(input: Input, s: Session): seq<Event> {
    TurnEventsIn(TurnsOf(input, s)) + s.events
  }

  ghost function Escalated(input: Input): Session -> int {
    (s: Session) => Flag(Over(EventsSeen(input, s), Fires) > 0)
  }

  ghost function Fired(input: Input): Session -> int {
    (s: Session) => Over(EventsSeen(input, s), Fires)
  }

  ghost function Ended(input: Input, how: string): Session -> int {
    (s: Session) => Over(EventsSeen(input, s), Ends(how))
  }

  ghost function Named(e: Execution): int {
    Flag(e.tool != "")
  }

  ghost function NamedBad(e: Execution): int {
    Flag(e.tool != "" && !e.success)
  }

  ghost function Asked(e: Entry): int {
    Flag(e.asked)
  }

  ghost function Timed(e: Entry): int {
    Flag(e.duration > 0)
  }

  ghost function PositiveTime(e: Entry): int {
    if e.duration > 0 then e.duration else 0
  }

  ghost function MoneySaid(turns: seq<Entry>): Money {
    Money(Over(turns, StatedCost), Over(turns, InputPrice), Over(turns, CachedPrice), Over(turns, OutputPrice),
          Over(turns, WholePrice), Over(turns, Unpriced))
  }

  ghost function SignalsSaid(input: Input, sessions: seq<Session>): Signals {
    Signals(Over(sessions, Length), Over(sessions, HandsOver), Over(sessions, HandsOverLate), Over(sessions, Stuck),
            Over(sessions, Escalated(input)), Over(sessions, Fired(input)), Over(sessions, Ended(input, "rescued")),
            Over(sessions, Ended(input, "failed_fast")), Over(sessions, Ended(input, "budget_exhausted")))
  }

  /** What the summary counts. */
  ghost function SummarySays(input: Input, sessions: seq<Session>): Totals {
    var turns := AllTurns(input, sessions);
    var calls := AllCalls(turns);
    Totals(Over(sessions, Well), Over(sessions, TurnCount), Over(sessions, CostOf), Over(calls, Named),
           Over(calls, NamedBad), Over(turns, Asked), Over(turns, Prompt), Over(turns, Completion), Over(turns, Cached),
           Over(turns, AllTokens), Over(turns, PositiveTime), Over(turns, Timed), MoneySaid(turns),
           SignalsSaid(input, sessions))
  }

  // What sessions, turns and calls each bring to it.

  ghost function SessionPart(input: Input, sessions: seq<Session>): Totals {
    Totals(Over(sessions, Well), Over(sessions, TurnCount), Over(sessions, CostOf), 0, 0, 0, 0, 0, 0, 0, 0, 0,
           Money(0, 0, 0, 0, 0, 0), SignalsSaid(input, sessions))
  }

  ghost function TurnPart(turns: seq<Entry>): Totals {
    Totals(0, 0, 0, 0, 0, Over(turns, Asked), Over(turns, Prompt), Over(turns, Completion), Over(turns, Cached),
           Over(turns, AllTokens), Over(turns, PositiveTime), Over(turns, Timed), MoneySaid(turns),
           Signals(0, 0, 0, 0, 0, 0, 0, 0, 0))
  }

  ghost function CallPart(calls: seq<Execution>): Totals {
    Totals(0, 0, 0, Over(calls, Named), Over(calls, NamedBad), 0, 0, 0, 0, 0, 0, 0, Money(0, 0, 0, 0, 0, 0),
           Signals(0, 0, 0, 0, 0, 0, 0, 0, 0))
  }

  lemma PartsMakeSummary(input: Input, sessions: seq<Session>)
    ensures var turns := AllTurns(input, sessions);
            SummarySays(input, sessions)
            == Add(Add(SessionPart(input, sessions), TurnPart(turns)), CallPart(AllCalls(turns)))
  {
    hide Over, AllTurns, AllCalls;
  }

  lemma CallPartConcat(a: seq<Execution>, b: seq<Execution>)
    ensures CallPart(a + b) == Add(CallPart(a), CallPart(b))
  {
    hide Over;
    OverConcat(a, b, Named);
    OverConcat(a, b, NamedBad);
  }

  lemma CallPartOne(e: Execution)
    ensures CallPart([e]) == ExecutionTotals(e) && CallPart([]) == NoTotals()
  {
    hide Over;
    OverOne(e, Named);
    OverOne(e, NamedBad);
  }

  lemma {:induction false} CallsTotalled(calls: seq<Execution>)
    ensures ExecutionsTotals(calls) == CallPart(calls)
  {
    hide CallPart, ExecutionTotals, Add, NoTotals;
    if calls == [] {
      CallPartOne(Execution("", true, 0, ""));
    } else {
      var front, last := calls[..|calls| - 1], calls[|calls| - 1];
      assert calls == front + [last];
      CallsTotalled(front);
      CallPartOne(last);
      CallPartConcat(front, [last]);
    }
  }

  lemma MoneySaidConcat(a: seq<Entry>, b: seq<Entry>)
    ensures MoneySaid(a + b) == PlusMoney(MoneySaid(a), MoneySaid(b))
  {
    hide Over;
    OverConcat(a, b, StatedCost);
    OverConcat(a, b, InputPrice);
    OverConcat(a, b, CachedPrice);
    OverConcat(a, b, OutputPrice);
    OverConcat(a, b, WholePrice);
    OverConcat(a, b, Unpriced);
  }

  lemma TurnPartConcat(a: seq<Entry>, b: seq<Entry>)
    ensures TurnPart(a + b) == Add(TurnPart(a), TurnPart(b))
  {
    hide Over, MoneySaid, PlusMoney;
    OverConcat(a, b, Asked);
    OverConcat(a, b, Prompt);
    OverConcat(a, b, Completion);
    OverConcat(a, b, Cached);
    OverConcat(a, b, AllTokens);
    OverConcat(a, b, PositiveTime);
    OverConcat(a, b, Timed);
    MoneySaidConcat(a, b);
  }

  lemma MoneySaidOne(e: Entry)
    ensures MoneySaid([e]) == MoneyOf(e)
  {
    hide Over, MoneyOf, StatedCost, InputPrice, CachedPrice, OutputPrice, WholePrice, Unpriced;
    OverOne(e, StatedCost);
    OverOne(e, InputPrice);
    OverOne(e, CachedPrice);
    OverOne(e, OutputPrice);
    OverOne(e, WholePrice);
    OverOne(e, Unpriced);
    MoneyIs(e);
  }

  lemma TurnPartOne(e: Entry)
    ensures TurnPart([e]) == RequestTotals(e)
  {
    hide Over, MoneySaid, MoneyOf, Prompt, Completion, Cached, AllTokens, PromptTokens, CompletionTokens, CachedTokens,
         TotalTokens;
    OverOne(e, Asked);
    OverOne(e, Prompt);
    OverOne(e, Completion);
    OverOne(e, Cached);
    OverOne(e, AllTokens);
    OverOne(e, PositiveTime);
    OverOne(e, Timed);
    TokensAre(e);
    MoneySaidOne(e);
  }

  lemma NoTurnPart()
    ensures TurnPart([]) == NoTotals() && CallPart([]) == NoTotals() && AllCalls([]) == []
  {}

  lemma {:induction false} TurnsTotalled(turns: seq<Entry>)
    ensures EntriesTotals(turns) == Add(TurnPart(turns), CallPart(AllCalls(turns)))
  {
    hide TurnPart, CallPart, RequestTotals, ExecutionsTotals, Add, NoTotals;
    if turns == [] {
      NoTurnPart();
      AddLaws(NoTotals(), NoTotals(), NoTotals());
    } else {
      var front, last := turns[..|turns| - 1], turns[|turns| - 1];
      assert turns == front + [last];
      TurnsTotalled(front);
      TurnPartOne(last);
      TurnPartConcat(front, [last]);
      CallsTotalled(last.executions);
      CallPartConcat(AllCalls(front), last.executions);
      Rearranged(TurnPart(front), CallPart(AllCalls(front)), RequestTotals(last), CallPart(last.executions));
    }
  }

  lemma Rearranged(a: Totals, b: Totals, c: Totals, d: Totals)
    ensures Add(Add(Add(a, b), c), d) == Add(Add(a, c), Add(b, d))
  {
    hide Add;
    AddLaws(a, b, c);
    Swapped(b, c);
    AddLaws(a, c, b);
    AddLaws(Add(a, c), b, d);
  }

  lemma Swapped(a: Totals, b: Totals)
    ensures Add(a, b) == Add(b, a)
  {
    hide PlusMoney;
    MoneyLaws(a.money, b.money, b.money);
  }

  // The sessions' part.

  lemma {:induction false} EventsAreTurnEvents(turns: seq<Entry>)
    ensures EventsOf(turns) == TurnEventsIn(turns)
  {
    if turns != [] {
      EventsAreTurnEvents(turns[..|turns| - 1]);
    }
  }

  lemma {:induction false} EscalationsAre(events: seq<Event>)
    ensures var e := EscalationsIn(events);
            && e.fires == Over(events, Fires) && e.rescued == Over(events, Ends("rescued"))
            && e.failedFast == Over(events, Ends("failed_fast"))
            && e.exhausted == Over(events, Ends("budget_exhausted"))
  {
    if events != [] {
      EscalationsAre(events[..|events| - 1]);
    }
  }

  lemma SignalsSaidNext(input: Input, sessions: seq<Session>, s: Session)
    ensures SignalsSaid(input, sessions + [s])
         == PlusSignals(SignalsSaid(input, sessions), SignalsOf(s, EscalationsIn(EventsSeen(input, s))))
  {
    hide Over, EventsSeen, EscalationsIn;
    EscalationsAre(EventsSeen(input, s));
    OverMore(sessions, s, Length);
    OverMore(sessions, s, HandsOver);
    OverMore(sessions, s, HandsOverLate);
    OverMore(sessions, s, Stuck);
    OverMore(sessions, s, Escalated(input));
    OverMore(sessions, s, Fired(input));
    OverMore(sessions, s, Ended(input, "rescued"));
    OverMore(sessions, s, Ended(input, "failed_fast"));
    OverMore(sessions, s, Ended(input, "budget_exhausted"));
  }

  lemma OverMore<T>(xs: seq<T>, x: T, f: T -> int)
    ensures Over(xs + [x], f) == Over(xs, f) + f(x)
  {
    assert (xs + [x])[..|xs|] == xs;
  }

  lemma SessionPartNext(input: Input, sessions: seq<Session>, s: Session)
    ensures SessionPart(input, sessions + [s])
         == Add(SessionPart(input, sessions), OwnTotals(s, EscalationsIn(EventsSeen(input, s))))
  {
    hide Over, SignalsSaid, SignalsOf, PlusSignals, EventsSeen, EscalationsIn;
    OverMore(sessions, s, Well);
    OverMore(sessions, s, TurnCount);
    OverMore(sessions, s, CostOf);
    SignalsSaidNext(input, sessions, s);
  }

  lemma NoSessionPart(input: Input)
    ensures SessionPart(input, []) == NoTotals() && AllTurns(input, []) == []
  {}

  /** The summary of the response counts what it says: of the sessions, their turns, and the calls
      and events of these. */
  lemma {:induction false} SummaryIsWhatItSays(input: Input, n: nat)
    requires n <= |input.sessions|
    ensures Summary(input, n) == SummarySays(input, input.sessions[..n])
  {
    hide SessionPart, TurnPart, CallPart, SummarySays, OwnTotals, EntriesTotals, Add, NoTotals, EscalationsIn, AllCalls,
         EntriesOf, TurnsOf, EventsOf;
    PartsMakeSummary(input, input.sessions[..n]);
    if n == 0 {
      NoSessionPart(input);
      NoTurnPart();
      AddLaws(NoTotals(), NoTotals(), NoTotals());
    } else {
      var front, s, entries := input.sessions[..n - 1], input.sessions[n - 1], EntriesOf(input, n - 1);
      var turns := AllTurns(input, front);
      SummaryIsWhatItSays(input, n - 1);
      PartsMakeSummary(input, front);
      SessionsNext(input, n);
      EventsAreTurnEvents(entries);
      SessionPartNext(input, front, s);
      TurnsTotalled(entries);
      TurnPartConcat(turns, entries);
      CallsConcat(turns, entries);
      CallPartConcat(AllCalls(turns), AllCalls(entries));
      FiveParts(SessionPart(input, front), TurnPart(turns), CallPart(AllCalls(turns)),
                SessionTotals(s, entries), TurnPart(entries), CallPart(AllCalls(entries)));
    }
  }

  lemma FiveParts(a: Totals, b: Totals, c: Totals, x: Totals, y: Totals, z: Totals)
    ensures Add(Add(Add(Add(a, b), c), x), Add(y, z)) == Add(Add(Add(a, x), Add(b, y)), Add(c, z))
  {
    hide Add;
    Rearranged(a, Add(b, c), x, Add(y, z));
    AddLaws(a, b, c);
    AddLaws(b, c, y);
    Rearranged(b, c, y, z);
    AddLaws(Add(b, c), y, z);
    AddLaws(Add(a, x), Add(b, y), Add(c, z));
  }

  // ---------- Facets ----------

  ghost predicate Calls(turns: seq<Entry>, tool: string) {
    exists e: Execution :: e in AllCalls(turns) && e.tool == tool
  }

  ghost predicate Happens(events: seq<Event>, kind: string) {
    exists e: Event :: e in events && e.kind == kind
  }

  /** What a session can be found by. */
  ghost predicate FoundBy(input: Input, s: Session, kind: FacetKind, id: string) {
    match kind
    case OfRun => s.runId == id
    case OfSession => s.id == id
    case OfDomain => s.domain == id
    case OfModel => id in s.models
    case OfSkill => id in s.skills
    case OfTool => Calls(TurnsOf(input, s), id)
    case OfFailure => Carries(s, id)
    case OfEvent =>
      || Happens(EventsSeen(input, s), id)
      || (s.runId != "" && s.runId in input.runEvents && Happens(input.runEvents[s.runId], id))
  }

  lemma {:induction false} ToolNamesAre(turns: seq<Entry>, tool: string)
    ensures tool in ToolNames(turns) <==> Calls(turns, tool)
  {
    if turns != [] {
      var n := |turns| - 1;
      ToolNamesAre(turns[..n], tool);
      CalledIff(turns[n].executions, tool);
      assert forall e: Execution :: e in AllCalls(turns) <==> e in AllCalls(turns[..n]) || e in turns[n].executions;
    }
  }

  lemma CalledIff(executions: seq<Execution>, tool: string)
    ensures tool in CalledTools(executions) <==> exists e: Execution :: e in executions && e.tool == tool
  {
    var names := CalledTools(executions);
    if tool in names {
      var k :| 0 <= k < |names| && names[k] == tool;
      assert executions[k] in executions;
    }
    if e: Execution :| e in executions && e.tool == tool {
      var k :| 0 <= k < |executions| && executions[k] == e;
      assert names[k] == tool;
    }
  }

  lemma KindsAre(events: seq<Event>, kind: string)
    ensures kind in Kinds(events) <==> Happens(events, kind)
  {
    var names := Kinds(events);
    if kind in names {
      var k :| 0 <= k < |names| && names[k] == kind;
      assert events[k] in events;
    }
    if e: Event :| e in events && e.kind == kind {
      var k :| 0 <= k < |events| && events[k] == e;
      assert names[k] == kind;
    }
  }

  lemma HappensConcat(a: seq<Event>, b: seq<Event>, kind: string)
    ensures Happens(a + b, kind) <==> Happens(a, kind) || Happens(b, kind)
  {}

  lemma SessionFacetIs(input: Input, i: nat, facet: Facet)
    requires i < |input.sessions|
    ensures facet in SessionFacets(input, i)
       <==> facet.id != "" && FoundBy(input, input.sessions[i], facet.kind, facet.id)
  {
    hide SessionFacets, Kinds, ToolNames, EventsOf, FailureLabel, Happens, Calls, TurnEventsIn, Carries;
    var s, turns := input.sessions[i], EntriesOf(input, i);
    assert turns == TurnsOf(input, s);
    ToolNamesAre(turns, facet.id);
    CarriesIff(s, facet.id);
    EventsAreTurnEvents(turns);
    HappensConcat(EventsOf(turns), s.events, facet.id);
    KindsAre(EventsOf(turns), facet.id);
    KindsAre(s.events, facet.id);
    OwnKindsAre(input, s, i, facet.id);
    if TableOf(facet.kind).Some? {
      FacetIsNamed(input, i, facet.kind, facet.id);
    } else {
      PlainFacet(input, i, facet);
    }
  }

  lemma OwnKindsAre(input: Input, s: Session, i: nat, kind: string)
    requires i < |input.sessions| && s == input.sessions[i]
    ensures kind in OwnRunKinds(input, i)
       <==> s.runId != "" && s.runId in input.runEvents && Happens(input.runEvents[s.runId], kind)
  {
    hide Kinds;
    KindsAre(RunEventsOf(input, s.runId), kind);
  }

  lemma PlainFacet(input: Input, i: nat, facet: Facet)
    requires i < |input.sessions| && facet.kind in {OfRun, OfSession, OfDomain}
    ensures facet in SessionFacets(input, i)
       <==> facet.id != "" && FoundBy(input, input.sessions[i], facet.kind, facet.id)
  {
    hide Kinds, ToolNames, EventsOf, FailureNames, OwnRunKinds;
  }

  lemma {:induction false} VerdictRunsIff(input: Input, n: nat, run: string)
    requires n <= |input.sessions|
    ensures run in VerdictRuns(input, n)
       <==> run in RunsOf(input.sessions, n) && VerdictOf(RunEventsOf(input, run)).Some?
  {
    hide VerdictOf, FirstOfRun;
    if n > 0 {
      VerdictRunsIff(input, n - 1, run);
    }
  }

  /** The facets of the response: what some selected session can be found by, and the failures some
      run of a selected session is charged with. */
  lemma FacetIsWhatItSays(input: Input, facet: Facet)
    ensures facet in AllFacets(input)
       <==> || (facet.id != "" && exists s :: s in input.sessions && FoundBy(input, s, facet.kind, facet.id))
            || (facet.kind == OfFailure && exists run :: run in RunsIn(input) && ChargedFor(input, facet.id, run))
  {
    hide PassFacets, SessionFacets, FoundBy, ChargedFor, LateLabel, VerdictOf, VerdictRuns, RunsOf;
    var n := |input.sessions|;
    PassFacetFrom(input, n, facet);
    forall i: nat | i < n
      ensures facet in SessionFacets(input, i)
         <==> facet.id != "" && FoundBy(input, input.sessions[i], facet.kind, facet.id)
    {
      SessionFacetIs(input, i, facet);
    }
    if s :| facet.id != "" && s in input.sessions && FoundBy(input, s, facet.kind, facet.id) {
      var i :| 0 <= i < n && input.sessions[i] == s;
      assert facet in SessionFacets(input, i);
    }
    forall run ensures run in VerdictRuns(input, n) && LateLabel(input, run) == Some(facet.id)
                  <==> run in RunsIn(input) && ChargedFor(input, facet.id, run)
    {
      VerdictRunsIff(input, n, run);
      ChargedIff(input, facet.id, run);
      NoVerdictNoCharge(input, run);
    }
  }

  // ---------- Runs ----------

  ghost predicate FirstIn(sessions: seq<Session>, run: string, first: nat) {
    && first < |sessions| && sessions[first].runId == run
    && forall i | 0 <= i < first :: sessions[i].runId != run
  }

  /** The last session of a run that ended badly. */
  ghost predicate LastFailing(sessions: seq<Session>, run: string, last: nat) {
    && last < |sessions| && sessions[last].runId == run && !EndedWell(sessions[last])
    && forall i | last < i < |sessions| && sessions[i].runId == run :: EndedWell(sessions[i])
  }

  ghost function RunListings(run: string, skill: string): Session -> int {
    (s: Session) => if s.runId == run then Count(s.skills, skill) else 0
  }

  /** The query of the run's first session, and the outcome of the last one that ended badly, or
      "completed" when none did. */
  ghost predicate GroupSays(sessions: seq<Session>, run: string, query: string, outcome: string) {
    && (exists first: nat :: FirstIn(sessions, run, first) && query == sessions[first].query)
    && (|| (outcome == "completed" && forall i: nat :: !LastFailing(sessions, run, i))
        || (exists last: nat :: LastFailing(sessions, run, last) && outcome == sessions[last].outcome))
  }

  lemma {:induction false} GroupIsWhatItSays(input: Input, n: nat, run: string)
    requires n <= |input.sessions| && run != ""
    ensures var group := GroupAfter(input, n, run);
            && (group.None? <==> forall i | 0 <= i < n :: input.sessions[i].runId != run)
            && (group.Some? ==> GroupSays(input.sessions[..n], run, group.value.query, group.value.outcome))
  {
    hide GroupSays, WithCounts, EndedWell, Succeeded;
    if n > 0 {
      GroupIsWhatItSays(input, n - 1, run);
      var before, s := input.sessions[..n - 1], input.sessions[n - 1];
      assert input.sessions[..n] == before + [s];
      var group := GroupAfter(input, n - 1, run);
      CountsOnly(input, n - 1, WithSession(input, n - 1, if group.Some? then group.value else NewGroup(s)));
      EndedIff(s);
      if s.runId != run {
        if group.Some? {
          OtherRun(before, s, run, group.value.query, group.value.outcome);
        }
      } else if group.Some? {
        OneMoreOf(before, s, run, group.value.query, group.value.outcome);
      } else {
        forall i | 0 <= i < n - 1 ensures before[i].runId != run {
          assert before[i] == input.sessions[i];
        }
        FirstOf(before, s, run);
      }
    }
  }

  lemma EndedIff(s: Session)
    ensures EndedWell(s) <==> Succeeded(s.outcome)
  {}

  lemma CountsOnly(input: Input, i: nat, group: RunGroup)
    requires i < |input.sessions|
    ensures var more := WithCounts(input, i, group);
            more.query == group.query && more.outcome == group.outcome && more.sessions == group.sessions
  {}

  lemma OtherRun(before: seq<Session>, s: Session, run: string, query: string, outcome: string)
    requires s.runId != run && GroupSays(before, run, query, outcome)
    ensures GroupSays(before + [s], run, query, outcome)
  {
    hide EndedWell;
    FirstStays(before, s, run);
    LastStays(before, s, run);
  }

  lemma FirstStays(before: seq<Session>, s: Session, run: string)
    ensures forall i: nat | FirstIn(before, run, i) :: FirstIn(before + [s], run, i) && (before + [s])[i] == before[i]
  {}

  lemma LastStays(before: seq<Session>, s: Session, run: string)
    requires s.runId != run || EndedWell(s)
    ensures forall i: nat :: LastFailing(before + [s], run, i) <==> LastFailing(before, run, i)
    ensures forall i: nat | LastFailing(before, run, i) :: (before + [s])[i] == before[i]
  {
    hide EndedWell;
    var more := before + [s];
    forall i: nat ensures LastFailing(more, run, i) <==> LastFailing(before, run, i) {
      if LastFailing(more, run, i) {
        assert forall j | i < j < |before| && before[j].runId == run :: more[j] == before[j];
      }
    }
  }

  lemma OneMoreOf(before: seq<Session>, s: Session, run: string, query: string, outcome: string)
    requires s.runId == run && GroupSays(before, run, query, outcome)
    ensures GroupSays(before + [s], run, query, if EndedWell(s) then outcome else s.outcome)
  {
    hide EndedWell;
    FirstStays(before, s, run);
    if EndedWell(s) {
      LastStays(before, s, run);
    } else {
      assert LastFailing(before + [s], run, |before|);
    }
  }

  lemma FirstOf(before: seq<Session>, s: Session, run: string)
    requires s.runId == run && forall i | 0 <= i < |before| :: before[i].runId != run
    ensures GroupSays(before + [s], run, s.query, if EndedWell(s) then "completed" else s.outcome)
  {
    hide EndedWell;
    assert FirstIn(before + [s], run, |before|);
    if !EndedWell(s) {
      assert LastFailing(before + [s], run, |before|);
    }
  }

  /** A run counts a skill as often as its sessions list it. */
  lemma {:induction false} SkillsOfRun(input: Input, n: nat, run: string, skill: string)
    requires n <= |input.sessions| && run != "" && skill != ""
    ensures (if GroupAfter(input, n, run).Some? then CountIn(GroupAfter(input, n, run).value.skills, skill) else 0)
         == Over(input.sessions[..n], RunListings(run, skill))
  {
    hide Count, Tallied, CountIn, ToolNames;
    NoneCounted(skill);
    if n > 0 {
      SkillsOfRun(input, n - 1, run, skill);
      assert input.sessions[..n] == input.sessions[..n - 1] + [input.sessions[n - 1]];
      OverMore(input.sessions[..n - 1], input.sessions[n - 1], RunListings(run, skill));
      var before := GroupAfter(input, n - 1, run);
      var counts: map<string, nat> := if before.Some? then before.value.skills else map[];
      TalliedCounts(counts, input.sessions[n - 1].skills, skill);
    }
  }
}
