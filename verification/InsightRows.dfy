/** Rows of the insights response: what a list of touches, each naming a row and the session that
    reached it, leaves in five tables, and what those rows add up to. */
module InsightRows {
  import opened Wrappers

  // ---------- What the pass reads ----------

  /** An event of a turn, a session or a run: its type and what the pass reads of its data. */
  datatype Event = Event(kind: string, dataKind: string, outcome: string, success: bool, classification: string)

  /** `models` and `skills` are the names the session record carries; `handoff` says of a partial
      handoff whether it holds useful progress. */
  datatype Session = Session(id: string, runId: string, query: string, domain: string,
                             start: int, end: int, turns: int, cost: int, outcome: string,
                             failureCode: string, failureCategory: string, handoff: Option<bool>,
                             models: seq<string>, skills: seq<string>, events: seq<Event>)

  /** Token counts and cost of one response; a missing or malformed number is 0. */
  datatype Usage = Usage(promptTokens: int, inputTokens: int, completionTokens: int, outputTokens: int,
                         cachedTokens: int, detailsCached: int, telemetryCached: int, totalTokens: int, cost: int)

  /** An estimate of what one request cost, by kind of token. */
  datatype Price = Price(input: int, cachedInput: int, output: int, total: int)

  /** `error` is its error text or, failing that, its result. */
  datatype Execution = Execution(tool: string, success: bool, duration: int, error: string)

  /** One turn: `model` is the normalized request model, `price` the estimate for it if there is one. */
  datatype Entry = Entry(asked: bool, usage: Option<Usage>, model: string, price: Option<Price>, duration: int,
                         executions: seq<Execution>, events: seq<Event>)

  datatype Verdict = Verdict(success: bool, reason: string)

  /** The selected sessions in their order, with the turns of each and the events of each run. */
  datatype Input = Input(sessions: seq<Session>, entries: map<string, seq<Entry>>, runEvents: map<string, seq<Event>>)

  function EntriesOf(input: Input, i: nat): seq<Entry>
    requires i < |input.sessions|
  {
    var id := input.sessions[i].id;
    if id in input.entries then input.entries[id] else []
  }

  function RunEventsOf(input: Input, run: string): seq<Event> {
    if run in input.runEvents then input.runEvents[run] else []
  }

  predicate Succeeded(outcome: string) {
    outcome == "completed" || outcome == "success"
  }

  function FailureLabel(s: Session): Option<string> {
    if s.failureCode != "" && s.failureCode != "none" then Some(s.failureCode)
    else if s.failureCategory != "" && s.failureCategory != "none" then Some(s.failureCategory)
    else if Succeeded(s.outcome) then None
    else Some(if s.outcome == "" then "unknown_failure" else s.outcome)
  }

  function FirstPositive(numbers: seq<int>): (r: int)
    ensures r >= 0
  {
    if numbers == [] then 0 else if numbers[0] > 0 then numbers[0] else FirstPositive(numbers[1..])
  }

  function PromptTokens(usage: Option<Usage>): (r: int)
    ensures r >= 0
  {
    if usage.None? then 0 else FirstPositive([usage.value.promptTokens, usage.value.inputTokens])
  }

  function CompletionTokens(usage: Option<Usage>): int {
    if usage.None? then 0 else FirstPositive([usage.value.completionTokens, usage.value.outputTokens])
  }

  /** Cached tokens never exceed the prompt tokens they are part of. */
  function CachedTokens(usage: Option<Usage>, promptTokens: int): (r: int)
    requires promptTokens >= 0
    ensures 0 <= r <= promptTokens
  {
    if usage.None? then 0
    else
      var cached := FirstPositive([usage.value.cachedTokens, usage.value.detailsCached, usage.value.telemetryCached]);
      if cached < promptTokens then cached else promptTokens
  }

  function TotalTokens(usage: Option<Usage>): int {
    var total := if usage.None? then 0 else FirstPositive([usage.value.totalTokens]);
    if total != 0 then total else PromptTokens(usage) + CompletionTokens(usage)
  }

  // ---------- Money ----------

  /** Costs a response states, costs estimated for it, and requests there is no price for. */
  datatype Money = Money(stated: int, input: int, cachedInput: int, output: int, total: int, unpriced: int)

  function PlusMoney(a: Money, b: Money): Money {
    Money(a.stated + b.stated, a.input + b.input, a.cachedInput + b.cachedInput, a.output + b.output,
          a.total + b.total, a.unpriced + b.unpriced)
  }

  function NoMoney(): Money {
    Money(0, 0, 0, 0, 0, 0)
  }

  lemma MoneyLaws(a: Money, b: Money, c: Money)
    ensures PlusMoney(a, b) == PlusMoney(b, a) && PlusMoney(PlusMoney(a, b), c) == PlusMoney(a, PlusMoney(b, c))
    ensures PlusMoney(a, NoMoney()) == a && PlusMoney(NoMoney(), a) == a
  {}

  /** A request without an estimate is unpriced if it used tokens. */
  function MoneyOf(e: Entry): Money {
    var stated := if e.usage.None? then 0 else FirstPositive([e.usage.value.cost]);
    match e.price
    case Some(p) => Money(stated, p.input, p.cachedInput, p.output, p.total, 0)
    case None =>
      Money(stated, 0, 0, 0, 0, if PromptTokens(e.usage) > 0 || CompletionTokens(e.usage) > 0 then 1 else 0)
  }

  // ---------- Rows ----------

  datatype Table = Tools | Skills | Models | Failures | Events
  datatype Key = Key(table: Table, id: string)

  datatype Delta = Delta(calls: int, requests: int, successes: int, failures: int, duration: int,
                         prompt: int, completion: int, cached: int, total: int, money: Money)

  function Plus(a: Delta, b: Delta): Delta {
    Delta(a.calls + b.calls, a.requests + b.requests, a.successes + b.successes, a.failures + b.failures,
          a.duration + b.duration, a.prompt + b.prompt, a.completion + b.completion, a.cached + b.cached,
          a.total + b.total, PlusMoney(a.money, b.money))
  }

  lemma PlusLaws(a: Delta, b: Delta, c: Delta)
    ensures Plus(a, b) == Plus(b, a) && Plus(Plus(a, b), c) == Plus(a, Plus(b, c))
    ensures Plus(a, Zero()) == a && Plus(Zero(), a) == a
  {
    hide PlusMoney, NoMoney;
    MoneyLaws(a.money, b.money, c.money);
  }

  function Zero(): Delta {
    Delta(0, 0, 0, 0, 0, 0, 0, 0, 0, NoMoney())
  }

  function Call(): Delta {
    Delta(1, 0, 0, 0, 0, 0, 0, 0, 0, NoMoney())
  }

  datatype Metric = Metric(sessions: set<string>, runs: set<string>, sums: Delta, turns: int, cost: int,
                           sampleSession: Option<string>, sampleRun: Option<string>)

  function EmptyRow(): Metric {
    Metric({}, {}, Zero(), 0, 0, None, None)
  }

  /** A table's rows, and their keys in order of insertion. */
  datatype Rows = Rows(order: seq<Key>, row: map<Key, Metric>)

  function RowOf(rows: Rows, key: Key): Metric {
    if key in rows.row then rows.row[key] else EmptyRow()
  }

  function WithRow(rows: Rows, key: Key): Rows {
    if key in rows.row then rows else Rows(rows.order + [key], rows.row[key := EmptyRow()])
  }

  /** A session's turns and cost count the first time its id reaches the row. */
  function RecordSession(row: Metric, s: Session): Metric {
    var had := s.id != "" && s.id in row.sessions;
    row.(sessions := if s.id == "" then row.sessions else row.sessions + {s.id},
         runs := if s.runId == "" then row.runs else row.runs + {s.runId},
         turns := row.turns + (if had then 0 else s.turns),
         cost := row.cost + (if had then 0 else s.cost),
         sampleSession := if s.id != "" && row.sampleSession.None? then Some(s.id) else row.sampleSession,
         sampleRun := if s.runId != "" && row.sampleRun.None? then Some(s.runId) else row.sampleRun)
  }

  /** One visit to a row: by session number `who`, or by none when only counters move. */
  datatype Touch = Touch(key: Key, who: Option<nat>, delta: Delta)

  function Touched(sessions: seq<Session>, row: Metric, t: Touch): Metric
    requires t.who.Some? ==> t.who.value < |sessions|
  {
    var recorded := if t.who.Some? then RecordSession(row, sessions[t.who.value]) else row;
    recorded.(sums := Plus(recorded.sums, t.delta))
  }

  ghost predicate WellNamed(sessions: seq<Session>, touches: seq<Touch>) {
    forall k | 0 <= k < |touches| && touches[k].who.Some? :: touches[k].who.value < |sessions|
  }

  /** The rows after a list of touches. */
  ghost function Tally(sessions: seq<Session>, touches: seq<Touch>): Rows
    requires WellNamed(sessions, touches)
  {
    if touches == [] then Rows([], map[])
    else
      var n := |touches| - 1;
      var t := touches[n];
      var rows := WithRow(Tally(sessions, touches[..n]), t.key);
      rows.(row := rows.row[t.key := Touched(sessions, rows.row[t.key], t)])
  }

  // ---------- What a list of touches adds up to ----------

  ghost function Sum(n: nat, f: nat -> int): int {
    if n == 0 then 0 else Sum(n - 1, f) + f(n - 1)
  }

  lemma {:induction false} SumSame(n: nat, f: nat -> int, g: nat -> int)
    requires forall i: nat | i < n :: f(i) == g(i)
    ensures Sum(n, f) == Sum(n, g)
  {
    if n > 0 {
      SumSame(n - 1, f, g);
    }
  }

  lemma {:induction false} SumMoved(n: nat, f: nat -> int, g: nat -> int, j: nat)
    requires j < n && forall i: nat | i < n && i != j :: f(i) == g(i)
    ensures Sum(n, g) == Sum(n, f) + g(j) - f(j)
  {
    if j == n - 1 {
      SumSame(n - 1, f, g);
    } else {
      SumMoved(n - 1, f, g, j);
    }
  }

  /** Visits of session i to a row. */
  ghost function Hits(touches: seq<Touch>, key: Key, i: nat): nat {
    if touches == [] then 0
    else
      var n := |touches| - 1;
      Hits(touches[..n], key, i) + (if touches[n].key == key && touches[n].who == Some(i) then 1 else 0)
  }

  ghost function DeltaOf(touches: seq<Touch>, key: Key): Delta {
    if touches == [] then Zero()
    else
      var n := |touches| - 1;
      if touches[n].key == key then Plus(DeltaOf(touches[..n], key), touches[n].delta) else DeltaOf(touches[..n], key)
  }

  ghost function TableDelta(touches: seq<Touch>, table: Table): Delta {
    if touches == [] then Zero()
    else
      var n := |touches| - 1;
      if touches[n].key.table == table then Plus(TableDelta(touches[..n], table), touches[n].delta)
      else TableDelta(touches[..n], table)
  }

  lemma {:induction false} HitsConcat(a: seq<Touch>, b: seq<Touch>, key: Key, i: nat)
    ensures Hits(a + b, key, i) == Hits(a, key, i) + Hits(b, key, i)
  {
    if b == [] {
      assert a + b == a;
    } else {
      var n := |b| - 1;
      assert (a + b)[..|a + b| - 1] == a + b[..n];
      HitsConcat(a, b[..n], key, i);
    }
  }

  lemma {:induction false} DeltaConcat(a: seq<Touch>, b: seq<Touch>, key: Key)
    ensures DeltaOf(a + b, key) == Plus(DeltaOf(a, key), DeltaOf(b, key))
  {
    hide Plus;
    if b == [] {
      assert a + b == a;
      PlusLaws(DeltaOf(a, key), Zero(), Zero());
    } else {
      var n := |b| - 1;
      assert (a + b)[..|a + b| - 1] == a + b[..n];
      DeltaConcat(a, b[..n], key);
      PlusLaws(DeltaOf(a, key), DeltaOf(b[..n], key), b[n].delta);
    }
  }

  lemma {:induction false} TableConcat(a: seq<Touch>, b: seq<Touch>, table: Table)
    ensures TableDelta(a + b, table) == Plus(TableDelta(a, table), TableDelta(b, table))
  {
    hide Plus;
    if b == [] {
      assert a + b == a;
      PlusLaws(TableDelta(a, table), Zero(), Zero());
    } else {
      var n := |b| - 1;
      assert (a + b)[..|a + b| - 1] == a + b[..n];
      TableConcat(a, b[..n], table);
      PlusLaws(TableDelta(a, table), TableDelta(b[..n], table), b[n].delta);
    }
  }

  datatype Measure = Turns | Cost

  function Amount(m: Measure, s: Session): int {
    if m.Turns? then s.turns else s.cost
  }

  function Total(m: Measure, row: Metric): int {
    if m.Turns? then row.turns else row.cost
  }

  /** What session i owes a row: its amount once, however often it visits; without an id to know
      it by, its amount at every visit. */
  ghost function Share(sessions: seq<Session>, m: Measure, hits: nat, i: nat): int
    requires i < |sessions|
  {
    if sessions[i].id == "" then hits * Amount(m, sessions[i])
    else if hits > 0 then Amount(m, sessions[i])
    else 0
  }

  ghost predicate DistinctIds(sessions: seq<Session>) {
    forall i, j | 0 <= i < j < |sessions| && sessions[i].id == sessions[j].id :: sessions[i].id == ""
  }

  ghost function Shares(sessions: seq<Session>, touches: seq<Touch>, key: Key, m: Measure): int {
    Sum(|sessions|, (i: nat) => if i < |sessions| then Share(sessions, m, Hits(touches, key, i), i) else 0)
  }

  ghost predicate Visited(sessions: seq<Session>, touches: seq<Touch>, key: Key, id: string) {
    id != "" && exists i: nat :: i < |sessions| && sessions[i].id == id && Hits(touches, key, i) > 0
  }

  /** A row's sessions are those that visited it, and its turns and cost their shares. */
  ghost predicate RowAddsUp(sessions: seq<Session>, touches: seq<Touch>, key: Key)
    requires WellNamed(sessions, touches)
  {
    var row := RowOf(Tally(sessions, touches), key);
    && (forall id :: id in row.sessions <==> Visited(sessions, touches, key, id))
    && row.turns == Shares(sessions, touches, key, Turns)
    && row.cost == Shares(sessions, touches, key, Cost)
  }

  /** Its counters are the sums of the deltas, whoever the sessions are. */
  lemma {:induction false} RowSums(sessions: seq<Session>, touches: seq<Touch>, key: Key)
    requires WellNamed(sessions, touches)
    ensures RowOf(Tally(sessions, touches), key).sums == DeltaOf(touches, key)
  {
    hide Tally, RowOf, Plus;
    if touches == [] {
      NoRow(sessions, key);
    } else {
      RowSums(sessions, touches[..|touches| - 1], key);
      RowAfter(sessions, touches, key);
    }
  }

  lemma NoRow(sessions: seq<Session>, key: Key)
    ensures RowOf(Tally(sessions, []), key) == EmptyRow()
  {}

  lemma SharesUnmoved(sessions: seq<Session>, a: seq<Touch>, b: seq<Touch>, key: Key, m: Measure)
    requires forall i: nat | i < |sessions| :: Hits(a, key, i) == Hits(b, key, i)
    ensures Shares(sessions, a, key, m) == Shares(sessions, b, key, m)
  {
    SumSame(|sessions|, (i: nat) => if i < |sessions| then Share(sessions, m, Hits(a, key, i), i) else 0,
            (i: nat) => if i < |sessions| then Share(sessions, m, Hits(b, key, i), i) else 0);
  }

  lemma SharesMoved(sessions: seq<Session>, a: seq<Touch>, b: seq<Touch>, key: Key, m: Measure, j: nat)
    requires j < |sessions| && forall i: nat | i < |sessions| && i != j :: Hits(a, key, i) == Hits(b, key, i)
    ensures Shares(sessions, b, key, m)
            == Shares(sessions, a, key, m)
               + Share(sessions, m, Hits(b, key, j), j) - Share(sessions, m, Hits(a, key, j), j)
  {
    SumMoved(|sessions|, (i: nat) => if i < |sessions| then Share(sessions, m, Hits(a, key, i), i) else 0,
             (i: nat) => if i < |sessions| then Share(sessions, m, Hits(b, key, i), i) else 0, j);
  }

  /** A row knows the sessions that visited it, by their ids. */
  lemma KnownVisitor(sessions: seq<Session>, touches: seq<Touch>, key: Key, j: nat)
    requires DistinctIds(sessions) && WellNamed(sessions, touches) && j < |sessions|
    requires RowAddsUp(sessions, touches, key) && sessions[j].id != ""
    ensures sessions[j].id in RowOf(Tally(sessions, touches), key).sessions <==> Hits(touches, key, j) > 0
  {
    hide Hits, Tally, RowOf, Shares, DeltaOf;
  }

  /** One visit more: a known session that came before adds nothing. */
  lemma OneMoreVisit(sessions: seq<Session>, touches: seq<Touch>, key: Key, m: Measure, j: nat, delta: Delta)
    requires DistinctIds(sessions) && WellNamed(sessions, touches) && j < |sessions|
    requires RowAddsUp(sessions, touches, key)
    ensures var more := touches + [Touch(key, Some(j), delta)];
            var row := RowOf(Tally(sessions, touches), key);
            Shares(sessions, more, key, m) == Total(m, RecordSession(row, sessions[j]))
  {
    hide Shares, Tally, RowOf, DistinctIds, DeltaOf;
    var more := touches + [Touch(key, Some(j), delta)];
    assert more[..|touches|] == touches;
    var h, s := Hits(touches, key, j), sessions[j];
    assert Hits(more, key, j) == h + 1;
    SharesMoved(sessions, touches, more, key, m, j);
    if s.id != "" {
      KnownVisitor(sessions, touches, key, j);
    } else {
      assert (h + 1) * Amount(m, s) == h * Amount(m, s) + Amount(m, s);
    }
  }

  lemma {:induction false} RowsAddUp(sessions: seq<Session>, touches: seq<Touch>, key: Key)
    requires DistinctIds(sessions) && WellNamed(sessions, touches)
    ensures RowAddsUp(sessions, touches, key)
  {
    if touches == [] {
      NoShares(sessions, key, Turns);
      NoShares(sessions, key, Cost);
    } else {
      RowsAddUp(sessions, touches[..|touches| - 1], key);
      StepAddsUp(sessions, touches, key);
    }
  }

  lemma NoShares(sessions: seq<Session>, key: Key, m: Measure)
    ensures Shares(sessions, [], key, m) == 0
  {
    SumZero(|sessions|, (i: nat) => if i < |sessions| then Share(sessions, m, Hits([], key, i), i) else 0);
  }

  lemma {:induction false} SumZero(n: nat, f: nat -> int)
    requires forall i: nat | i < n :: f(i) == 0
    ensures Sum(n, f) == 0
  {
    if n > 0 {
      SumZero(n - 1, f);
    }
  }

  /** The last touch of a list changes its own row and no other. */
  lemma RowAfter(sessions: seq<Session>, touches: seq<Touch>, key: Key)
    requires WellNamed(sessions, touches) && touches != []
    ensures var front, t := touches[..|touches| - 1], touches[|touches| - 1];
            var before := RowOf(Tally(sessions, front), key);
            RowOf(Tally(sessions, touches), key) == if t.key == key then Touched(sessions, before, t) else before
  {
    hide Touched;
  }

  lemma StepAddsUp(sessions: seq<Session>, touches: seq<Touch>, key: Key)
    requires DistinctIds(sessions) && WellNamed(sessions, touches) && touches != []
    requires RowAddsUp(sessions, touches[..|touches| - 1], key)
    ensures RowAddsUp(sessions, touches, key)
  {
    hide Tally, RowOf, Shares, DistinctIds;
    var front, t := touches[..|touches| - 1], touches[|touches| - 1];
    assert touches == front + [t];
    RowAfter(sessions, touches, key);
    if t.key == key && t.who.Some? {
      OneMoreVisit(sessions, front, key, Turns, t.who.value, t.delta);
      OneMoreVisit(sessions, front, key, Cost, t.who.value, t.delta);
      SessionsAfter(sessions, front, t);
    } else {
      SharesUnmoved(sessions, front, touches, key, Turns);
      SharesUnmoved(sessions, front, touches, key, Cost);
    }
  }

  /** Who is known to have visited, after one visit more. */
  lemma SessionsAfter(sessions: seq<Session>, front: seq<Touch>, t: Touch)
    requires t.who.Some? && t.who.value < |sessions|
    ensures forall id :: Visited(sessions, front + [t], t.key, id)
                    <==> Visited(sessions, front, t.key, id) || (id != "" && id == sessions[t.who.value].id)
  {
    assert (front + [t])[..|front|] == front;
    forall i: nat ensures Hits(front + [t], t.key, i) == Hits(front, t.key, i) + (if t.who == Some(i) then 1 else 0) {}
  }

  // ---------- Runs and samples of a row ----------

  /** A visit to a row by a session that has the name asked for. */
  ghost predicate Brings(sessions: seq<Session>, t: Touch, key: Key, name: Session -> string) {
    t.key == key && t.who.Some? && t.who.value < |sessions| && name(sessions[t.who.value]) != ""
  }

  /** The sample is the name that the first such visit brought. */
  ghost predicate FirstBrought(sessions: seq<Session>, touches: seq<Touch>, key: Key, name: Session -> string,
                               sample: Option<string>)
  {
    match sample
    case None => forall k | 0 <= k < |touches| :: !Brings(sessions, touches[k], key, name)
    case Some(given) =>
      exists k :: && 0 <= k < |touches| && Brings(sessions, touches[k], key, name)
                  && name(sessions[touches[k].who.value]) == given
                  && forall j | 0 <= j < k :: !Brings(sessions, touches[j], key, name)
  }

  ghost predicate SomeBrought(sessions: seq<Session>, touches: seq<Touch>, key: Key, name: Session -> string,
                              given: string)
  {
    exists k :: && 0 <= k < |touches| && Brings(sessions, touches[k], key, name)
                && name(sessions[touches[k].who.value]) == given
  }

  lemma FirstBroughtNext(sessions: seq<Session>, front: seq<Touch>, t: Touch, key: Key, name: Session -> string,
                         sample: Option<string>)
    requires FirstBrought(sessions, front, key, name, sample)
    ensures FirstBrought(sessions, front + [t], key, name,
                         if sample.None? && Brings(sessions, t, key, name) then Some(name(sessions[t.who.value]))
                         else sample)
  {
    if sample.None? && Brings(sessions, t, key, name) {
      assert (front + [t])[|front|] == t;
    } else if sample.Some? {
      var k :| 0 <= k < |front| && Brings(sessions, front[k], key, name)
               && name(sessions[front[k].who.value]) == sample.value
               && forall j | 0 <= j < k :: !Brings(sessions, front[j], key, name);
      assert (front + [t])[k] == front[k];
    }
  }

  lemma SomeBroughtNext(sessions: seq<Session>, front: seq<Touch>, t: Touch, key: Key, name: Session -> string,
                        given: string)
    ensures SomeBrought(sessions, front + [t], key, name, given)
       <==> || SomeBrought(sessions, front, key, name, given)
            || (Brings(sessions, t, key, name) && name(sessions[t.who.value]) == given)
  {
    hide Brings;
    var touches := front + [t];
    assert touches[|front|] == t && forall k | 0 <= k < |front| :: touches[k] == front[k];
  }

  /** A row's runs are those its visitors name; its samples are the first id and the first run that
      a visitor has. */
  lemma {:induction false} SamplesAre(sessions: seq<Session>, touches: seq<Touch>, key: Key)
    requires WellNamed(sessions, touches)
    ensures var row := RowOf(Tally(sessions, touches), key);
            && FirstBrought(sessions, touches, key, (s: Session) => s.id, row.sampleSession)
            && FirstBrought(sessions, touches, key, (s: Session) => s.runId, row.sampleRun)
            && forall run :: run in row.runs <==> SomeBrought(sessions, touches, key, (s: Session) => s.runId, run)
  {
    hide FirstBrought, SomeBrought, Tally, RowOf;
    var ids, runs := (s: Session) => s.id, (s: Session) => s.runId;
    if touches == [] {
      NoRow(sessions, key);
      NothingBrought(sessions, key, ids);
      NothingBrought(sessions, key, runs);
    } else {
      var front, t := touches[..|touches| - 1], touches[|touches| - 1];
      assert touches == front + [t];
      SamplesAre(sessions, front, key);
      RowAfter(sessions, touches, key);
      var before := RowOf(Tally(sessions, front), key);
      FirstBroughtNext(sessions, front, t, key, ids, before.sampleSession);
      FirstBroughtNext(sessions, front, t, key, runs, before.sampleRun);
      forall run ensures SomeBrought(sessions, touches, key, runs, run)
                    <==> || SomeBrought(sessions, front, key, runs, run)
                         || (Brings(sessions, t, key, runs) && runs(sessions[t.who.value]) == run)
      {
        SomeBroughtNext(sessions, front, t, key, runs, run);
      }
    }
  }

  lemma NothingBrought(sessions: seq<Session>, key: Key, name: Session -> string)
    ensures FirstBrought(sessions, [], key, name, None) && forall given :: !SomeBrought(sessions, [], key, name, given)
  {}

  // ---------- Sums over a table ----------

  /** The rows of a table, summed in order of insertion. */
  ghost function OrderSum(order: seq<Key>, row: map<Key, Metric>, table: Table): Delta
    requires forall key | key in order :: key in row
  {
    if order == [] then Zero()
    else
      var n := |order| - 1;
      assert order[n] in order;
      if order[n].table == table then Plus(OrderSum(order[..n], row, table), row[order[n]].sums)
      else OrderSum(order[..n], row, table)
  }

  /** The keys in `order` are those with a row, each once. */
  ghost predicate InOrder(rows: Rows) {
    && (forall key :: key in rows.order <==> key in rows.row)
    && (forall i, j | 0 <= i < j < |rows.order| :: rows.order[i] != rows.order[j])
  }

  lemma {:induction false} OrderSumSame(order: seq<Key>, a: map<Key, Metric>, b: map<Key, Metric>, table: Table)
    requires forall key | key in order :: key in a && key in b && a[key] == b[key]
    ensures OrderSum(order, a, table) == OrderSum(order, b, table)
  {
    if order != [] {
      assert order[|order| - 1] in order;
      OrderSumSame(order[..|order| - 1], a, b, table);
    }
  }

  lemma {:induction false} OrderSumMoved(order: seq<Key>, row: map<Key, Metric>, key: Key, metric: Metric, d: Delta,
                                         table: Table)
    requires forall k | k in order :: k in row
    requires forall i, j | 0 <= i < j < |order| :: order[i] != order[j]
    requires key in order && metric.sums == Plus(row[key].sums, d)
    ensures var before := OrderSum(order, row, table);
            OrderSum(order, row[key := metric], table) == if key.table == table then Plus(before, d) else before
  {
    hide Plus;
    var n := |order| - 1;
    assert order == order[..n] + [order[n]] && order[n] in order;
    var front := OrderSum(order[..n], row, table);
    PlusLaws(front, row[order[n]].sums, d);
    PlusLaws(front, d, row[order[n]].sums);
    PlusLaws(row[order[n]].sums, d, d);
    if order[n] == key {
      assert key !in order[..n];
      OrderSumSame(order[..n], row, row[key := metric], table);
    } else {
      OrderSumMoved(order[..n], row, key, metric, d, table);
    }
  }

  /** A table's rows add up to all that was put into the table. */
  lemma {:induction false} TableAddsUp(sessions: seq<Session>, touches: seq<Touch>, table: Table)
    requires WellNamed(sessions, touches)
    ensures var rows := Tally(sessions, touches);
            InOrder(rows) && OrderSum(rows.order, rows.row, table) == TableDelta(touches, table)
  {
    hide Plus, InOrder, OrderSum;
    NoRows(table);
    if touches != [] {
      var n := |touches| - 1;
      TableAddsUp(sessions, touches[..n], table);
      var before := Tally(sessions, touches[..n]);
      var t := touches[n];
      WithRowKeeps(before, t.key, table);
      var rows := WithRow(before, t.key);
      RowMoved(rows, t.key, Touched(sessions, rows.row[t.key], t), t.delta, table);
    }
  }

  lemma NoRows(table: Table)
    ensures InOrder(Rows([], map[])) && OrderSum([], map[], table) == Zero()
  {}

  lemma RowMoved(rows: Rows, key: Key, metric: Metric, d: Delta, table: Table)
    requires InOrder(rows) && key in rows.row && metric.sums == Plus(rows.row[key].sums, d)
    ensures var after := rows.(row := rows.row[key := metric]);
            var before := OrderSum(rows.order, rows.row, table);
            && InOrder(after)
            && OrderSum(after.order, after.row, table) == if key.table == table then Plus(before, d) else before
  {
    hide Plus;
    OrderSumMoved(rows.order, rows.row, key, metric, d, table);
  }

  lemma WithRowKeeps(rows: Rows, key: Key, table: Table)
    requires InOrder(rows)
    ensures var more := WithRow(rows, key);
            && InOrder(more) && key in more.row
            && OrderSum(more.order, more.row, table) == OrderSum(rows.order, rows.row, table)
  {
    hide OrderSum;
    if key !in rows.row {
      var more := WithRow(rows, key);
      OrderSumSame(rows.order, rows.row, more.row, table);
      OrderSumLast(rows.order, key, more.row, table);
    }
  }

  lemma OrderSumLast(order: seq<Key>, key: Key, row: map<Key, Metric>, table: Table)
    requires (forall k | k in order :: k in row) && key in row && row[key] == EmptyRow()
    ensures OrderSum(order + [key], row, table) == OrderSum(order, row, table)
  {
    hide Plus;
    assert (order + [key])[..|order|] == order;
    PlusLaws(OrderSum(order, row, table), Zero(), Zero());
  }
}
