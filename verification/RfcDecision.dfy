/** The decision stamp of an RFC: lines of Markdown, with fenced code blanked out, one Decision
    section, its status and its six fields of bullet items. */
module RfcDecision {
  import opened Wrappers

  // ---------- Characters ----------

  /** What `\s` matches and trim() removes. */
  predicate IsSpace(c: char) {
    var n := c as int;
    || 9 <= n <= 13 || n == 32 || n == 160 || n == 5760 || 8192 <= n <= 8202
    || n == 8232 || n == 8233 || n == 8239 || n == 8287 || n == 12288 || n == 65279
  }

  /** What `.` does not match. */
  predicate EndsLine(c: char) {
    c == '\n' || c == '\r' || c as int == 8232 || c as int == 8233
  }

  function TrimStart(s: string): (r: string)
    ensures |r| <= |s| && (r != "" ==> !IsSpace(r[0]))
  {
    if s != "" && IsSpace(s[0]) then TrimStart(s[1..]) else s
  }

  function TrimEnd(s: string): (r: string)
    ensures |r| <= |s| && (r != "" ==> r[0] == s[0])
  {
    if s != "" && IsSpace(s[|s| - 1]) then TrimEnd(s[..|s| - 1]) else s
  }

  function Trim(s: string): string {
    TrimEnd(TrimStart(s))
  }

  function LowerChar(c: char): char {
    if 'A' <= c <= 'Z' then (c as int + 32) as char else c
  }

  function Lower(s: string): (r: string)
    ensures |r| == |s|
  {
    seq(|s|, i requires 0 <= i < |s| => LowerChar(s[i]))
  }

  lemma TrimmedBothEnds(s: string)
    requires Trim(s) == s
    ensures TrimStart(s) == s && TrimEnd(s) == s
  {}

  // ---------- Lines ----------

  /** Splitting at "\r\n", "\r" and "\n". */
  function SplitLines(text: string): (lines: seq<string>)
    ensures |lines| >= 1
  {
    if text == "" then [""]
    else if text[0] == '\r' && |text| > 1 && text[1] == '\n' then [""] + SplitLines(text[2..])
    else if text[0] == '\r' || text[0] == '\n' then [""] + SplitLines(text[1..])
    else
      var rest := SplitLines(text[1..]);
      [[text[0]] + rest[0]] + rest[1..]
  }

  function JoinLines(lines: seq<string>): string
    requires lines != []
  {
    if |lines| == 1 then lines[0] else lines[0] + "\n" + JoinLines(lines[1..])
  }

  predicate OneLine(s: string) {
    '\n' !in s && '\r' !in s
  }

  lemma {:induction false} SplitLine(line: string, rest: string)
    requires OneLine(line)
    ensures SplitLines(line) == [line]
    ensures SplitLines(line + "\n" + rest) == [line] + SplitLines(rest)
  {
    if line != "" {
      assert line[0] in line && forall c | c in line[1..] :: c in line;
      SplitLine(line[1..], rest);
      assert (line + "\n" + rest)[1..] == line[1..] + "\n" + rest;
      assert [line[0]] + line[1..] == line;
    } else {
      assert ("" + "\n" + rest)[1..] == rest;
    }
  }

  lemma {:induction false} LinesReadBack(lines: seq<string>)
    requires lines != [] && forall i | 0 <= i < |lines| :: OneLine(lines[i])
    ensures SplitLines(JoinLines(lines)) == lines
  {
    if |lines| == 1 {
      SplitLine(lines[0], "");
    } else {
      SplitLine(lines[0], JoinLines(lines[1..]));
      LinesReadBack(lines[1..]);
      assert lines == [lines[0]] + lines[1..];
    }
  }

  // ---------- Fenced code ----------

  datatype Fence = Closed | Open(marker: char, length: nat)

  function Run(s: string, c: char): (n: nat)
    ensures n <= |s|
  {
    if s != "" && s[0] == c then 1 + Run(s[1..], c) else 0
  }

  function Opening(line: string): Fence {
    var t := Trim(line);
    if Run(t, '`') >= 3 then Open('`', Run(t, '`'))
    else if Run(t, '~') >= 3 then Open('~', Run(t, '~'))
    else Closed
  }

  predicate AllSpace(s: string) {
    forall c | c in s :: IsSpace(c)
  }

  /** Section 4.5 of CommonMark: the same marker, at least as often, and nothing after it. */
  predicate Closes(line: string, fence: Fence)
    requires fence.Open?
  {
    var t := Trim(line);
    Run(t, fence.marker) >= fence.length && AllSpace(t[Run(t, fence.marker)..])
  }

  function NextFence(fence: Fence, line: string): Fence {
    if fence.Closed? then Opening(line) else if Closes(line, fence) then Closed else fence
  }

  function Shown(fence: Fence, line: string): string {
    if fence.Closed? && Opening(line).Closed? then line else ""
  }

  function Unfenced(fence: Fence, lines: seq<string>): (shown: seq<string>)
    ensures |shown| == |lines|
    decreases lines
  {
    if lines == [] then [] else [Shown(fence, lines[0])] + Unfenced(NextFence(fence, lines[0]), lines[1..])
  }

  function FenceAfter(fence: Fence, lines: seq<string>): Fence
    decreases lines
  {
    if lines == [] then fence else FenceAfter(NextFence(fence, lines[0]), lines[1..])
  }

  lemma {:induction false} UnfencedConcat(fence: Fence, a: seq<string>, b: seq<string>)
    ensures Unfenced(fence, a + b) == Unfenced(fence, a) + Unfenced(FenceAfter(fence, a), b)
    ensures FenceAfter(fence, a + b) == FenceAfter(FenceAfter(fence, a), b)
    decreases a
  {
    hide NextFence, Shown;
    if a == [] {
      assert a + b == b;
    } else {
      assert (a + b)[1..] == a[1..] + b;
      UnfencedConcat(NextFence(fence, a[0]), a[1..], b);
    }
  }

  /** The fence loop, which keeps one line for each. */
  method RemoveFencedCode(lines: seq<string>) returns (shown: seq<string>)
    ensures shown == Unfenced(Closed, lines)
  {
    hide NextFence, Shown, Opening, Closes;
    shown := [];
    var fence := Closed;
    for i := 0 to |lines|
      invariant shown == Unfenced(Closed, lines[..i]) && fence == FenceAfter(Closed, lines[..i])
    {
      UnfencedConcat(Closed, lines[..i], [lines[i]]);
      assert lines[..i + 1] == lines[..i] + [lines[i]];
      OneUnfenced(fence, lines[i]);
      shown := shown + [Shown(fence, lines[i])];
      fence := NextFence(fence, lines[i]);
    }
    assert lines[..|lines|] == lines;
  }

  lemma OneUnfenced(fence: Fence, line: string)
    ensures Unfenced(fence, [line]) == [Shown(fence, line)] && FenceAfter(fence, [line]) == NextFence(fence, line)
  {
    hide NextFence, Shown;
  }

  /** What is shown holds no fence, so removing fences again changes nothing; each line is shown
      whole or blank. */
  lemma {:induction false} UnfencedTwice(fence: Fence, lines: seq<string>)
    ensures Unfenced(Closed, Unfenced(fence, lines)) == Unfenced(fence, lines)
    ensures FenceAfter(Closed, Unfenced(fence, lines)) == Closed
    ensures forall i | 0 <= i < |lines| :: Unfenced(fence, lines)[i] == lines[i] || Unfenced(fence, lines)[i] == ""
    decreases lines
  {
    if lines != [] {
      hide Opening, Closes;
      BlankOpensNothing();
      var rest := Unfenced(NextFence(fence, lines[0]), lines[1..]);
      UnfencedTwice(NextFence(fence, lines[0]), lines[1..]);
      assert Unfenced(fence, lines)[1..] == rest;
    }
  }

  lemma BlankOpensNothing()
    ensures Opening("").Closed?
  {}

  /** A fence, content that does not close it, and the line that does. */
  predicate FencedBlock(block: seq<string>) {
    && |block| >= 2
    && Opening(block[0]).Open?
    && (forall k | 1 <= k < |block| - 1 :: !Closes(block[k], Opening(block[0])))
    && Closes(block[|block| - 1], Opening(block[0]))
  }

  function Blanks(n: nat): seq<string> {
    seq(n, _ => "")
  }

  lemma {:induction false} InsideFence(fence: Fence, content: seq<string>)
    requires fence.Open? && forall k | 0 <= k < |content| :: !Closes(content[k], fence)
    ensures Unfenced(fence, content) == Blanks(|content|) && FenceAfter(fence, content) == fence
  {
    hide Closes;
    if content != [] {
      InsideFence(fence, content[1..]);
    }
  }

  lemma BlockIsBlank(block: seq<string>)
    requires FencedBlock(block)
    ensures Unfenced(Closed, block) == Blanks(|block|) && FenceAfter(Closed, block) == Closed
  {
    hide Closes, Opening;
    var fence := Opening(block[0]);
    var content, last := block[1..|block| - 1], block[|block| - 1];
    assert block[1..] == content + [last];
    InsideFence(fence, content);
    UnfencedConcat(fence, content, [last]);
    OneUnfenced(fence, last);
    assert Blanks(|block|) == [""] + Blanks(|content|) + [""];
  }

  // ---------- The section ----------

  /** The numbers of the lines that satisfy p, ascending. */
  function Where(lines: seq<string>, p: string -> bool): seq<nat> {
    if lines == [] then []
    else
      var n := |lines| - 1;
      Where(lines[..n], p) + (if p(lines[n]) then [n] else [])
  }

  function Shifted(numbers: seq<nat>, k: nat): seq<nat> {
    seq(|numbers|, i requires 0 <= i < |numbers| => numbers[i] + k)
  }

  lemma {:induction false} WhereConcat(a: seq<string>, b: seq<string>, p: string -> bool)
    ensures Where(a + b, p) == Where(a, p) + Shifted(Where(b, p), |a|)
  {
    if b == [] {
      assert a + b == a;
    } else {
      var n := |b| - 1;
      assert (a + b)[..|a + b| - 1] == a + b[..n];
      WhereConcat(a, b[..n], p);
    }
  }

  lemma {:induction false} WhereMembers(lines: seq<string>, p: string -> bool)
    ensures forall i :: i in Where(lines, p) <==> 0 <= i < |lines| && p(lines[i])
  {
    if lines != [] {
      var n := |lines| - 1;
      WhereMembers(lines[..n], p);
      forall i | 0 <= i < n ensures lines[..n][i] == lines[i] {}
    }
  }

  lemma {:induction false} WhereNone(lines: seq<string>, p: string -> bool)
    requires forall i | 0 <= i < |lines| :: !p(lines[i])
    ensures Where(lines, p) == []
  {
    if lines != [] {
      WhereNone(lines[..|lines| - 1], p);
    }
  }

  /** "##", white space, more. */
  predicate IsHeading(line: string) {
    var t := Trim(line);
    |t| >= 3 && t[..2] == "##" && IsSpace(t[2])
  }

  predicate IsDecision(line: string) {
    var t := Trim(line);
    |t| >= 3 && t[..2] == "##" && IsSpace(t[2]) && Lower(Trim(t[2..])) == "decision"
  }

  /** The first line from here on that satisfies p, or the end. */
  function FirstFrom(lines: seq<string>, from: nat, p: string -> bool): (k: nat)
    requires from <= |lines|
    ensures from <= k <= |lines|
    decreases |lines| - from
  {
    if from == |lines| || p(lines[from]) then from else FirstFrom(lines, from + 1, p)
  }

  /** The lines after line i, up to the next that satisfies p. */
  function Span(lines: seq<string>, i: nat, p: string -> bool): seq<string>
    requires i < |lines|
  {
    lines[i + 1..FirstFrom(lines, i + 1, p)]
  }

  datatype Section = Absent | Repeated | Block(lines: seq<string>)

  /** The lines of the one Decision section. */
  function SectionOf(lines: seq<string>): Section {
    var headings := Where(lines, IsDecision);
    if |headings| == 0 then Absent
    else if |headings| > 1 then Repeated
    else
      WhereMembers(lines, IsDecision);
      assert headings[0] in headings;
      Block(Span(lines, headings[0], IsHeading))
  }

  // ---------- Fields and their items ----------

  datatype Field = ChosenPath | RequiredEdits | FollowUps | DoNotDo | Evidence | NextAction

  function Rank(f: Field): nat {
    match f
    case ChosenPath => 0
    case RequiredEdits => 1
    case FollowUps => 2
    case DoNotDo => 3
    case Evidence => 4
    case NextAction => 5
  }

  /** The k-th field in canonical order. */
  function Nth(k: nat): (f: Field)
    requires k < 6
    ensures Rank(f) == k
  {
    if k == 0 then ChosenPath
    else if k == 1 then RequiredEdits
    else if k == 2 then FollowUps
    else if k == 3 then DoNotDo
    else if k == 4 then Evidence
    else NextAction
  }

  function Label(f: Field): string {
    match f
    case ChosenPath => "Chosen path:"
    case RequiredEdits => "Required edits before implementation:"
    case FollowUps => "Non-blocking follow-ups:"
    case DoNotDo => "Do not do:"
    case Evidence => "Evidence required before merge:"
    case NextAction => "Next action:"
  }

  predicate IsLabel(line: string, f: Field) {
    Lower(Trim(line)) == Lower(Label(f))
  }

  datatype Error =
    | MissingSection | RepeatedSection
    | StatusCount | StatusUnknown | StatusLate
    | FieldCount(field: Field) | FieldsOutOfOrder
    | NotBullet(field: Field) | Placeholder(field: Field, value: string) | NoItems(field: Field)
    | PathIsNone | EditsBlockApproval | EditsMissing | EvidenceMissing
    | ActionUnknown | ActionCount | ActionInconsistent

  /** The text that `(.+?)\s*$` takes from s after white space, trimmed: at least one character that
      does not end a line, even if it is white space itself. */
  function Rest(s: string): Option<string> {
    var body := Trim(s);
    if body != "" then
      if forall c | c in body :: !EndsLine(c) then Some(body) else None
    else if exists c | c in s :: !EndsLine(c) then Some("")
    else None
  }

  /** "-", white space, text. */
  function BulletText(line: string): Option<string> {
    var t := TrimStart(line);
    if |t| >= 2 && t[0] == '-' && IsSpace(t[1]) then
      if Trim(t[2..]) == "" then Rest(t[2..]) else Rest(t[1..])
    else None
  }

  predicate Continues(line: string) {
    |line| >= 3 && IsSpace(line[0]) && IsSpace(line[1]) && Trim(line) != ""
  }

  datatype Reading = Reading(items: seq<string>, bad: nat)

  function ReadLine(r: Reading, line: string): Reading {
    if Trim(line) == "" then r
    else if BulletText(line).Some? then r.(items := r.items + [BulletText(line).value])
    else if Continues(line) && r.items != [] then
      var n := |r.items| - 1;
      r.(items := r.items[n := r.items[n] + " " + Trim(line)])
    else r.(bad := r.bad + 1)
  }

  function ReadLines(lines: seq<string>): Reading {
    if lines == [] then Reading([], 0)
    else ReadLine(ReadLines(lines[..|lines| - 1]), lines[|lines| - 1])
  }

  predicate AllDots(s: string) {
    s != "" && forall c | c in s :: c == '.'
  }

  function Normalized(value: string): string {
    var t := Lower(Trim(value));
    if AllDots(t) then "..."
    else if t != "" && (t[|t| - 1] == '.' || t[|t| - 1] == ';') then t[..|t| - 1]
    else t
  }

  predicate IsPlaceholder(value: string) {
    var n := Normalized(value);
    n == "..." || n == "n/a" || n == "pending" || n == "tbd" || n == "to be decided" || n == "todo" || n == "unknown"
  }

  predicate IsNone(items: seq<string>) {
    |items| == 1 && Normalized(items[0]) == "none"
  }

  function Resolved(items: seq<string>): (r: seq<string>)
    ensures forall x | x in r :: x in items && !IsPlaceholder(x)
  {
    if items == [] then []
    else
      var n := |items| - 1;
      Resolved(items[..n]) + (if IsPlaceholder(items[n]) then [] else [items[n]])
  }

  function PlaceholderErrors(f: Field, items: seq<string>): seq<Error> {
    if items == [] then []
    else
      var n := |items| - 1;
      PlaceholderErrors(f, items[..n]) + (if IsPlaceholder(items[n]) then [Placeholder(f, items[n])] else [])
  }

  function Items(lines: seq<string>): seq<string> {
    Resolved(ReadLines(lines).items)
  }

  function NotBullets(f: Field, n: nat): seq<Error> {
    seq(n, _ => NotBullet(f))
  }

  function ItemErrors(f: Field, lines: seq<string>): seq<Error> {
    NotBullets(f, ReadLines(lines).bad) + PlaceholderErrors(f, ReadLines(lines).items)
    + (if Items(lines) == [] then [NoItems(f)] else [])
  }

  /** The loop over a field's lines: bullets, and lines that continue one. */
  method CollectItems(lines: seq<string>, f: Field) returns (items: seq<string>, errors: seq<Error>)
    ensures items == ReadLines(lines).items && errors == NotBullets(f, ReadLines(lines).bad)
  {
    hide BulletText, Continues, Trim;
    items, errors := [], [];
    ghost var bad := 0;
    for i := 0 to |lines|
      invariant ReadLines(lines[..i]) == Reading(items, bad)
      invariant errors == NotBullets(f, bad)
    {
      assert lines[..i + 1][..i] == lines[..i];
      if Trim(lines[i]) != "" {
        var bullet := BulletText(lines[i]);
        if bullet.Some? {
          items := items + [bullet.value];
        } else if Continues(lines[i]) && |items| > 0 {
          items := items[|items| - 1 := items[|items| - 1] + " " + Trim(lines[i])];
        } else {
          errors := errors + [NotBullet(f)];
          bad := bad + 1;
        }
      }
    }
    assert lines[..|lines|] == lines;
  }

  /** A field's items, without the placeholders, and what is wrong with them. */
  method ReadBulletItems(lines: seq<string>, f: Field) returns (resolved: seq<string>, errors: seq<Error>)
    ensures resolved == Items(lines) && errors == ItemErrors(f, lines)
  {
    hide ReadLines, IsPlaceholder, Resolved, PlaceholderErrors;
    var items: seq<string>;
    items, errors := CollectItems(lines, f);
    ghost var before := errors;
    resolved := [];
    NothingYet(f);
    assert items[..0] == [];
    for i := 0 to |items|
      invariant resolved == Resolved(items[..i]) && errors == before + PlaceholderErrors(f, items[..i])
    {
      OneMoreItem(f, items[..i], items[i]);
      assert items[..i + 1] == items[..i] + [items[i]];
      if IsPlaceholder(items[i]) {
        errors := errors + [Placeholder(f, items[i])];
      } else {
        resolved := resolved + [items[i]];
      }
    }
    assert items[..|items|] == items;
    if |resolved| == 0 {
      errors := errors + [NoItems(f)];
    }
  }

  lemma NothingYet(f: Field)
    ensures Resolved([]) == [] && PlaceholderErrors(f, []) == []
  {}

  lemma OneMoreItem(f: Field, items: seq<string>, item: string)
    ensures Resolved(items + [item]) == Resolved(items) + (if IsPlaceholder(item) then [] else [item])
    ensures PlaceholderErrors(f, items + [item])
         == PlaceholderErrors(f, items) + (if IsPlaceholder(item) then [Placeholder(f, item)] else [])
  {
    hide IsPlaceholder;
    assert (items + [item])[..|items|] == items;
  }

  // ---------- The stamp ----------

  datatype Status = Approved | ApprovedWithEdits | Rejected | Parked | NeedsMoreResearch
  datatype Action = Implement | ReviseRfc | RunSpike | Archive

  function StatusName(s: Status): string {
    match s
    case Approved => "Approved"
    case ApprovedWithEdits => "Approved with edits"
    case Rejected => "Rejected"
    case Parked => "Parked"
    case NeedsMoreResearch => "Needs more research"
  }

  function ActionName(a: Action): string {
    match a
    case Implement => "Implement"
    case ReviseRfc => "Revise RFC"
    case RunSpike => "Run spike"
    case Archive => "Archive"
  }

  function FindStatus(value: string): Option<Status> {
    var v := Lower(value);
    if v == Lower(StatusName(Approved)) then Some(Approved)
    else if v == Lower(StatusName(ApprovedWithEdits)) then Some(ApprovedWithEdits)
    else if v == Lower(StatusName(Rejected)) then Some(Rejected)
    else if v == Lower(StatusName(Parked)) then Some(Parked)
    else if v == Lower(StatusName(NeedsMoreResearch)) then Some(NeedsMoreResearch)
    else None
  }

  function FindAction(value: string): Option<Action> {
    var v := Lower(Normalized(value));
    if v == Lower(ActionName(Implement)) then Some(Implement)
    else if v == Lower(ActionName(ReviseRfc)) then Some(ReviseRfc)
    else if v == Lower(ActionName(RunSpike)) then Some(RunSpike)
    else if v == Lower(ActionName(Archive)) then Some(Archive)
    else None
  }

  datatype Stamp = Stamp(status: Status, chosenPath: seq<string>, requiredEdits: seq<string>, followUps: seq<string>,
                         doNotDo: seq<string>, evidence: seq<string>, nextAction: Action)

  datatype Validation = Validation(errors: seq<Error>, stamp: Option<Stamp>)

  /** "Status:" at the start of the line, in any case, then text. */
  function StatusValue(line: string): Option<string> {
    if |line| >= 7 && Lower(line[..7]) == "status:" then Rest(line[7..]) else None
  }

  predicate IsStatus(line: string) {
    StatusValue(line).Some?
  }

  function LabelLines(block: seq<string>, f: Field): seq<nat> {
    Where(block, line => IsLabel(line, f))
  }

  predicate Present(block: seq<string>, f: Field) {
    |LabelLines(block, f)| == 1
  }

  predicate IsLaterLabel(line: string, f: Field) {
    exists k: nat | k < 6 :: k > Rank(f) && IsLabel(line, Nth(k))
  }

  /** The lines between a field's label and the next. */
  function FieldLines(block: seq<string>, f: Field): seq<string>
    requires Present(block, f)
  {
    WhereMembers(block, line => IsLabel(line, f));
    assert LabelLines(block, f)[0] in LabelLines(block, f);
    Span(block, LabelLines(block, f)[0], line => IsLaterLabel(line, f))
  }

  function Value(block: seq<string>, f: Field): seq<string> {
    if Present(block, f) then Items(FieldLines(block, f)) else []
  }

  function CountErrors(block: seq<string>, k: nat): seq<Error>
    requires k <= 6
  {
    if k == 0 then []
    else CountErrors(block, k - 1) + (if Present(block, Nth(k - 1)) then [] else [FieldCount(Nth(k - 1))])
  }

  /** Where the fields present begin, in canonical order. */
  function Starts(block: seq<string>, k: nat): seq<nat>
    requires k <= 6
  {
    if k == 0 then []
    else Starts(block, k - 1) + (if Present(block, Nth(k - 1)) then LabelLines(block, Nth(k - 1)) else [])
  }

  predicate Ascending(starts: seq<nat>) {
    forall i | 0 <= i < |starts| :: i > 0 ==> starts[i] >= starts[i - 1]
  }

  function FieldErrors(block: seq<string>, k: nat): seq<Error>
    requires k <= 6
  {
    if k == 0 then []
    else
      FieldErrors(block, k - 1)
      + (if Present(block, Nth(k - 1)) then ItemErrors(Nth(k - 1), FieldLines(block, Nth(k - 1))) else [])
  }

  predicate ActionFits(s: Status, a: Action) {
    match s
    case Approved => a == Implement || a == Archive
    case ApprovedWithEdits => a == ReviseRfc || a == Implement
    case Rejected => a == Archive
    case Parked => a == Archive
    case NeedsMoreResearch => a == RunSpike || a == ReviseRfc
  }

  /** An error, if it occurs. */
  function When(occurs: bool, e: Error): seq<Error> {
    if occurs then [e] else []
  }

  /** The status text, if there is a status line. */
  function StatusText(block: seq<string>): Option<string> {
    var statuses := Where(block, IsStatus);
    if statuses == [] then None
    else
      WhereMembers(block, IsStatus);
      assert statuses[0] in statuses;
      StatusValue(block[statuses[0]])
  }

  function StatusOf(block: seq<string>): Option<Status> {
    if StatusText(block).Some? then FindStatus(StatusText(block).value) else None
  }

  function ActionOf(block: seq<string>): Option<Action> {
    var actions := Value(block, NextAction);
    if |actions| == 1 then FindAction(actions[0]) else None
  }

  function LayoutErrors(block: seq<string>): seq<Error> {
    var statuses := Where(block, IsStatus);
    var starts := Starts(block, 6);
    var text := StatusText(block);
    When(|statuses| != 1, StatusCount)
    + When(text.Some? && text.value != "" && StatusOf(block).None?, StatusUnknown)
    + CountErrors(block, 6)
    + When(|statuses| == 1 && starts != [] && statuses[0] > starts[0], StatusLate)
    + When(!Ascending(starts), FieldsOutOfOrder)
  }

  function MeaningErrors(block: seq<string>): seq<Error> {
    var status := StatusOf(block);
    var edits, evidence, actions := Value(block, RequiredEdits), Value(block, Evidence), Value(block, NextAction);
    var action := ActionOf(block);
    When(Value(block, ChosenPath) != [] && IsNone(Value(block, ChosenPath)), PathIsNone)
    + When(status == Some(Approved) && !IsNone(edits), EditsBlockApproval)
    + When(status == Some(ApprovedWithEdits) && IsNone(edits), EditsMissing)
    + When((status == Some(Approved) || status == Some(ApprovedWithEdits)) && evidence != [] && IsNone(evidence),
           EvidenceMissing)
    + When(|actions| == 1 && action.None?, ActionUnknown)
    + When(|actions| > 1, ActionCount)
    + When(status.Some? && action.Some? && !ActionFits(status.value, action.value), ActionInconsistent)
  }

  function ValidateBlock(block: seq<string>): Validation {
    var errors := LayoutErrors(block) + FieldErrors(block, 6) + MeaningErrors(block);
    var status, action := StatusOf(block), ActionOf(block);
    if status.None? || action.None? || errors != [] then Validation(errors, None)
    else
      Validation(errors, Some(Stamp(status.value, Value(block, ChosenPath), Value(block, RequiredEdits),
                                    Value(block, FollowUps), Value(block, DoNotDo), Value(block, Evidence),
                                    action.value)))
  }

  /** The validation of lines whose fences are removed. */
  function ValidateShown(lines: seq<string>): Validation {
    match SectionOf(lines)
    case Absent => Validation([MissingSection], None)
    case Repeated => Validation([RepeatedSection], None)
    case Block(block) => ValidateBlock(block)
  }

  function Validate(markdown: string): Validation {
    ValidateShown(Unfenced(Closed, SplitLines(markdown)))
  }

  /** The whole validation: the fence loop, the section, then the fields in canonical order. */
  method ValidateRfcDecisionMarkdown(markdown: string) returns (validation: Validation)
    ensures validation == Validate(markdown)
  {
    hide Unfenced, SplitLines, LayoutErrors, MeaningErrors, Present, FieldLines, Items, ItemErrors, StatusOf, ActionOf;
    var lines := RemoveFencedCode(SplitLines(markdown));
    var section := SectionOf(lines);
    if section.Absent? {
      return Validation([MissingSection], None);
    }
    if section.Repeated? {
      return Validation([RepeatedSection], None);
    }
    var block := section.lines;
    var errors := LayoutErrors(block);
    var values: seq<seq<string>> := [];
    for k := 0 to 6
      invariant errors == LayoutErrors(block) + FieldErrors(block, k)
      invariant |values| == k && forall i | 0 <= i < k :: values[i] == Value(block, Nth(i))
    {
      var items: seq<string>, found: seq<Error> := [], [];
      if Present(block, Nth(k)) {
        items, found := ReadBulletItems(FieldLines(block, Nth(k)), Nth(k));
      }
      errors, values := errors + found, values + [items];
    }
    errors := errors + MeaningErrors(block);
    var status, action := StatusOf(block), ActionOf(block);
    if status.None? || action.None? || |errors| > 0 {
      return Validation(errors, None);
    }
    return Validation(errors, Some(Stamp(status.value, values[0], values[1], values[2], values[3], values[4],
                                         action.value)));
  }

  // ---------- Blank lines and fences do not matter ----------

  function WithBlank(lines: seq<string>, n: nat): seq<string>
    requires n <= |lines|
  {
    lines[..n] + [""] + lines[n..]
  }

  /** The same lines, but for at most one blank one. */
  ghost predicate BlankApart(lines: seq<string>, more: seq<string>) {
    more == lines || exists n: nat :: n <= |lines| && more == WithBlank(lines, n)
  }

  /** Where line k stands once line n is blank. */
  function Up(k: nat, n: nat): nat {
    if k < n then k else k + 1
  }

  function UpAll(numbers: seq<nat>, n: nat): seq<nat> {
    seq(|numbers|, i requires 0 <= i < |numbers| => Up(numbers[i], n))
  }

  lemma UpSplit(a: seq<nat>, b: seq<nat>, n: nat)
    requires forall k | k in a :: k < n
    ensures UpAll(a + Shifted(b, n), n) == a + Shifted(b, n + 1)
  {
    assert forall i | 0 <= i < |a| :: a[i] in a;
  }

  lemma WhereWithBlank(lines: seq<string>, n: nat, p: string -> bool)
    requires n <= |lines| && !p("")
    ensures Where(WithBlank(lines, n), p) == UpAll(Where(lines, p), n)
  {
    hide Where, UpAll, Shifted;
    var a, b := lines[..n], lines[n..];
    assert lines == a + b;
    WhereMembers(a, p);
    WhereConcat(a, b, p);
    WhereAround(a, b, p);
    UpSplit(Where(a, p), Where(b, p), n);
  }

  lemma WhereAround(a: seq<string>, b: seq<string>, p: string -> bool)
    requires !p("")
    ensures Where(a + [""] + b, p) == Where(a, p) + Shifted(Where(b, p), |a| + 1)
  {
    hide Where;
    WhereOne("", p);
    WhereConcat(a, [""], p);
    assert Shifted([], |a|) == [];
    WhereConcat(a + [""], b, p);
  }

  lemma WithBlankAt(lines: seq<string>, n: nat, k: nat)
    requires n <= |lines| && k < |lines|
    ensures Up(k, n) < |WithBlank(lines, n)| && WithBlank(lines, n)[Up(k, n)] == lines[k]
  {}

  lemma BlankAt(lines: seq<string>, n: nat)
    requires n <= |lines|
    ensures |WithBlank(lines, n)| == |lines| + 1 && WithBlank(lines, n)[n] == ""
  {}

  lemma {:induction false} FirstAt(lines: seq<string>, from: nat, end: nat, p: string -> bool)
    requires from <= end <= |lines|
    requires forall i | from <= i < end :: !p(lines[i])
    requires end == |lines| || p(lines[end])
    ensures FirstFrom(lines, from, p) == end
    decreases end - from
  {
    if from < end {
      FirstAt(lines, from + 1, end, p);
    }
  }

  lemma {:induction false} FirstIs(lines: seq<string>, from: nat, p: string -> bool)
    requires from <= |lines|
    ensures var end := FirstFrom(lines, from, p);
            (forall i | from <= i < end :: !p(lines[i])) && (end == |lines| || p(lines[end]))
    decreases |lines| - from
  {
    if from < |lines| && !p(lines[from]) {
      FirstIs(lines, from + 1, p);
    }
  }

  lemma AfterBlank(lines: seq<string>, n: nat, from: nat, end: nat)
    requires n <= from <= end <= |lines|
    ensures WithBlank(lines, n)[from + 1..end + 1] == lines[from..end]
  {
    var front := lines[..n] + [""];
    assert WithBlank(lines, n) == front + lines[n..];
    assert (front + lines[n..])[|front| + (from - n)..|front| + (end - n)] == lines[n..][from - n..end - n];
  }

  /** What lies between two lines grows by the blank line, or not at all. */
  lemma BetweenWithBlank(lines: seq<string>, n: nat, i: nat, end: nat)
    requires n <= |lines| && i < end <= |lines|
    ensures var upEnd := if end < n then end else end + 1;
            Up(i, n) < upEnd <= |WithBlank(lines, n)|
            && BlankApart(lines[i + 1..end], WithBlank(lines, n)[Up(i, n) + 1..upEnd])
  {
    var span := lines[i + 1..end];
    if i < n <= end {
      assert WithBlank(lines, n)[i + 1..end + 1] == WithBlank(span, n - (i + 1));
    } else if end < n {
      assert WithBlank(lines, n)[i + 1..end] == span;
    } else {
      AfterBlank(lines, n, i + 1, end);
    }
  }

  lemma FirstWithBlank(lines: seq<string>, n: nat, i: nat, p: string -> bool)
    requires n <= |lines| && i < |lines| && !p("")
    ensures var end := FirstFrom(lines, i + 1, p);
            Up(i, n) < |WithBlank(lines, n)|
            && FirstFrom(WithBlank(lines, n), Up(i, n) + 1, p) == if end < n then end else end + 1
  {
    hide FirstFrom, WithBlank;
    var more := WithBlank(lines, n);
    var end := FirstFrom(lines, i + 1, p);
    FirstIs(lines, i + 1, p);
    BlankAt(lines, n);
    var upEnd := if end < n then end else end + 1;
    forall j | Up(i, n) + 1 <= j < upEnd ensures !p(more[j]) {
      if j != n {
        WithBlankAt(lines, n, if j < n then j else j - 1);
      }
    }
    if end < |lines| {
      WithBlankAt(lines, n, end);
    }
    FirstAt(more, Up(i, n) + 1, upEnd, p);
  }

  /** A span grows by the blank line, or not at all. */
  lemma SpanWithBlank(lines: seq<string>, n: nat, i: nat, p: string -> bool)
    requires n <= |lines| && i < |lines| && !p("")
    ensures Up(i, n) < |WithBlank(lines, n)|
    ensures BlankApart(Span(lines, i, p), Span(WithBlank(lines, n), Up(i, n), p))
  {
    hide FirstFrom, WithBlank, BlankApart;
    FirstWithBlank(lines, n, i, p);
    BetweenWithBlank(lines, n, i, FirstFrom(lines, i + 1, p));
  }

  lemma {:induction false} ReadsWithBlank(lines: seq<string>, n: nat)
    requires n <= |lines|
    ensures ReadLines(WithBlank(lines, n)) == ReadLines(lines)
    decreases |lines|
  {
    hide ReadLine;
    var more := WithBlank(lines, n);
    if n == |lines| {
      assert more[..|more| - 1] == lines;
      BlankReads(ReadLines(lines));
    } else {
      var front := lines[..|lines| - 1];
      assert more[..|more| - 1] == WithBlank(front, n);
      ReadsWithBlank(front, n);
    }
  }

  lemma BlankIsNothing()
    ensures !IsHeading("") && !IsDecision("") && !IsStatus("") && forall f :: !IsLabel("", f) && !IsLaterLabel("", f)
  {
    forall f ensures !IsLabel("", f) && !IsLaterLabel("", f) {
      forall g ensures !IsLabel("", g) {
        assert |Label(g)| > 0;
      }
      hide IsLabel;
    }
  }

  lemma FieldWithBlank(block: seq<string>, n: nat, f: Field)
    requires n <= |block|
    ensures var more := WithBlank(block, n);
            && LabelLines(more, f) == UpAll(LabelLines(block, f), n)
            && (Present(more, f) <==> Present(block, f))
            && (Present(block, f) ==>
                  Value(more, f) == Value(block, f)
                  && ItemErrors(f, FieldLines(more, f)) == ItemErrors(f, FieldLines(block, f)))
  {
    hide IsLabel, IsLaterLabel, ReadLines, Where, Span;
    BlankIsNothing();
    var more := WithBlank(block, n);
    WhereWithBlank(block, n, line => IsLabel(line, f));
    if Present(block, f) {
      WhereMembers(block, line => IsLabel(line, f));
      assert LabelLines(block, f)[0] in LabelLines(block, f);
      SpanWithBlank(block, n, LabelLines(block, f)[0], line => IsLaterLabel(line, f));
      ApartReadAlike(FieldLines(block, f), FieldLines(more, f));
    }
  }

  lemma ApartReadAlike(lines: seq<string>, more: seq<string>)
    requires BlankApart(lines, more)
    ensures ReadLines(more) == ReadLines(lines)
  {
    if more != lines {
      var n: nat :| n <= |lines| && more == WithBlank(lines, n);
      ReadsWithBlank(lines, n);
    }
  }

  lemma {:induction false} FieldsWithBlank(block: seq<string>, n: nat, k: nat)
    requires n <= |block| && k <= 6
    ensures var more := WithBlank(block, n);
            && CountErrors(more, k) == CountErrors(block, k)
            && FieldErrors(more, k) == FieldErrors(block, k)
            && Starts(more, k) == UpAll(Starts(block, k), n)
  {
    hide Present, LabelLines, FieldLines, ItemErrors, Value, WithBlank;
    if k > 0 {
      FieldsWithBlank(block, n, k - 1);
      FieldWithBlank(block, n, Nth(k - 1));
    }
  }

  lemma UpKeepsOrder(numbers: seq<nat>, n: nat)
    ensures Ascending(UpAll(numbers, n)) <==> Ascending(numbers)
  {
    forall i | 0 < i < |numbers|
      ensures UpAll(numbers, n)[i] >= UpAll(numbers, n)[i - 1] <==> numbers[i] >= numbers[i - 1]
    {
    }
    if Ascending(numbers) {
      assert forall i | 0 <= i < |numbers| :: i > 0 ==> numbers[i] >= numbers[i - 1];
    }
  }

  lemma StatusWithBlank(block: seq<string>, n: nat)
    requires n <= |block|
    ensures var more := WithBlank(block, n);
            && Where(more, IsStatus) == UpAll(Where(block, IsStatus), n)
            && StatusText(more) == StatusText(block)
  {
    hide IsStatus, StatusValue, Where, WithBlank;
    BlankIsNothing();
    WhereWithBlank(block, n, IsStatus);
    var statuses := Where(block, IsStatus);
    if statuses != [] {
      WhereMembers(block, IsStatus);
      assert statuses[0] in statuses;
      WithBlankAt(block, n, statuses[0]);
    }
  }

  lemma BlockWithBlank(block: seq<string>, n: nat)
    requires n <= |block|
    ensures ValidateBlock(WithBlank(block, n)) == ValidateBlock(block)
  {
    hide Where, WithBlank, StatusText, Starts, CountErrors, FieldErrors, Value, Ascending, IsNone, FindStatus,
         FindAction;
    var more := WithBlank(block, n);
    StatusWithBlank(block, n);
    FieldsWithBlank(block, n, 6);
    UpKeepsOrder(Starts(block, 6), n);
    forall f ensures Value(more, f) == Value(block, f) {
      ValueWithBlank(block, n, f);
    }
    assert LayoutErrors(more) == LayoutErrors(block);
    assert MeaningErrors(more) == MeaningErrors(block);
  }

  lemma ValueWithBlank(block: seq<string>, n: nat, f: Field)
    requires n <= |block|
    ensures Value(WithBlank(block, n), f) == Value(block, f)
  {
    hide LabelLines, FieldLines, Items, WithBlank;
    FieldWithBlank(block, n, f);
  }

  lemma SectionWithBlank(lines: seq<string>, n: nat)
    requires n <= |lines|
    ensures var s, t := SectionOf(lines), SectionOf(WithBlank(lines, n));
            if s.Block? then t.Block? && BlankApart(s.lines, t.lines) else t == s
  {
    hide IsDecision, IsHeading, Where, Span, WithBlank;
    BlankIsNothing();
    WhereWithBlank(lines, n, IsDecision);
    var headings := Where(lines, IsDecision);
    if |headings| == 1 {
      WhereMembers(lines, IsDecision);
      assert headings[0] in headings;
      SpanWithBlank(lines, n, headings[0], IsHeading);
    }
  }

  /** A blank line more changes nothing, wherever it stands. */
  lemma ShownWithBlank(lines: seq<string>, n: nat)
    requires n <= |lines|
    ensures ValidateShown(WithBlank(lines, n)) == ValidateShown(lines)
  {
    hide SectionOf, ValidateBlock;
    SectionWithBlank(lines, n);
    var s, t := SectionOf(lines), SectionOf(WithBlank(lines, n));
    if s.Block? && s.lines != t.lines {
      var k: nat :| k <= |s.lines| && t.lines == WithBlank(s.lines, k);
      BlockWithBlank(s.lines, k);
    }
  }

  lemma {:induction false} BlanksIgnored(pre: seq<string>, n: nat, post: seq<string>)
    ensures ValidateShown(pre + Blanks(n) + post) == ValidateShown(pre + post)
  {
    hide ValidateShown;
    if n == 0 {
      assert pre + Blanks(0) + post == pre + post;
    } else {
      BlanksIgnored(pre, n - 1, post);
      var less := pre + Blanks(n - 1) + post;
      ShownWithBlank(less, |pre|);
      assert pre + Blanks(n) + post == WithBlank(less, |pre|);
    }
  }

  /** A closed fenced block that starts outside a fence does not change the result, wherever it
      stands and whatever it contains. */
  lemma FencedBlockIgnored(longer: string, shorter: string, pre: seq<string>, block: seq<string>, post: seq<string>)
    requires SplitLines(longer) == pre + block + post && SplitLines(shorter) == pre + post
    requires FenceAfter(Closed, pre).Closed? && FencedBlock(block)
    ensures Validate(longer) == Validate(shorter)
  {
    hide SplitLines, FencedBlock, Unfenced, FenceAfter, ValidateShown;
    UnfencedConcat(Closed, pre, block + post);
    UnfencedConcat(Closed, block, post);
    UnfencedConcat(Closed, pre, post);
    BlockIsBlank(block);
    var shown, rest := Unfenced(Closed, pre), Unfenced(Closed, post);
    assert pre + block + post == pre + (block + post);
    assert shown + (Blanks(|block|) + rest) == shown + Blanks(|block|) + rest;
    BlanksIgnored(shown, |block|, rest);
  }

  // ---------- What surrounds the section does not matter ----------

  ghost predicate NoDecision(lines: seq<string>) {
    forall i | 0 <= i < |lines| :: !IsDecision(lines[i])
  }

  /** Only the lines from a Decision heading to the next heading of its level are read: without such
      a heading, or with two, the document is refused. */
  lemma SectionIs(before: seq<string>, heading: string, section: seq<string>, after: seq<string>)
    requires NoDecision(before) && IsDecision(heading) && NoDecision(section) && NoDecision(after)
    requires forall i | 0 <= i < |section| :: !IsHeading(section[i])
    requires after == [] || IsHeading(after[0])
    ensures ValidateShown(before + [heading] + section + after) == ValidateBlock(section)
  {
    hide ValidateBlock, IsHeading, IsDecision, Where, FirstFrom;
    var lines := before + [heading] + section + after;
    WhereNone(before, IsDecision);
    WhereOne(heading, IsDecision);
    WhereNone(section, IsDecision);
    WhereNone(after, IsDecision);
    WhereConcat(before, [heading], IsDecision);
    WhereConcat(before + [heading], section, IsDecision);
    WhereConcat(before + [heading] + section, after, IsDecision);
    var start := |before| + 1;
    forall i | start <= i < start + |section| ensures !IsHeading(lines[i]) {
      assert lines[i] == section[i - start];
    }
    assert after != [] ==> lines[start + |section|] == after[0];
    FirstAt(lines, start, start + |section|, IsHeading);
    assert lines[start..start + |section|] == section;
  }

  lemma NoSection(lines: seq<string>)
    requires NoDecision(lines)
    ensures ValidateShown(lines) == Validation([MissingSection], None)
  {
    hide ValidateBlock, IsDecision;
    WhereNone(lines, IsDecision);
  }

  lemma TwoSections(lines: seq<string>, i: nat, j: nat)
    requires i < j < |lines| && IsDecision(lines[i]) && IsDecision(lines[j])
    ensures ValidateShown(lines) == Validation([RepeatedSection], None)
  {
    hide ValidateBlock, IsDecision, Where;
    WhereMembers(lines, IsDecision);
    var headings := Where(lines, IsDecision);
    assert i in headings && j in headings;
  }

  /** The same of a document: what comes before its Decision heading, and from the next heading on,
      can be left out, fenced code included. */
  lemma OnlyTheSectionCounts(markdown: string, before: seq<string>, heading: string, section: seq<string>,
                             after: seq<string>)
    requires SplitLines(markdown) == before + ([heading] + section) + after
    requires FenceAfter(Closed, before).Closed? && FenceAfter(Closed, [heading] + section).Closed?
    requires NoDecision(Unfenced(Closed, before)) && NoDecision(Unfenced(Closed, after))
    requires Opening(heading).Closed? && IsDecision(heading)
    requires var shown := Unfenced(Closed, section);
             NoDecision(shown) && forall i | 0 <= i < |shown| :: !IsHeading(shown[i])
    requires after == [] || IsHeading(Unfenced(Closed, after)[0])
    ensures Validate(markdown) == ValidateBlock(Unfenced(Closed, section))
  {
    hide SplitLines, ValidateShown, ValidateBlock, Unfenced, FenceAfter, NoDecision, IsHeading, IsDecision, Opening;
    var middle := [heading] + section;
    UnfencedConcat(Closed, before, middle);
    UnfencedConcat(Closed, before + middle, after);
    UnfencedConcat(Closed, [heading], section);
    OneUnfenced(Closed, heading);
    OneShown(heading);
    var shown, rest := Unfenced(Closed, section), Unfenced(Closed, after);
    assert Unfenced(Closed, SplitLines(markdown)) == Unfenced(Closed, before) + [heading] + shown + rest;
    SectionIs(Unfenced(Closed, before), heading, shown, rest);
  }

  lemma OneShown(line: string)
    requires Opening(line).Closed?
    ensures Shown(Closed, line) == line && NextFence(Closed, line) == Closed
  {}

  // ---------- What a stamp says ----------

  /** The decision a stamp records makes sense. */
  predicate Consistent(s: Stamp) {
    && ActionFits(s.status, s.nextAction)
    && (s.status == Approved ==> IsNone(s.requiredEdits))
    && (s.status == ApprovedWithEdits ==> !IsNone(s.requiredEdits))
    && (s.status == Approved || s.status == ApprovedWithEdits ==> !IsNone(s.evidence))
    && !IsNone(s.chosenPath)
    && (forall k: nat | k < 5 :: ListOf(s, k) != [] && forall x | x in ListOf(s, k) :: !IsPlaceholder(x))
  }

  /** The items of the k-th field. */
  function ListOf(s: Stamp, k: nat): seq<string>
    requires k < 6
  {
    if k == 0 then s.chosenPath
    else if k == 1 then s.requiredEdits
    else if k == 2 then s.followUps
    else if k == 3 then s.doNotDo
    else if k == 4 then s.evidence
    else [ActionName(s.nextAction)]
  }

  lemma {:induction false} FieldsPresent(block: seq<string>, k: nat, n: nat)
    requires k < n <= 6 && CountErrors(block, n) == [] && FieldErrors(block, n) == []
    ensures Present(block, Nth(k)) && Value(block, Nth(k)) != []
  {
    hide Present, FieldLines, ItemErrors, Items;
    assert FieldErrors(block, n - 1) == [] && CountErrors(block, n - 1) == [];
    if k < n - 1 {
      FieldsPresent(block, k, n - 1);
    } else {
      assert Present(block, Nth(k));
      NoErrorSomeItem(Nth(k), FieldLines(block, Nth(k)));
    }
  }

  lemma NoErrorSomeItem(f: Field, lines: seq<string>)
    ensures ItemErrors(f, lines) == [] ==> Items(lines) != []
  {
    hide Items, PlaceholderErrors, NotBullets, ReadLines;
  }

  lemma NoneOccurs(block: seq<string>)
    requires LayoutErrors(block) + FieldErrors(block, 6) + MeaningErrors(block) == []
    ensures LayoutErrors(block) == [] && FieldErrors(block, 6) == [] && MeaningErrors(block) == []
            && CountErrors(block, 6) == []
  {
    hide FieldErrors, MeaningErrors, CountErrors, StatusText, StatusOf, Starts, Ascending;
    assert |LayoutErrors(block)| + |FieldErrors(block, 6)| + |MeaningErrors(block)| == 0;
  }

  /** Every stamp returned is consistent: its next action fits its status, its edits and evidence
      are there when they must be, and no item is a placeholder. */
  lemma StampConsistent(markdown: string)
    ensures Validate(markdown).stamp.Some?
            ==> Validate(markdown).errors == [] && Consistent(Validate(markdown).stamp.value)
  {
    hide Unfenced, SplitLines, ValidateBlock, Consistent, SectionOf;
    var section := SectionOf(Unfenced(Closed, SplitLines(markdown)));
    if section.Block? && ValidateBlock(section.lines).stamp.Some? {
      BlockConsistent(section.lines);
    }
  }

  lemma BlockConsistent(block: seq<string>)
    requires ValidateBlock(block).stamp.Some?
    ensures ValidateBlock(block).errors == [] && Consistent(ValidateBlock(block).stamp.value)
  {
    hide LayoutErrors, FieldErrors, CountErrors, StatusOf, ActionOf, Value, IsNone, IsPlaceholder;
    NoneOccurs(block);
    var s := ValidateBlock(block).stamp.value;
    forall k: nat | k < 5 ensures ListOf(s, k) != [] && forall x | x in ListOf(s, k) :: !IsPlaceholder(x) {
      FieldsPresent(block, k, 6);
      NoPlaceholders(block, Nth(k));
    }
    FieldsPresent(block, 0, 6);
    FieldsPresent(block, 4, 6);
    MeaningHolds(block);
  }

  lemma NoPlaceholders(block: seq<string>, f: Field)
    ensures forall x | x in Value(block, f) :: !IsPlaceholder(x)
  {
    hide IsPlaceholder, ReadLines;
  }

  lemma MeaningHolds(block: seq<string>)
    requires MeaningErrors(block) == [] && StatusOf(block).Some? && ActionOf(block).Some?
    requires Value(block, ChosenPath) != [] && Value(block, Evidence) != []
    ensures var status := StatusOf(block).value;
            && ActionFits(status, ActionOf(block).value)
            && !IsNone(Value(block, ChosenPath))
            && (status == Approved ==> IsNone(Value(block, RequiredEdits)))
            && (status == ApprovedWithEdits ==> !IsNone(Value(block, RequiredEdits)))
            && (status == Approved || status == ApprovedWithEdits ==> !IsNone(Value(block, Evidence)))
  {
    hide StatusOf, ActionOf, Value, IsNone, ActionFits;
  }

  /** A document without errors has a stamp, but for one case: a status line with only white space
      after the colon is not reported, and leaves the stamp out (`BlankStatusUnreported`). */
  lemma StampMissingIff(block: seq<string>)
    requires ValidateBlock(block).errors == []
    ensures ValidateBlock(block).stamp.None? <==> StatusText(block) == Some("")
  {
    hide FieldErrors, CountErrors, Value, IsNone, IsPlaceholder, Present, FindAction, Starts, Ascending, StatusText;
    NoneOccurs(block);
    FieldsPresent(block, 5, 6);
    BlankIsNoStatus();
    OneStatus(block);
  }

  lemma BlankIsNoStatus()
    ensures FindStatus("").None?
  {}

  lemma OneStatus(block: seq<string>)
    requires |Where(block, IsStatus)| == 1
    ensures StatusText(block).Some?
  {
    WhereMembers(block, IsStatus);
    assert Where(block, IsStatus)[0] in Where(block, IsStatus);
  }

  // ---------- Printing a stamp and reading it back ----------

  /** An item that reads back from a bullet line of its own. */
  predicate Fits(item: string) {
    item != "" && Trim(item) == item && forall c | c in item :: !EndsLine(c)
  }

  /** And is no placeholder. */
  predicate Clean(item: string) {
    Fits(item) && !IsPlaceholder(item)
  }

  predicate WellFormed(s: Stamp) {
    Consistent(s) && forall k: nat | k < 5 :: forall x | x in ListOf(s, k) :: Clean(x)
  }

  /** No item breaks the line it is printed on. */
  predicate Lined(s: Stamp) {
    forall k: nat | k < 5 :: forall x | x in ListOf(s, k) :: OneLine(x)
  }

  function Bullets(items: seq<string>): seq<string> {
    if items == [] then [] else Bullets(items[..|items| - 1]) + ["- " + items[|items| - 1]]
  }

  /** A label, a blank line, the bullets, a blank line. */
  function FieldText(s: Stamp, k: nat): seq<string>
    requires k < 6
  {
    [Label(Nth(k)), ""] + Bullets(ListOf(s, k)) + [""]
  }

  function FieldsText(s: Stamp, from: nat, to: nat): seq<string>
    requires from <= to <= 6
  {
    if from == to then [] else FieldsText(s, from, to - 1) + FieldText(s, to - 1)
  }

  /** A status line, set off by blank lines. */
  function HeadOf(line: string): seq<string> {
    ["", line, ""]
  }

  /** A section with the given status line and the fields of a stamp. */
  function BlockOf(line: string, s: Stamp): seq<string> {
    HeadOf(line) + FieldsText(s, 0, 6)
  }

  function StampBlock(s: Stamp): seq<string> {
    BlockOf("Status: " + StatusName(s.status), s)
  }

  /** The canonical layout of the decision process. */
  function Print(s: Stamp): seq<string> {
    ["## Decision"] + StampBlock(s)
  }

  /** A line that is part of a field's text and means nothing by itself. */
  predicate Plain(line: string) {
    Opening(line).Closed? && !IsHeading(line) && !IsDecision(line) && !IsStatus(line) && forall f :: !IsLabel(line, f)
  }

  lemma TrimKeeps(s: string)
    requires s != "" && !IsSpace(s[0]) && !IsSpace(s[|s| - 1])
    ensures Trim(s) == s && TrimStart(s) == s
  {}

  lemma {:induction false} TrimEndKeeps(s: string)
    requires s != "" && !IsSpace(s[0])
    ensures TrimEnd(s) != ""
  {
    if IsSpace(s[|s| - 1]) {
      TrimEndKeeps(s[..|s| - 1]);
    }
  }

  /** A bullet is no fence, no heading, no status and no label: it starts with its dash. */
  lemma DashIsPlain(line: string)
    requires line != "" && line[0] == '-'
    ensures Plain(line) && Trim(line) != ""
  {
    TrimEndKeeps(line);
    var t := Trim(line);
    assert t[0] == '-';
    forall f ensures !IsLabel(line, f) {
      assert Lower(t)[0] == '-';
      LabelStart(f);
    }
    if |line| >= 7 {
      assert Lower(line[..7])[0] == '-';
    }
  }

  lemma LabelStart(f: Field)
    ensures Lower(Label(f))[0] != '-'
  {}

  lemma BlankIsPlain()
    ensures Plain("") && OneLine("")
  {
    forall f ensures !IsLabel("", f) {
      assert |Label(f)| > 0;
    }
  }

  /** A printed item is a line of its own, and reads as the item exactly when it fits. */
  lemma BulletReads(item: string)
    requires OneLine(item)
    ensures var line := "- " + item;
            && Plain(line) && OneLine(line) && Trim(line) != "" && !Continues(line)
            && (BulletText(line) == Some(item) <==> Fits(item))
  {
    hide Plain, BulletText, Trim, Rest;
    DashIsPlain("- " + item);
    DashReads(item);
    RestIs(item);
  }

  lemma DashReads(item: string)
    ensures BulletText("- " + item) == if Trim(item) == "" then Rest(item) else Rest(" " + item)
  {
    hide Rest;
    var line := "- " + item;
    assert line[2..] == item && line[1..] == " " + item;
  }

  lemma RestIs(item: string)
    ensures Trim(" " + item) == Trim(item)
    ensures Trim(item) == "" ==> Rest(item) != Some(item)
    ensures Trim(item) != "" ==> (Rest(" " + item) == Some(item) <==> Fits(item))
  {
    assert (" " + item)[1..] == item;
    hide Trim, EndsLine;
  }

  lemma BlankReads(r: Reading)
    ensures ReadLine(r, "") == r
  {}

  lemma {:induction false} BulletsAre(items: seq<string>)
    ensures |Bullets(items)| == |items| && forall i | 0 <= i < |items| :: Bullets(items)[i] == "- " + items[i]
  {
    if items != [] {
      BulletsAre(items[..|items| - 1]);
    }
  }

  lemma BulletsArePlain(items: seq<string>)
    requires forall x | x in items :: OneLine(x)
    ensures |Bullets(items)| == |items|
    ensures forall i | 0 <= i < |items| :: Plain(Bullets(items)[i]) && OneLine(Bullets(items)[i])
  {
    hide BulletText, Trim, Plain, Fits, Continues, OneLine, Bullets;
    BulletsAre(items);
    forall i | 0 <= i < |items| ensures Plain(Bullets(items)[i]) && OneLine(Bullets(items)[i]) {
      BulletReads(items[i]);
    }
  }

  lemma {:induction false} BulletsRead(items: seq<string>)
    requires forall x | x in items :: OneLine(x)
    ensures var r := ReadLines([""] + Bullets(items));
            |r.items| + r.bad == |items| && (r == Reading(items, 0) <==> forall x | x in items :: Fits(x))
  {
    hide ReadLine, Fits, OneLine, Bullets;
    BulletsAre(items);
    if items == [] {
      BlankReads(Reading([], 0));
      assert [""][..0] == [] && [""] + Bullets(items) == [""];
    } else {
      var front, last := items[..|items| - 1], items[|items| - 1];
      assert items == front + [last];
      BulletsRead(front);
      BulletsSplit(front, last);
      BulletStep(ReadLines([""] + Bullets(front)), front, last);
    }
  }

  lemma BulletsSplit(front: seq<string>, last: string)
    ensures ReadLines([""] + Bullets(front + [last])) == ReadLine(ReadLines([""] + Bullets(front)), "- " + last)
  {
    hide ReadLine;
    assert (front + [last])[..|front|] == front;
    var lines := [""] + Bullets(front + [last]);
    assert lines == [""] + Bullets(front) + ["- " + last];
    assert lines[..|lines| - 1] == [""] + Bullets(front);
  }

  /** A printed item adds one to what is read, good or bad. */
  lemma BulletStep(r: Reading, front: seq<string>, last: string)
    requires OneLine(last) && |r.items| + r.bad == |front|
    ensures var after := ReadLine(r, "- " + last);
            && |after.items| + after.bad == |front| + 1
            && (after == Reading(front + [last], 0) <==> r == Reading(front, 0) && Fits(last))
  {
    hide BulletText, Trim, Plain, Fits, Continues, OneLine;
    BulletReads(last);
    var line := "- " + last;
    BulletAdds(r, front, last, if BulletText(line).Some? then BulletText(line).value else "");
  }

  lemma BulletAdds(r: Reading, front: seq<string>, last: string, text: string)
    requires |r.items| + r.bad == |front|
    ensures r.(items := r.items + [text]) == Reading(front + [last], 0) <==> r == Reading(front, 0) && text == last
  {
    if r.items + [text] == front + [last] {
      assert (r.items + [text])[..|r.items|] == r.items && (front + [last])[..|front|] == front;
      assert (r.items + [text])[|r.items|] == text && (front + [last])[|front|] == last;
    }
  }

  lemma LowerTwice(s: string)
    ensures Lower(Lower(s)) == Lower(s)
  {}

  lemma LowerFirst(s: string)
    requires s != ""
    ensures Lower(s)[0] == LowerChar(s[0])
  {}

  /** A name in letters is its own normal form, up to case. */
  lemma NameIsNormal(name: string)
    requires name != "" && 'A' <= name[0] <= 'Z'
    requires 'a' <= name[|name| - 1] <= 'z' || 'A' <= name[|name| - 1] <= 'Z'
    ensures Trim(name) == name && Normalized(name) == Lower(name)
  {
    TrimKeeps(name);
    var n := |name| - 1;
    assert Lower(name)[n] == LowerChar(name[n]) && Lower(name)[0] == LowerChar(name[0]);
    assert Lower(name)[0] in Lower(name);
  }

  lemma ActionsDiffer(a: Action, b: Action)
    requires Lower(ActionName(a)) == Lower(ActionName(b))
    ensures a == b
  {
    assert |Lower(ActionName(a))| == |ActionName(a)| && |Lower(ActionName(b))| == |ActionName(b)|;
    LowerFirst(ActionName(a));
    LowerFirst(ActionName(b));
  }

  lemma StatusesDiffer(a: Status, b: Status)
    requires Lower(StatusName(a)) == Lower(StatusName(b))
    ensures a == b
  {
    assert |Lower(StatusName(a))| == |StatusName(a)| && |Lower(StatusName(b))| == |StatusName(b)|;
    LowerFirst(StatusName(a));
    LowerFirst(StatusName(b));
  }

  lemma LabelsDiffer(f: Field, g: Field)
    requires Lower(Label(f)) == Lower(Label(g))
    ensures f == g
  {
    assert |Lower(Label(f))| == |Label(f)| && |Lower(Label(g))| == |Label(g)|;
    LowerFirst(Label(f));
    LowerFirst(Label(g));
  }

  lemma StatusFound(s: Status)
    ensures FindStatus(StatusName(s)) == Some(s)
  {
    hide Lower, StatusName;
    forall b | Lower(StatusName(s)) == Lower(StatusName(b)) ensures s == b {
      StatusesDiffer(s, b);
    }
  }

  lemma ActionFound(a: Action)
    ensures Trim(ActionName(a)) == ActionName(a) && FindAction(ActionName(a)) == Some(a)
  {
    var name := ActionName(a);
    NameIsNormal(name);
    LowerTwice(name);
    hide Lower, ActionName, Normalized;
    forall b | Lower(name) == Lower(ActionName(b)) ensures a == b {
      ActionsDiffer(a, b);
    }
  }

  lemma ActionIsClean(a: Action)
    ensures Clean(ActionName(a))
  {
    hide IsPlaceholder, Trim, EndsLine;
    ActionFound(a);
    ActionIsText(a);
    ActionIsResolved(a);
  }

  lemma ActionIsText(a: Action)
    ensures ActionName(a) != "" && forall c | c in ActionName(a) :: !EndsLine(c)
  {}

  lemma ActionIsResolved(a: Action)
    ensures !IsPlaceholder(ActionName(a))
  {
    var name := ActionName(a);
    NameIsNormal(name);
    LowerFirst(name);
    assert |Lower(name)| == |name|;
    hide Lower, Normalized, Trim;
  }

  /** A line that starts with a capital letter is no fence and no heading. */
  lemma LetterIsInert(line: string)
    requires line != "" && 'A' <= line[0] <= 'Z' && !IsSpace(line[|line| - 1])
    ensures Trim(line) == line && Opening(line).Closed? && !IsHeading(line) && !IsDecision(line)
  {
    TrimKeeps(line);
  }

  lemma LabelLine(f: Field)
    ensures Opening(Label(f)).Closed? && !IsHeading(Label(f)) && !IsDecision(Label(f)) && !IsStatus(Label(f))
    ensures forall g :: IsLabel(Label(f), g) <==> f == g
    ensures OneLine(Label(f))
  {
    LetterIsInert(Label(f));
    LabelIsNoStatus(f);
    LabelInOneLine(f);
    hide IsHeading, IsDecision, IsStatus, Opening, Label, OneLine, Lower;
    forall g | IsLabel(Label(f), g) ensures f == g {
      LabelsDiffer(f, g);
    }
  }

  lemma ShortLabels()
    ensures OneLine("Chosen path:") && OneLine("Do not do:") && OneLine("Next action:")
  {}

  lemma EditsLabel()
    ensures OneLine("Required edits before implementation:")
  {}

  lemma FollowUpsLabel()
    ensures OneLine("Non-blocking follow-ups:")
  {}

  lemma EvidenceLabel()
    ensures OneLine("Evidence required before merge:")
  {}

  lemma LabelInOneLine(f: Field)
    ensures OneLine(Label(f))
  {
    hide OneLine;
    ShortLabels();
    EditsLabel();
    FollowUpsLabel();
    EvidenceLabel();
  }

  lemma LabelIsNoStatus(f: Field)
    ensures !IsStatus(Label(f))
  {
    LowerFirst(Label(f)[..7]);
  }

  lemma StatusLine(s: Status)
    ensures var line := "Status: " + StatusName(s);
            && Opening(line).Closed? && !IsHeading(line) && !IsDecision(line) && OneLine(line)
            && StatusValue(line) == Some(StatusName(s))
            && forall f :: !IsLabel(line, f)
  {
    hide StatusName, Opening, IsHeading, IsDecision, IsLabel, StatusValue, OneLine;
    var name := StatusName(s);
    var line := "Status: " + name;
    StatusNameIsText(s);
    assert line[|line| - 1] == name[|name| - 1];
    LetterIsInert(line);
    StatusPrefix(name);
    forall f ensures !IsLabel(line, f) {
      StatusIsNoLabel(line, f);
    }
  }

  lemma StatusPrefix(name: string)
    requires name != "" && !IsSpace(name[0]) && !IsSpace(name[|name| - 1]) && forall c | c in name :: !EndsLine(c)
    ensures StatusValue("Status: " + name) == Some(name) && OneLine("Status: " + name)
  {
    var line := "Status: " + name;
    assert line[..7] == "Status:" && line[7..] == " " + name;
    assert Lower("Status:") == "status:";
    assert (" " + name)[1..] == name;
    TrimKeeps(name);
    assert forall c | c in name :: c != '\n' && c != '\r';
  }

  lemma StatusIsNoLabel(line: string, f: Field)
    requires line != "" && line[0] == 'S' && Trim(line) == line
    ensures !IsLabel(line, f)
  {
    LowerFirst(line);
    LowerFirst(Label(f));
    hide Lower;
  }

  lemma StatusNameIsText(s: Status)
    ensures var name := StatusName(s);
            && name != "" && !IsSpace(name[0]) && !IsSpace(name[|name| - 1]) && forall c | c in name :: !EndsLine(c)
  {}

  /** No line of these opens a fence, is a heading, or spans lines. */
  ghost predicate Inert(lines: seq<string>) {
    forall i | 0 <= i < |lines| ::
      Opening(lines[i]).Closed? && !IsHeading(lines[i]) && !IsDecision(lines[i]) && OneLine(lines[i])
  }

  ghost predicate NoLabel(lines: seq<string>, f: Field) {
    forall i | 0 <= i < |lines| :: !IsLabel(lines[i], f)
  }

  ghost predicate NoStatus(lines: seq<string>) {
    forall i | 0 <= i < |lines| :: !IsStatus(lines[i])
  }

  lemma InertConcat(a: seq<string>, b: seq<string>)
    requires Inert(a) && Inert(b) && NoStatus(a) && NoStatus(b)
    ensures Inert(a + b) && NoStatus(a + b)
  {
    hide Opening, IsHeading, IsDecision, OneLine, IsStatus;
  }

  lemma NoLabelConcat(a: seq<string>, b: seq<string>, f: Field)
    requires NoLabel(a, f) && NoLabel(b, f)
    ensures NoLabel(a + b, f)
  {
    hide IsLabel;
  }

  /** What follows a label: a blank line, the bullets, a blank line. */
  function BodyText(items: seq<string>): seq<string> {
    [""] + Bullets(items) + [""]
  }

  lemma BodyIsPlain(items: seq<string>)
    requires forall x | x in items :: OneLine(x)
    ensures Inert(BodyText(items)) && NoStatus(BodyText(items)) && forall f :: NoLabel(BodyText(items), f)
    ensures ReadLines(BodyText(items)) == ReadLines([""] + Bullets(items))
  {
    hide IsHeading, IsDecision, IsStatus, IsLabel, Opening, ReadLine, OneLine;
    BulletsArePlain(items);
    BlankIsPlain();
    BlankReads(ReadLines([""] + Bullets(items)));
    assert BodyText(items)[..|items| + 1] == [""] + Bullets(items);
  }

  lemma {:induction false} NothingResolved(f: Field, items: seq<string>)
    requires forall x | x in items :: !IsPlaceholder(x)
    ensures Resolved(items) == items && PlaceholderErrors(f, items) == []
  {
    hide IsPlaceholder;
    if items != [] {
      var front, last := items[..|items| - 1], items[|items| - 1];
      assert items == front + [last] && last in items;
      NothingResolved(f, front);
    }
  }

  lemma {:induction false} AllResolved(f: Field, items: seq<string>)
    requires PlaceholderErrors(f, items) == []
    ensures Resolved(items) == items
  {
    hide IsPlaceholder;
    if items != [] {
      var front, last := items[..|items| - 1], items[|items| - 1];
      assert items == front + [last] && !IsPlaceholder(last);
      AllResolved(f, front);
    }
  }

  lemma NoErrorAllRead(f: Field, lines: seq<string>)
    requires ItemErrors(f, lines) == []
    ensures ReadLines(lines) == Reading(Items(lines), 0)
  {
    hide ReadLines, Resolved, PlaceholderErrors;
    var read := ReadLines(lines);
    assert |NotBullets(f, read.bad)| == read.bad;
    assert |ItemErrors(f, lines)| >= read.bad + |PlaceholderErrors(f, read.items)|;
    AllResolved(f, read.items);
  }

  /** A field's printed items read back, without an error, exactly when each of them is clean. */
  lemma BodyReadsIff(f: Field, items: seq<string>)
    requires items != [] && forall x | x in items :: OneLine(x)
    ensures Items(BodyText(items)) == items && ItemErrors(f, BodyText(items)) == []
       <==> forall x | x in items :: Clean(x)
  {
    hide IsPlaceholder, ReadLines, Fits, OneLine, BodyText, Bullets, Resolved, PlaceholderErrors;
    var lines := BodyText(items);
    BodyIsPlain(items);
    BulletsRead(items);
    if forall x | x in items :: Clean(x) {
      NothingResolved(f, items);
    }
    if Items(lines) == items && ItemErrors(f, lines) == [] {
      NoErrorAllRead(f, lines);
    }
  }

  lemma ItemsAreLined(s: Stamp, k: nat)
    requires Lined(s) && k < 6
    ensures forall x | x in ListOf(s, k) :: OneLine(x)
  {
    ActionIsText(s.nextAction);
  }

  lemma WellFormedIsLined(s: Stamp)
    requires WellFormed(s)
    ensures Lined(s)
  {
    hide IsPlaceholder, Consistent, ListOf;
    forall k: nat, x | k < 5 && x in ListOf(s, k) ensures OneLine(x) {
      assert Clean(x);
    }
  }

  lemma FieldIsInert(s: Stamp, k: nat)
    requires Lined(s) && k < 6
    ensures FieldText(s, k) == [Label(Nth(k))] + BodyText(ListOf(s, k))
    ensures Inert(FieldText(s, k)) && NoStatus(FieldText(s, k))
    ensures forall f | f != Nth(k) :: NoLabel(FieldText(s, k), f)
  {
    hide Lined, IsHeading, IsDecision, IsStatus, IsLabel, Opening, OneLine, Label, Bullets;
    ItemsAreLined(s, k);
    BodyIsPlain(ListOf(s, k));
    LabelLine(Nth(k));
    var body := BodyText(ListOf(s, k));
    assert FieldText(s, k) == [Label(Nth(k))] + body;
    InertConcat([Label(Nth(k))], body);
    forall f | f != Nth(k) ensures NoLabel(FieldText(s, k), f) {
      assert !IsLabel(Label(Nth(k)), f);
      NoLabelConcat([Label(Nth(k))], body, f);
    }
  }

  /** The text of some fields holds their labels and no others. */
  lemma {:induction false} FieldsAreInert(s: Stamp, from: nat, to: nat)
    requires Lined(s) && from <= to <= 6
    ensures Inert(FieldsText(s, from, to)) && NoStatus(FieldsText(s, from, to))
    ensures forall f | !(from <= Rank(f) < to) :: NoLabel(FieldsText(s, from, to), f)
  {
    hide Lined, IsHeading, IsDecision, IsStatus, IsLabel, Opening, OneLine, FieldText;
    if from < to {
      FieldsAreInert(s, from, to - 1);
      FieldIsInert(s, to - 1);
      InertConcat(FieldsText(s, from, to - 1), FieldText(s, to - 1));
      forall f | !(from <= Rank(f) < to) ensures NoLabel(FieldsText(s, from, to), f) {
        NoLabelConcat(FieldsText(s, from, to - 1), FieldText(s, to - 1), f);
      }
    }
  }

  lemma {:induction false} FieldsSplit(s: Stamp, from: nat, k: nat, to: nat)
    requires from <= k <= to <= 6
    ensures FieldsText(s, from, to) == FieldsText(s, from, k) + FieldsText(s, k, to)
  {
    hide FieldText;
    if k < to {
      FieldsSplit(s, from, k, to - 1);
    }
  }

  /** A line that is a status line and nothing else. */
  ghost predicate OnlyStatus(line: string) {
    IsStatus(line) && Opening(line).Closed? && !IsHeading(line) && !IsDecision(line) && OneLine(line)
    && forall f :: !IsLabel(line, f)
  }

  lemma WhereOne(line: string, p: string -> bool)
    ensures Where([line], p) == if p(line) then [0] else []
  {
    assert [line][..0] == [];
  }

  lemma HeadIsInert(line: string)
    requires OnlyStatus(line)
    ensures Inert(HeadOf(line)) && (forall f :: NoLabel(HeadOf(line), f)) && Where(HeadOf(line), IsStatus) == [1]
  {
    hide IsHeading, IsDecision, IsLabel, Opening, OneLine, IsStatus, Where;
    BlankIsPlain();
    var head := HeadOf(line);
    assert head[0] == "" && head[1] == line && head[2] == "";
    forall f ensures NoLabel(head, f) {
      assert !IsLabel(head[0], f) && !IsLabel(head[1], f) && !IsLabel(head[2], f);
    }
    WhereOne("", IsStatus);
    WhereOne(line, IsStatus);
    WhereConcat([""], [line], IsStatus);
    WhereConcat([""] + [line], [""], IsStatus);
    assert head == [""] + [line] + [""];
  }

  lemma OneField(s: Stamp, k: nat)
    requires k < 6
    ensures FieldsText(s, k, k + 1) == FieldText(s, k)
  {
    hide FieldText;
    assert FieldsText(s, k, k) == [];
  }

  lemma FieldsFrom(s: Stamp, k: nat)
    requires k < 6
    ensures FieldsText(s, k, 6) == [Label(Nth(k))] + (BodyText(ListOf(s, k)) + FieldsText(s, k + 1, 6))
  {
    hide FieldsText, Label, ListOf, Bullets;
    FieldsSplit(s, k, k + 1, 6);
    OneField(s, k);
    assert FieldText(s, k) == [Label(Nth(k))] + BodyText(ListOf(s, k));
  }

  /** What stands before and after the label of the k-th field. */
  lemma BlockAround(line: string, s: Stamp, k: nat)
    requires OnlyStatus(line) && Lined(s) && k < 6
    ensures var pre, body, post := HeadOf(line) + FieldsText(s, 0, k), BodyText(ListOf(s, k)), FieldsText(s, k + 1, 6);
            && BlockOf(line, s) == pre + ([Label(Nth(k))] + (body + post))
            && (if k < 5 then post != [] && post[0] == Label(Nth(k + 1)) else post == [])
            && NoLabel(pre, Nth(k)) && NoLabel(body + post, Nth(k))
  {
    hide Lined, Inert, NoStatus, NoLabel, FieldText, Label, BodyText, FieldsText, ListOf, HeadOf;
    FieldsSplit(s, 0, k, 6);
    FieldsFrom(s, k);
    if k < 5 {
      FieldsFrom(s, k + 1);
    } else {
      NoFields(s);
    }
    FieldsAreInert(s, 0, k);
    FieldsAreInert(s, k + 1, 6);
    HeadIsInert(line);
    ItemsAreLined(s, k);
    BodyIsPlain(ListOf(s, k));
    NoLabelConcat(HeadOf(line), FieldsText(s, 0, k), Nth(k));
    NoLabelConcat(BodyText(ListOf(s, k)), FieldsText(s, k + 1, 6), Nth(k));
  }

  lemma NoFields(s: Stamp)
    ensures FieldsText(s, 6, 6) == []
  {}

  // ---------- The printed block, read ----------

  lemma LaterLabel(k: nat)
    requires k < 5
    ensures IsLaterLabel(Label(Nth(k + 1)), Nth(k))
  {
    assert IsLabel(Label(Nth(k + 1)), Nth(k + 1)) by {
      LabelLine(Nth(k + 1));
    }
  }

  lemma NoLaterLabel(lines: seq<string>, f: Field)
    requires forall g :: NoLabel(lines, g)
    ensures forall i | 0 <= i < |lines| :: !IsLaterLabel(lines[i], f)
  {
    hide IsLabel, Nth;
    forall i | 0 <= i < |lines| ensures !IsLaterLabel(lines[i], f) {
      forall k: nat | k < 6 ensures !IsLabel(lines[i], Nth(k)) {
        assert NoLabel(lines, Nth(k));
      }
    }
  }

  /** The k-th field of a printed stamp is there, where its label is, with the lines of its items. */
  lemma FieldReads(line: string, s: Stamp, k: nat)
    requires OnlyStatus(line) && Lined(s) && k < 6
    ensures var block, f := BlockOf(line, s), Nth(k);
            && LabelLines(block, f) == [|HeadOf(line)| + |FieldsText(s, 0, k)|]
            && Present(block, f)
            && FieldLines(block, f) == BodyText(ListOf(s, k))
  {
    hide Lined, Label, BodyText, FieldsText, ListOf, HeadOf, BlockOf, FirstFrom, OnlyStatus, LabelLines,
         NoLabel, IsLabel;
    var block, f := BlockOf(line, s), Nth(k);
    var pre, body, post := HeadOf(line) + FieldsText(s, 0, k), BodyText(ListOf(s, k)), FieldsText(s, k + 1, 6);
    BlockAround(line, s, k);
    LabelFound(pre, Label(f), body + post, f);
    SpanEnds(line, s, k);
    var start := |pre| + 1;
    assert block[start..start + |body|] == body;
  }

  /** A field's items end at the next label, or with the block. */
  lemma SpanEnds(line: string, s: Stamp, k: nat)
    requires OnlyStatus(line) && Lined(s) && k < 6
    ensures var block, body := BlockOf(line, s), BodyText(ListOf(s, k));
            var start := |HeadOf(line)| + |FieldsText(s, 0, k)| + 1;
            && start + |body| <= |block|
            && FirstFrom(block, start, line => IsLaterLabel(line, Nth(k))) == start + |body|
  {
    hide Lined, Inert, NoStatus, Label, BodyText, FieldsText, ListOf, HeadOf, BlockOf, IsLabel, IsLaterLabel, FirstFrom,
         OnlyStatus;
    var block, f := BlockOf(line, s), Nth(k);
    var pre, body, post := HeadOf(line) + FieldsText(s, 0, k), BodyText(ListOf(s, k)), FieldsText(s, k + 1, 6);
    BlockAround(line, s, k);
    ItemsAreLined(s, k);
    BodyIsPlain(ListOf(s, k));
    NoLaterLabel(body, f);
    var start := |pre| + 1;
    assert block[start..start + |body|] == body;
    forall i | start <= i < start + |body| ensures !IsLaterLabel(block[i], f) {
      assert block[i] == body[i - start];
    }
    if k < 5 {
      LaterLabel(k);
      assert block[start + |body|] == post[0];
    }
    FirstAt(block, start, start + |body|, line => IsLaterLabel(line, f));
  }

  lemma LabelFound(pre: seq<string>, line: string, rest: seq<string>, f: Field)
    requires NoLabel(pre, f) && NoLabel(rest, f) && line == Label(f)
    ensures LabelLines(pre + ([line] + rest), f) == [|pre|]
  {
    hide IsLabel, Label, Where;
    LabelLine(f);
    var p := (l: string) => IsLabel(l, f);
    WhereNone(pre, p);
    WhereNone(rest, p);
    WhereOne(line, p);
    WhereConcat([line], rest, p);
    WhereConcat(pre, [line] + rest, p);
    assert LabelLines(pre + ([line] + rest), f) == Where(pre + ([line] + rest), p);
  }

  ghost function StartOf(line: string, s: Stamp, k: nat): nat
    requires k < 6
  {
    |HeadOf(line)| + |FieldsText(s, 0, k)|
  }

  lemma StartsGrow(line: string, s: Stamp, k: nat)
    requires 0 < k < 6
    ensures StartOf(line, s, k) >= StartOf(line, s, k - 1)
  {
    hide FieldText;
    assert FieldsText(s, 0, k) == FieldsText(s, 0, k - 1) + FieldText(s, k - 1);
  }

  /** Of the first k fields, none is missing, and what is wrong is wrong with their items. */
  lemma {:induction false} FieldsRead(line: string, s: Stamp, k: nat)
    requires OnlyStatus(line) && Lined(s) && k <= 6
    ensures CountErrors(BlockOf(line, s), k) == []
    ensures FieldErrors(BlockOf(line, s), k) == []
       <==> forall j: nat | j < k :: ItemErrors(Nth(j), BodyText(ListOf(s, j))) == []
  {
    hide Lined, OnlyStatus, BlockOf, LabelLines, Present, FieldLines, ItemErrors, BodyText, ListOf, HeadOf, FieldsText;
    if k > 0 {
      FieldsRead(line, s, k - 1);
      FieldReads(line, s, k - 1);
    }
  }

  /** The first k fields start where they were printed. */
  lemma {:induction false} StartsRead(line: string, s: Stamp, k: nat)
    requires OnlyStatus(line) && Lined(s) && k <= 6
    ensures |Starts(BlockOf(line, s), k)| == k
    ensures forall i | 0 <= i < k :: Starts(BlockOf(line, s), k)[i] == StartOf(line, s, i)
  {
    hide Lined, OnlyStatus, BlockOf, LabelLines, Present, FieldLines, ItemErrors, HeadOf, FieldsText,
         StartOf;
    if k > 0 {
      StartsRead(line, s, k - 1);
      FieldReads(line, s, k - 1);
      StartIs(line, s, k - 1);
    }
  }

  lemma StartIs(line: string, s: Stamp, k: nat)
    requires k < 6
    ensures StartOf(line, s, k) == |HeadOf(line)| + |FieldsText(s, 0, k)|
  {}

  lemma StartsAscend(line: string, s: Stamp)
    requires OnlyStatus(line) && Lined(s)
    ensures Ascending(Starts(BlockOf(line, s), 6)) && Starts(BlockOf(line, s), 6) != []
            && Starts(BlockOf(line, s), 6)[0] == 3
  {
    hide Lined, BlockOf, Starts, StartOf, OnlyStatus, CountErrors, FieldErrors, FieldText;
    StartsRead(line, s, 6);
    var starts := Starts(BlockOf(line, s), 6);
    forall i | 0 <= i < |starts| ensures i > 0 ==> starts[i] >= starts[i - 1] {
      if i > 0 {
        StartsGrow(line, s, i);
      }
    }
    StartIs(line, s, 0);
    assert FieldsText(s, 0, 0) == [];
  }

  lemma StatusReads(line: string, s: Stamp)
    requires OnlyStatus(line) && Lined(s)
    ensures Where(BlockOf(line, s), IsStatus) == [1] && StatusText(BlockOf(line, s)) == StatusValue(line)
  {
    hide Lined, IsStatus, StatusValue, Where, Inert, NoLabel, FieldsText;
    var block := BlockOf(line, s);
    HeadIsInert(line);
    FieldsAreInert(s, 0, 6);
    WhereNone(FieldsText(s, 0, 6), IsStatus);
    WhereConcat(HeadOf(line), FieldsText(s, 0, 6), IsStatus);
    assert block[1] == line;
  }

  lemma ActionReads(line: string, s: Stamp)
    requires OnlyStatus(line) && Lined(s)
    ensures Value(BlockOf(line, s), NextAction) == [ActionName(s.nextAction)]
    ensures ActionOf(BlockOf(line, s)) == Some(s.nextAction)
    ensures ItemErrors(NextAction, BodyText(ListOf(s, 5))) == []
  {
    hide Lined, BlockOf, ActionName, FindAction, LabelLines, Present, FieldLines, ItemErrors, Items, FieldsText, HeadOf,
         BodyText, OneLine, OnlyStatus;
    FieldReads(line, s, 5);
    ItemsAreLined(s, 5);
    ActionFound(s.nextAction);
    ActionIsClean(s.nextAction);
    BodyReadsIff(NextAction, ListOf(s, 5));
  }

  /** The printed items of p read as those of q. */
  ghost predicate ReadsAs(p: Stamp, q: Stamp) {
    forall k: nat | k < 5 ::
      Items(BodyText(ListOf(p, k))) == ListOf(q, k) && ItemErrors(Nth(k), BodyText(ListOf(p, k))) == []
  }

  /** The fields of a printed stamp are in order whatever the status line says. */
  lemma BlockReads(line: string, p: Stamp, q: Stamp)
    requires OnlyStatus(line) && Lined(p) && ReadsAs(p, q) && Consistent(q) && p.nextAction == q.nextAction
    ensures StatusValue(line) == Some(StatusName(q.status))
            ==> ValidateBlock(BlockOf(line, p)) == Validation([], Some(q))
    ensures StatusValue(line) == Some("") ==> ValidateBlock(BlockOf(line, p)) == Validation([], None)
  {
    hide BlockOf, CountErrors, FieldErrors, Starts, Value, ActionOf, StatusText, IsPlaceholder, IsNone, ReadsAs, Lined,
         ActionName, StatusName, StatusValue, FindStatus, Ascending, Where, OnlyStatus, ItemErrors, BodyText;
    NoFieldErrors(line, p, q);
    StartsAscend(line, p);
    StatusReads(line, p);
    StatusFound(q.status);
    StatusNameIsText(q.status);
    BlankIsNoStatus();
    ActionReads(line, p);
    FiveValues(line, p, q);
    if StatusValue(line) == Some(StatusName(q.status)) || StatusValue(line) == Some("") {
      assert LayoutErrors(BlockOf(line, p)) == [];
      assert MeaningErrors(BlockOf(line, p)) == [];
    }
  }

  lemma NoFieldErrors(line: string, p: Stamp, q: Stamp)
    requires OnlyStatus(line) && Lined(p) && ReadsAs(p, q)
    ensures CountErrors(BlockOf(line, p), 6) == [] && FieldErrors(BlockOf(line, p), 6) == []
  {
    hide BlockOf, CountErrors, FieldErrors, Lined, OnlyStatus, ItemErrors, BodyText, ActionName, Value, ActionOf;
    FieldsRead(line, p, 6);
    ActionReads(line, p);
    forall j: nat | j < 6 ensures ItemErrors(Nth(j), BodyText(ListOf(p, j))) == [] {
      if j == 5 {
        assert Nth(j) == NextAction;
      }
    }
  }

  lemma FiveValues(line: string, p: Stamp, q: Stamp)
    requires OnlyStatus(line) && Lined(p) && ReadsAs(p, q)
    ensures var block := BlockOf(line, p);
            && Value(block, ChosenPath) == q.chosenPath && Value(block, RequiredEdits) == q.requiredEdits
            && Value(block, FollowUps) == q.followUps && Value(block, DoNotDo) == q.doNotDo
            && Value(block, Evidence) == q.evidence
  {
    hide Lined, OnlyStatus, BlockOf, LabelLines, Present, FieldLines, ItemErrors, Items, BodyText, HeadOf, FieldsText;
    forall k: nat | k < 5 ensures Value(BlockOf(line, p), Nth(k)) == ListOf(q, k) {
      FieldReads(line, p, k);
    }
    assert Nth(0) == ChosenPath && Nth(1) == RequiredEdits && Nth(2) == FollowUps && Nth(3) == DoNotDo
           && Nth(4) == Evidence;
  }

  lemma {:induction false} NothingFenced(lines: seq<string>)
    requires forall i | 0 <= i < |lines| :: Opening(lines[i]).Closed?
    ensures Unfenced(Closed, lines) == lines
  {
    hide Opening, Closes;
    if lines != [] {
      NothingFenced(lines[1..]);
      assert lines == [lines[0]] + lines[1..];
    }
  }

  lemma DecisionLine()
    ensures IsDecision("## Decision") && Opening("## Decision").Closed? && OneLine("## Decision")
  {
    TrimKeeps("## Decision");
    assert "## Decision"[2..] == " Decision" && " Decision"[1..] == "Decision";
    TrimKeeps("Decision");
    assert Lower("Decision") == "decision";
  }

  lemma BlockIsInert(line: string, s: Stamp)
    requires OnlyStatus(line) && Lined(s)
    ensures Inert(BlockOf(line, s))
  {
    hide Lined, Inert, NoStatus, NoLabel, FieldsText, OnlyStatus;
    HeadIsInert(line);
    FieldsAreInert(s, 0, 6);
    InertJoin(HeadOf(line), FieldsText(s, 0, 6));
  }

  lemma InertJoin(a: seq<string>, b: seq<string>)
    requires Inert(a) && Inert(b)
    ensures Inert(a + b)
  {
    hide Opening, IsHeading, IsDecision, OneLine;
  }

  /** A document that is one Decision section validates as that section. */
  lemma TextReads(line: string, s: Stamp)
    requires OnlyStatus(line) && Lined(s)
    ensures Validate(JoinLines(["## Decision"] + BlockOf(line, s))) == ValidateBlock(BlockOf(line, s))
  {
    hide Lined, BlockOf, IsDecision, IsHeading, Opening, OneLine, ValidateBlock, Where, FirstFrom, Unfenced,
         SplitLines, JoinLines, OnlyStatus;
    var block := BlockOf(line, s);
    var lines := ["## Decision"] + block;
    DecisionLine();
    BlockIsInert(line, s);
    assert forall i | 0 < i < |lines| :: lines[i] == block[i - 1];
    LinesReadBack(lines);
    NothingFenced(lines);
    WhereOne("## Decision", IsDecision);
    WhereNone(block, IsDecision);
    WhereConcat(["## Decision"], block, IsDecision);
    FirstAt(lines, 1, |lines|, IsHeading);
    assert lines[1..|lines|] == block;
  }

  /** Printing p and validating the text returns q, if p's items read as q's. */
  lemma PrintReadsAs(p: Stamp, q: Stamp)
    requires Lined(p) && ReadsAs(p, q) && Consistent(q) && p.status == q.status && p.nextAction == q.nextAction
    ensures Validate(JoinLines(Print(p))) == Validation([], Some(q))
  {
    hide Lined, ReadsAs, Consistent, BlockOf, ValidateBlock, Validate, JoinLines, OnlyStatus, StatusName, StatusValue;
    StatusOnly(p.status);
    TextReads("Status: " + StatusName(p.status), p);
    BlockReads("Status: " + StatusName(p.status), p, q);
  }

  lemma StatusOnly(s: Status)
    ensures var line := "Status: " + StatusName(s); OnlyStatus(line) && StatusValue(line) == Some(StatusName(s))
  {
    hide OnlyStatus, StatusName, StatusValue;
    StatusLine(s);
    OnlyIf("Status: " + StatusName(s));
  }

  lemma WellFormedReads(s: Stamp)
    requires WellFormed(s)
    ensures Lined(s) && ReadsAs(s, s)
  {
    hide Lined, Items, ItemErrors, BodyText, Clean, IsPlaceholder, IsNone, ActionFits, OneLine;
    WellFormedIsLined(s);
    forall k: nat | k < 5
      ensures Items(BodyText(ListOf(s, k))) == ListOf(s, k) && ItemErrors(Nth(k), BodyText(ListOf(s, k))) == []
    {
      ItemsAreLined(s, k);
      BodyReadsIff(Nth(k), ListOf(s, k));
    }
  }

  /** Printing a well-formed stamp in canonical layout and validating the text returns no error and
      the same stamp, whatever its items say. */
  lemma PrintReadsBack(s: Stamp)
    requires WellFormed(s)
    ensures Validate(JoinLines(Print(s))) == Validation([], Some(s))
  {
    hide Lined, ReadsAs, Validate, JoinLines, Print, Consistent;
    WellFormedReads(s);
    PrintReadsAs(s, s);
  }

  lemma OnlyIf(line: string)
    requires StatusValue(line).Some? && Opening(line).Closed? && !IsHeading(line) && !IsDecision(line) && OneLine(line)
    requires forall f :: !IsLabel(line, f)
    ensures OnlyStatus(line)
  {}

  /** White space is all the status line gives: no error is reported, and no stamp is returned. */
  lemma BlankStatusUnreported(s: Stamp)
    requires WellFormed(s)
    ensures Validate(JoinLines(["## Decision"] + BlockOf("Status: ", s))) == Validation([], None)
  {
    hide Lined, ReadsAs, Consistent, BlockOf, ValidateBlock, Validate, JoinLines, OnlyStatus, StatusValue;
    BlankStatusLine();
    WellFormedReads(s);
    TextReads("Status: ", s);
    BlockReads("Status: ", s, s);
  }

  lemma TrimmedBlankStatus()
    ensures Trim("Status: ") == "Status:"
  {
    assert "Status: "[..7] == "Status:";
  }

  lemma RestOfBlank()
    ensures Rest(" ") == Some("")
  {
    assert Trim(" ") == "" by { assert " "[1..] == ""; }
    assert ' ' in " " && !EndsLine(' ');
  }

  lemma BlankStatusLine()
    ensures OnlyStatus("Status: ") && StatusValue("Status: ") == Some("")
  {
    var line := "Status: ";
    TrimmedBlankStatus();
    assert line[..7] == "Status:" && line[7..] == " ";
    assert Lower("Status:") == "status:";
    assert Rest(" ") == Some("") by { RestOfBlank(); }
    assert StatusValue(line) == Some("");
    forall f ensures !IsLabel(line, f) {
      LowerFirst("Status:");
      LowerFirst(Label(f));
    }
  }

  /** It takes the white space: a section whose status lines all end at the colon has no status
      line, and that is reported. */
  lemma BareStatusIsReported(block: seq<string>)
    requires forall line | line in block && |line| >= 7 && Lower(line[..7]) == "status:" :: |line| == 7
    ensures StatusCount in ValidateBlock(block).errors
  {
    hide Starts, StatusText, StatusOf, CountErrors, FieldErrors, MeaningErrors, ActionOf, Value, Ascending, Lower;
    forall line | line in block ensures !IsStatus(line) {
      if |line| == 7 {
        assert line[7..] == "";
      }
    }
    WhereNone(block, IsStatus);
    assert When(true, StatusCount)[0] == StatusCount;
    assert LayoutErrors(block)[0] == StatusCount;
    assert ValidateBlock(block).errors[0] == StatusCount;
  }

  /** One such document: every field is there and makes sense. */
  lemma BlankStatusHappens()
    ensures var s := Stamp(Rejected, ["Archive"], ["Archive"], ["Archive"], ["Archive"], ["Archive"], Archive);
            WellFormed(s) && Validate(JoinLines(["## Decision"] + BlockOf("Status: ", s))) == Validation([], None)
  {
    hide Validate, JoinLines, BlockOf, Clean, IsPlaceholder, Normalized, ActionName;
    var s := Stamp(Rejected, ["Archive"], ["Archive"], ["Archive"], ["Archive"], ["Archive"], Archive);
    assert ActionName(Archive) == "Archive" by { ArchiveIsNamed(); }
    ActionIsClean(Archive);
    CleanIsResolved("Archive");
    ArchiveIsSome();
    BlankStatusUnreported(s);
  }

  lemma ArchiveIsNamed()
    ensures ActionName(Archive) == "Archive"
  {}

  lemma CleanIsResolved(item: string)
    requires Clean(item)
    ensures !IsPlaceholder(item)
  {}

  lemma ArchiveIsSome()
    ensures Normalized("Archive") != "none"
  {
    NameIsNormal("Archive");
    assert |Lower("Archive")| == 7;
  }

  // ---------- The forms of lines ----------

  const CAPITALS := "ABCDEFGHIJKLMNOPQRSTUVWXYZ"
  const SMALL := "abcdefghijklmnopqrstuvwxyz"

  lemma LowerLetters(i: nat)
    requires i < 26
    ensures LowerChar(CAPITALS[i]) == SMALL[i]
  {}

  lemma OthersStay(c: char)
    ensures c !in CAPITALS ==> LowerChar(c) == c
  {
    if 'A' <= c <= 'Z' {
      var i := c as int - 'A' as int;
      assert CAPITALS[i] == c;
    }
  }

  /** The code points of white space: the format characters, the spaces of Unicode, the line and
      paragraph separators, and the byte order mark. */
  lemma SpacesAre(c: char)
    ensures IsSpace(c)
       <==> c as int in {9, 10, 11, 12, 13, 32, 160, 5760, 8192, 8193, 8194, 8195, 8196, 8197, 8198, 8199, 8200, 8201,
                         8202, 8232, 8233, 8239, 8287, 12288, 65279}
  {}

  lemma {:induction false} TrimEndSplits(s: string) returns (after: string)
    ensures s == TrimEnd(s) + after && AllSpace(after)
    ensures TrimEnd(s) != "" ==> !IsSpace(TrimEnd(s)[|TrimEnd(s)| - 1])
  {
    hide IsSpace;
    if s != "" && IsSpace(s[|s| - 1]) {
      var n := |s| - 1;
      var shorter := TrimEndSplits(s[..n]);
      after := shorter + [s[n]];
      calc {
        s;
        s[..n] + [s[n]];
        TrimEnd(s[..n]) + shorter + [s[n]];
        TrimEnd(s) + after;
      }
    } else {
      after := "";
    }
  }

  lemma {:induction false} TrimStartSplits(s: string) returns (before: string)
    ensures s == before + TrimStart(s) && AllSpace(before)
  {
    hide IsSpace;
    if s != "" && IsSpace(s[0]) {
      before := TrimStartSplits(s[1..]);
      before := [s[0]] + before;
    } else {
      before := "";
    }
  }

  /** Trimming takes white space off both ends, and all of it. */
  lemma TrimSplits(s: string) returns (before: string, after: string)
    ensures s == before + Trim(s) + after && AllSpace(before) && AllSpace(after)
    ensures Trim(s) != "" ==> !IsSpace(Trim(s)[0]) && !IsSpace(Trim(s)[|Trim(s)| - 1])
  {
    before := TrimStartSplits(s);
    after := TrimEndSplits(TrimStart(s));
    TrimEndMembers(TrimStart(s));
  }

  lemma {:induction false} TrimStartIs(before: string, rest: string)
    requires AllSpace(before) && (rest != "" ==> !IsSpace(rest[0]))
    ensures TrimStart(before + rest) == rest
  {
    hide IsSpace;
    if before == "" {
      assert before + rest == rest;
    } else {
      assert before[0] in before && forall c | c in before[1..] :: c in before;
      assert (before + rest)[1..] == before[1..] + rest;
      TrimStartIs(before[1..], rest);
    }
  }

  lemma {:induction false} TrimEndIs(text: string, after: string)
    requires AllSpace(after) && (text != "" ==> !IsSpace(text[|text| - 1]))
    ensures TrimEnd(text + after) == text
  {
    hide IsSpace;
    if after == "" {
      assert text + after == text;
    } else {
      var n := |after| - 1;
      assert after[n] in after && forall c | c in after[..n] :: c in after;
      assert (text + after)[..|text + after| - 1] == text + after[..n];
      TrimEndIs(text, after[..n]);
    }
  }

  lemma TrimIs(before: string, text: string, after: string)
    requires AllSpace(before) && AllSpace(after)
    requires text != "" ==> !IsSpace(text[0]) && !IsSpace(text[|text| - 1])
    ensures Trim(before + text + after) == text
  {
    hide IsSpace;
    if text == "" {
      TrimsToNothing(before + text + after);
      assert AllSpace(before + text + after);
    } else {
      assert before + text + after == before + (text + after);
      TrimStartIs(before, text + after);
      TrimEndIs(text, after);
    }
  }

  /** A Decision heading: two number signs, white space, and the word in any case, with white space
      around. */
  ghost predicate DecisionForm(line: string, a: string, b: string, word: string, c: string) {
    line == a + "##" + b + word + c && AllSpace(a) && AllSpace(b) && AllSpace(c) && b != "" && Lower(word) == "decision"
  }

  lemma DecisionIff(line: string)
    ensures IsDecision(line) <==> exists a, b, word, c :: DecisionForm(line, a, b, word, c)
  {
    hide IsSpace;
    if IsDecision(line) {
      var t := Trim(line);
      var a, c := TrimSplits(line);
      var b, d := TrimSplits(t[2..]);
      var word := Trim(t[2..]);
      assert |word| == 8 by { assert |Lower(word)| == |word|; }
      LastIs(t, b, word, d);
      BeforeWord(t, b, word);
      assert DecisionForm(line, a, b, word, c);
    }
    if a, b, word, c :| DecisionForm(line, a, b, word, c) {
      FormIsDecision(line, a, b, word, c);
    }
  }

  /** A trimmed text has nothing after its last word. */
  lemma LastIs(t: string, b: string, word: string, d: string)
    requires |t| >= 3 && t[2..] == b + word + d && AllSpace(d)
    ensures d == "" || IsSpace(t[|t| - 1])
  {
    if d != "" {
      assert t[|t| - 1] == t[2..][|t| - 3] == d[|d| - 1];
      assert d[|d| - 1] in d;
    }
  }

  lemma BeforeWord(t: string, b: string, word: string)
    requires |t| >= 3 && t[..2] == "##" && IsSpace(t[2]) && t[2..] == b + word && word != "" && !IsSpace(word[0])
    ensures b != "" && t == "##" + b + word
  {
    assert t == t[..2] + t[2..];
    assert t[2] == t[2..][0];
  }

  lemma WordEnds(word: string)
    requires Lower(word) == "decision"
    ensures |word| == 8 && !IsSpace(word[0]) && !IsSpace(word[7]) && Trim(word) == word
  {
    assert |Lower(word)| == |word|;
    assert Lower(word)[0] == LowerChar(word[0]) && Lower(word)[7] == LowerChar(word[7]);
    TrimKeeps(word);
  }

  lemma FormIsDecision(line: string, a: string, b: string, word: string, c: string)
    requires DecisionForm(line, a, b, word, c)
    ensures IsDecision(line)
  {
    hide IsSpace;
    WordEnds(word);
    var t := "##" + b + word;
    assert line == a + t + c;
    assert t[0] == '#' && t[|t| - 1] == word[7];
    HashIsNoSpace();
    TrimIs(a, t, c);
    assert t[2] == b[0] && b[0] in b;
    assert t[2..] == b + word + "";
    TrimIs(b, word, "");
  }

  lemma HashIsNoSpace()
    ensures !IsSpace('#') && !IsSpace('-')
  {}

  /** A heading of that level: two number signs, white space, and some text, with white space
      around. */
  ghost predicate HeadingForm(line: string, a: string, b: string, text: string, c: string) {
    && line == a + "##" + b + text + c && AllSpace(a) && AllSpace(b) && AllSpace(c) && b != ""
    && text != "" && !IsSpace(text[0]) && !IsSpace(text[|text| - 1])
  }

  lemma HeadingIff(line: string)
    ensures IsHeading(line) <==> exists a, b, text, c :: HeadingForm(line, a, b, text, c)
  {
    hide HeadingForm, IsHeading;
    if IsHeading(line) {
      HeadingHasForm(line);
    }
    if a, b, text, c :| HeadingForm(line, a, b, text, c) {
      FormIsHeading(line, a, b, text, c);
    }
  }

  lemma HeadingHasForm(line: string)
    requires IsHeading(line)
    ensures exists a, b, text, c :: HeadingForm(line, a, b, text, c)
  {
    hide IsSpace, AllSpace, Trim;
    var t := Trim(line);
    var a, c := TrimSplits(line);
    var b, d := TrimSplits(t[2..]);
    var text := Trim(t[2..]);
    LastIs(t, b, text, d);
    SomeText(t, b, text);
    BeforeWord(t, b, text);
    assert HeadingForm(line, a, b, text, c);
  }

  /** A trimmed text that goes on after its first three characters' white space has a word there. */
  lemma SomeText(t: string, b: string, text: string)
    requires |t| >= 3 && t[2..] == b + text && AllSpace(b)
    ensures text != "" || IsSpace(t[|t| - 1])
  {
    if text == "" {
      assert t[|t| - 1] == t[2..][|t| - 3] == b[|b| - 1];
      assert b[|b| - 1] in b;
    }
  }

  lemma FormIsHeading(line: string, a: string, b: string, text: string, c: string)
    requires HeadingForm(line, a, b, text, c)
    ensures IsHeading(line)
  {
    hide IsSpace, Trim;
    var t := "##" + b + text;
    assert line == a + t + c;
    assert t[0] == '#' && t[|t| - 1] == text[|text| - 1];
    HashIsNoSpace();
    TrimIs(a, t, c);
    assert t[2] == b[0] && b[0] in b;
  }

  // Fences.

  lemma {:induction false} RunIs(s: string, c: char, n: nat)
    ensures (Run(s, c) == n) <==> n <= |s| && (forall i | 0 <= i < n :: s[i] == c) && (n == |s| || s[n] != c)
  {
    if s != "" && s[0] == c && n > 0 {
      RunIs(s[1..], c, n - 1);
      assert forall i | 0 < i < |s| :: s[i] == s[1..][i - 1];
    }
  }

  /** A line opens a fence of n markers when, trimmed, it begins with exactly n back quotes or n
      tildes, and n is at least three. */
  lemma OpeningIff(line: string, marker: char, n: nat)
    ensures var t := Trim(line);
            Opening(line) == Open(marker, n)
            <==> && marker in {'`', '~'} && 3 <= n <= |t|
                 && (forall i | 0 <= i < n :: t[i] == marker) && (n == |t| || t[n] != marker)
  {
    hide Trim;
    var t := Trim(line);
    RunIs(t, '`', n);
    RunIs(t, '~', n);
    RunIs(t, '`', Run(t, '`'));
  }

  /** A line closes it when, trimmed, it is at least as many of the markers and white space. */
  lemma ClosesIff(line: string, fence: Fence)
    requires fence.Open?
    ensures var t := Trim(line);
            Closes(line, fence)
            <==> exists n :: && fence.length <= n <= |t| && (forall i | 0 <= i < n :: t[i] == fence.marker)
                             && AllSpace(t[n..])
  {
    hide Trim, IsSpace;
    var t := Trim(line);
    var run := Run(t, fence.marker);
    RunIs(t, fence.marker, run);
    if n :| fence.length <= n <= |t| && (forall i | 0 <= i < n :: t[i] == fence.marker) && AllSpace(t[n..]) {
      assert n <= run;
      assert t[run..] == t[n..][run - n..];
    }
  }

  // Bullets.

  /** A bullet: white space, a dash, white space, and a text of one line, with white space after. */
  ghost predicate BulletForm(line: string, a: string, b: string, text: string, c: string) {
    && line == a + "-" + b + text + c && AllSpace(a) && AllSpace(b) && AllSpace(c) && b != ""
    && text != "" && !IsSpace(text[0]) && !IsSpace(text[|text| - 1]) && forall x | x in text :: !EndsLine(x)
  }

  lemma BulletIff(line: string, text: string)
    requires text != ""
    ensures BulletText(line) == Some(text) <==> exists a, b, c :: BulletForm(line, a, b, text, c)
  {
    hide BulletForm, BulletText;
    if BulletText(line) == Some(text) {
      BulletHasForm(line, text);
    }
    if a, b, c :| BulletForm(line, a, b, text, c) {
      FormIsBullet(line, a, b, text, c);
    }
  }

  lemma BulletHasForm(line: string, text: string)
    requires BulletText(line) == Some(text) && text != ""
    ensures exists a, b, c :: BulletForm(line, a, b, text, c)
  {
    hide IsSpace, AllSpace, Trim, TrimStart, EndsLine;
    var t := TrimStart(line);
    var a := TrimStartSplits(line);
    var b, c := TrimSplits(t[1..]);
    TrimsToNothing(t[2..]);
    assert t == "-" + t[1..];
    DashThenSpace(t, b, text, c);
    assert BulletForm(line, a, b, text, c);
  }

  lemma DashThenSpace(t: string, b: string, text: string, c: string)
    requires |t| >= 2 && IsSpace(t[1]) && t[1..] == b + text + c && text != "" && !IsSpace(text[0])
    ensures b != ""
  {
    assert t[1] == t[1..][0];
  }

  lemma FormIsBullet(line: string, a: string, b: string, text: string, c: string)
    requires BulletForm(line, a, b, text, c)
    ensures BulletText(line) == Some(text)
  {
    hide IsSpace, EndsLine, Trim;
    var t := "-" + b + text + c;
    assert line == a + t;
    HashIsNoSpace();
    TrimStartIs(a, t);
    assert t[1] == b[0] && b[0] in b;
    assert t[1..] == b + text + c;
    assert t[2..] == b[1..] + text + c;
    assert AllSpace(b[1..]);
    TrimIs(b, text, c);
    TrimIs(b[1..], text, c);
  }

  /** A line can go on with the bullet before it when at least two characters of white space come
      before some text. */
  lemma ContinuesIff(line: string)
    ensures Continues(line)
       <==> exists indent, text :: && line == indent + text && AllSpace(indent) && |indent| >= 2
                                   && text != "" && !IsSpace(text[0])
  {
    hide IsSpace, Trim;
    TrimsToNothing(line);
    if Continues(line) {
      var indent := TrimStartSplits(line);
      var text := TrimStart(line);
      assert text != "" by {
        assert text == "" ==> line == indent;
      }
      Indented(line, indent, text);
    }
    if indent, text :| line == indent + text && AllSpace(indent) && |indent| >= 2 && text != "" && !IsSpace(text[0]) {
      assert line[0] == indent[0] && line[1] == indent[1] && indent[0] in indent && indent[1] in indent;
      assert text[0] in line;
    }
  }

  lemma Indented(line: string, indent: string, text: string)
    requires line == indent + text && |line| >= 2 && text != "" && !IsSpace(text[0])
    ensures |indent| >= 2 || !IsSpace(line[0]) || !IsSpace(line[1])
  {
    if |indent| <= 1 {
      assert line[|indent|] == text[0];
    }
  }

  // Placeholders.

  ghost predicate IsWord(w: string) {
    w == "..." || w == "n/a" || w == "pending" || w == "tbd" || w == "to be decided" || w == "todo" || w == "unknown"
  }

  /** A placeholder is a word of the list, in any case, trimmed, and with a full stop or a semicolon
      after it or not; or dots alone. */
  lemma PlaceholderIff(value: string)
    ensures var t := Lower(Trim(value));
            IsPlaceholder(value)
            <==> AllDots(t) || exists w :: IsWord(w) && (t == w || t == w + "." || t == w + ";")
  {
    hide Trim, Lower;
    var t := Lower(Trim(value));
    if w :| IsWord(w) && (t == w || t == w + "." || t == w + ";") {
      WordStays(t, w);
    }
    assert IsPlaceholder(value) <==> IsWord(Normalized(value));
    if !AllDots(t) && t != "" {
      StoppedIs(t);
    }
  }

  lemma StoppedIs(t: string)
    requires t != ""
    ensures var n := if t[|t| - 1] == '.' || t[|t| - 1] == ';' then t[..|t| - 1] else t;
            t == n || t == n + "." || t == n + ";"
  {
    assert t == t[..|t| - 1] + [t[|t| - 1]];
  }

  lemma WordStays(t: string, w: string)
    requires IsWord(w) && (t == w || t == w + "." || t == w + ";")
    ensures AllDots(t) || (t != "" && (if t[|t| - 1] == '.' || t[|t| - 1] == ';' then t[..|t| - 1] else t) == w)
  {
    if t != w {
      assert t[..|t| - 1] == w;
    } else if w == "..." {
      assert AllDots(t);
    }
  }

  // ---------- The layout of a section that gives a stamp ----------

  lemma {:induction false} StartsOf(block: seq<string>, k: nat)
    requires k <= 6 && CountErrors(block, k) == []
    ensures |Starts(block, k)| == k
    ensures forall i: nat | i < k :: LabelLines(block, Nth(i)) == [Starts(block, k)[i]]
  {
    hide LabelLines, Nth;
    if k > 0 {
      assert CountErrors(block, k - 1) == [] && Present(block, Nth(k - 1));
      StartsOf(block, k - 1);
      assert LabelLines(block, Nth(k - 1)) == [Starts(block, k)[k - 1]];
    }
  }

  /** One status line, one line for each label, the status not after the first label, and the labels
      in their order. */
  ghost predicate Laid(block: seq<string>, status: nat, labels: seq<nat>) {
    && Where(block, IsStatus) == [status] && |labels| == 6 && status <= labels[0]
    && LabelLines(block, ChosenPath) == [labels[0]] && LabelLines(block, RequiredEdits) == [labels[1]]
    && LabelLines(block, FollowUps) == [labels[2]] && LabelLines(block, DoNotDo) == [labels[3]]
    && LabelLines(block, Evidence) == [labels[4]] && LabelLines(block, NextAction) == [labels[5]]
    && labels[0] < labels[1] < labels[2] < labels[3] < labels[4] < labels[5]
  }

  /** A section gives a stamp only if it is laid out so. */
  lemma StampHasLayout(block: seq<string>) returns (status: nat, labels: seq<nat>)
    requires ValidateBlock(block).stamp.Some?
    ensures Laid(block, status, labels)
  {
    hide Where, LabelLines, StatusText, StatusOf, ActionOf, Value, FieldErrors, MeaningErrors, CountErrors, Starts;
    NoneOccurs(block);
    StartsOf(block, 6);
    status, labels := Where(block, IsStatus)[0], Starts(block, 6);
    assert Where(block, IsStatus) == [status];
    assert forall k: nat | k < 6 :: LabelLines(block, Nth(k)) == [labels[k]];
    forall j: nat | j < 5 ensures labels[j] < labels[j + 1] {
      TwoLabels(block, Nth(j), Nth(j + 1), labels[j], labels[j + 1]);
    }
    assert Nth(0) == ChosenPath && Nth(1) == RequiredEdits && Nth(2) == FollowUps && Nth(3) == DoNotDo
           && Nth(4) == Evidence && Nth(5) == NextAction;
    assert labels[0] < labels[1] < labels[2] < labels[3] < labels[4] < labels[5];
  }

  lemma TwoLabels(block: seq<string>, f: Field, g: Field, i: nat, j: nat)
    requires f != g && LabelLines(block, f) == [i] && LabelLines(block, g) == [j]
    ensures i != j
  {
    hide Where, Lower, Label, Trim;
    WhereMembers(block, line => IsLabel(line, f));
    WhereMembers(block, line => IsLabel(line, g));
    assert i in LabelLines(block, f) && j in LabelLines(block, g);
    if i == j {
      LabelsDiffer(f, g);
      assert false;
    }
  }

  /** A field's lines are those between its label and the next label of a later field. */
  lemma FieldIsBetween(block: seq<string>, f: Field, start: nat, end: nat)
    requires LabelLines(block, f) == [start] && start < end <= |block|
    requires forall i | start < i < end :: !IsLaterLabel(block[i], f)
    requires end == |block| || IsLaterLabel(block[end], f)
    ensures FieldLines(block, f) == block[start + 1..end]
  {
    hide IsLaterLabel, LabelLines;
    FirstAt(block, start + 1, end, line => IsLaterLabel(line, f));
  }

  // ---------- Which sections give a stamp ----------

  /** A field's lines are bullets with those items, one at least, and no placeholder among them. */
  ghost predicate FieldGives(block: seq<string>, f: Field, items: seq<string>) {
    && Present(block, f) && ReadLines(FieldLines(block, f)) == Reading(items, 0)
    && items != [] && forall x | x in items :: !IsPlaceholder(x)
  }

  ghost predicate FieldsGive(block: seq<string>, s: Stamp) {
    && FieldGives(block, ChosenPath, s.chosenPath) && FieldGives(block, RequiredEdits, s.requiredEdits)
    && FieldGives(block, FollowUps, s.followUps) && FieldGives(block, DoNotDo, s.doNotDo)
    && FieldGives(block, Evidence, s.evidence)
    && exists action :: FieldGives(block, NextAction, [action]) && FindAction(action) == Some(s.nextAction)
  }

  ghost predicate StatusGives(block: seq<string>, status: nat, s: Status) {
    status < |block| && StatusValue(block[status]).Some? && FindStatus(StatusValue(block[status]).value) == Some(s)
  }

  lemma {:induction false} NoPlaceholderErrors(f: Field, items: seq<string>)
    ensures PlaceholderErrors(f, items) == [] <==> forall x | x in items :: !IsPlaceholder(x)
    ensures PlaceholderErrors(f, items) == [] ==> Resolved(items) == items
  {
    hide IsPlaceholder;
    if items != [] {
      var n := |items| - 1;
      NoPlaceholderErrors(f, items[..n]);
      assert items == items[..n] + [items[n]];
    }
  }

  lemma NoItemErrors(f: Field, lines: seq<string>)
    ensures ItemErrors(f, lines) == []
       <==> var r := ReadLines(lines); r.bad == 0 && r.items != [] && forall x | x in r.items :: !IsPlaceholder(x)
    ensures ItemErrors(f, lines) == [] ==> Items(lines) == ReadLines(lines).items
  {
    hide ReadLines, IsPlaceholder, PlaceholderErrors, Resolved;
    NoPlaceholderErrors(f, ReadLines(lines).items);
    assert |NotBullets(f, ReadLines(lines).bad)| == ReadLines(lines).bad;
  }

  lemma FieldGivesIff(block: seq<string>, f: Field, items: seq<string>)
    requires Present(block, f)
    ensures FieldGives(block, f, items) <==> ItemErrors(f, FieldLines(block, f)) == [] && Value(block, f) == items
  {
    hide Present, FieldLines, ItemErrors, ReadLines, IsPlaceholder, Items;
    NoItemErrors(f, FieldLines(block, f));
  }

  lemma {:induction false} FieldErrorsOf(block: seq<string>, k: nat)
    requires k <= 6 && forall j: nat | j < k :: Present(block, Nth(j))
    ensures FieldErrors(block, k) == []
       <==> forall j: nat | j < k :: ItemErrors(Nth(j), FieldLines(block, Nth(j))) == []
    ensures CountErrors(block, k) == []
  {
    hide Present, FieldLines, ItemErrors, Nth;
    if k > 0 {
      FieldErrorsOf(block, k - 1);
    }
  }

  lemma {:induction false} StartsAre(block: seq<string>, labels: seq<nat>, k: nat)
    requires k <= 6 && k <= |labels| && forall j: nat | j < k :: LabelLines(block, Nth(j)) == [labels[j]]
    ensures Starts(block, k) == labels[..k]
  {
    hide LabelLines, Nth;
    if k > 0 {
      StartsAre(block, labels, k - 1);
    }
  }

  lemma LaidIsPresent(block: seq<string>, status: nat, labels: seq<nat>)
    requires Laid(block, status, labels)
    ensures forall j: nat | j < 6 :: LabelLines(block, Nth(j)) == [labels[j]] && Present(block, Nth(j))
  {
    hide LabelLines, Where;
  }

  lemma StatusRead(block: seq<string>, status: nat, s: Status)
    requires Where(block, IsStatus) == [status] && StatusGives(block, status, s)
    ensures StatusText(block).Some? && StatusOf(block) == Some(s)
  {
    hide FindStatus, StatusValue, Where;
  }

  lemma LaidInOrder(block: seq<string>, status: nat, labels: seq<nat>)
    requires Laid(block, status, labels)
    ensures Where(block, IsStatus) == [status] && |labels| == 6 && status <= labels[0]
    ensures labels[0] < labels[1] < labels[2] < labels[3] < labels[4] < labels[5]
  {
    hide Where, LabelLines;
  }

  lemma LaidStarts(block: seq<string>, status: nat, labels: seq<nat>)
    requires Laid(block, status, labels)
    ensures CountErrors(block, 6) == [] && Starts(block, 6) == labels && Ascending(labels)
    ensures labels != [] && status <= labels[0] && Where(block, IsStatus) == [status]
  {
    hide Laid, LabelLines, Where, CountErrors, Starts, Present, FieldErrors, Ascending, FieldLines, ItemErrors, Nth;
    LaidInOrder(block, status, labels);
    LaidIsPresent(block, status, labels);
    FieldErrorsOf(block, 6);
    StartsAre(block, labels, 6);
    assert labels[..6] == labels;
    InOrder(labels);
  }

  /** A section laid out so has no error of layout, unless the status is unknown. */
  lemma LaidWithoutErrors(block: seq<string>, status: nat, labels: seq<nat>, s: Status)
    requires Laid(block, status, labels) && StatusGives(block, status, s)
    ensures LayoutErrors(block) == [] && StatusOf(block) == Some(s)
  {
    hide Laid, Where, StatusText, StatusOf, StatusGives, CountErrors, Starts, Ascending, When;
    LaidStarts(block, status, labels);
    StatusRead(block, status, s);
    NoErrors(StatusCount);
    NoErrors(StatusUnknown);
    NoErrors(StatusLate);
    NoErrors(FieldsOutOfOrder);
  }

  lemma NoErrors(e: Error)
    ensures When(false, e) == []
  {}

  lemma InOrder(labels: seq<nat>)
    requires |labels| == 6 && labels[0] < labels[1] < labels[2] < labels[3] < labels[4] < labels[5]
    ensures Ascending(labels)
  {}

  lemma FieldsGiveIff(block: seq<string>, s: Stamp)
    requires forall j: nat | j < 6 :: Present(block, Nth(j))
    ensures FieldsGive(block, s)
       <==> && FieldErrors(block, 6) == [] && Value(block, ChosenPath) == s.chosenPath
            && Value(block, RequiredEdits) == s.requiredEdits && Value(block, FollowUps) == s.followUps
            && Value(block, DoNotDo) == s.doNotDo && Value(block, Evidence) == s.evidence
            && ActionOf(block) == Some(s.nextAction)
  {
    hide FieldGives, Present, FieldLines, ItemErrors, FieldErrors, FindAction, Value, CountErrors;
    FieldErrorsOf(block, 6);
    ByField(block);
    forall f: Field, items ensures FieldGives(block, f, items)
                    <==> ItemErrors(f, FieldLines(block, f)) == [] && Value(block, f) == items
    {
      FieldGivesIff(block, f, items);
    }
    if ActionOf(block) == Some(s.nextAction) && FieldErrors(block, 6) == [] {
      assert FieldGives(block, NextAction, [Value(block, NextAction)[0]]) by {
        assert Value(block, NextAction) == [Value(block, NextAction)[0]];
      }
    }
  }

  lemma ByField(block: seq<string>)
    requires forall j: nat | j < 6 :: Present(block, Nth(j))
    ensures forall f :: Present(block, f)
    ensures (forall j: nat | j < 6 :: ItemErrors(Nth(j), FieldLines(block, Nth(j))) == [])
       <==> forall f :: ItemErrors(f, FieldLines(block, f)) == []
  {
    hide Present, FieldLines, ItemErrors;
    forall f ensures Present(block, f) {
      assert Present(block, Nth(Rank(f)));
    }
    if forall j: nat | j < 6 :: ItemErrors(Nth(j), FieldLines(block, Nth(j))) == [] {
      forall f ensures ItemErrors(f, FieldLines(block, f)) == [] {
        assert ItemErrors(Nth(Rank(f)), FieldLines(block, Nth(Rank(f)))) == [];
      }
    }
  }

  lemma MeaningFits(block: seq<string>, s: Stamp)
    requires Consistent(s) && StatusOf(block) == Some(s.status) && ActionOf(block) == Some(s.nextAction)
    requires Value(block, ChosenPath) == s.chosenPath && Value(block, RequiredEdits) == s.requiredEdits
    requires Value(block, Evidence) == s.evidence
    ensures MeaningErrors(block) == []
  {
    hide StatusOf, FindAction, Value, IsNone, IsPlaceholder, ActionFits;
  }

  ghost predicate SectionGives(block: seq<string>, s: Stamp) {
    && Consistent(s) && FieldsGive(block, s)
    && exists status, labels :: Laid(block, status, labels) && StatusGives(block, status, s.status)
  }

  lemma GivenIsReturned(block: seq<string>, s: Stamp)
    requires SectionGives(block, s)
    ensures ValidateBlock(block) == Validation([], Some(s))
  {
    hide Consistent, FieldsGive, Laid, StatusGives, LayoutErrors, FieldErrors, MeaningErrors, StatusOf, ActionOf, Value,
         Present;
    var status, labels :| Laid(block, status, labels) && StatusGives(block, status, s.status);
    LaidWithoutErrors(block, status, labels, s.status);
    LaidIsPresent(block, status, labels);
    FieldsGiveIff(block, s);
    MeaningFits(block, s);
  }

  lemma StatusIsRead(block: seq<string>, status: nat)
    requires Where(block, IsStatus) == [status] && StatusOf(block).Some?
    ensures StatusGives(block, status, StatusOf(block).value)
  {
    hide FindStatus, StatusValue, Where;
    WhereMembers(block, IsStatus);
    assert status in Where(block, IsStatus);
  }

  lemma ReturnedIsGiven(block: seq<string>)
    requires ValidateBlock(block).stamp.Some?
    ensures SectionGives(block, ValidateBlock(block).stamp.value)
  {
    hide Consistent, FieldsGive, StatusGives, LayoutErrors, FieldErrors, MeaningErrors, CountErrors, StatusOf, ActionOf,
         Value, Present, Where, LabelLines;
    NoneOccurs(block);
    BlockConsistent(block);
    var status, labels := StampHasLayout(block);
    LaidIsPresent(block, status, labels);
    StatusIsRead(block, status);
    FieldsGiveIff(block, ValidateBlock(block).stamp.value);
    assert Laid(block, status, labels) && StatusGives(block, status, StatusOf(block).value);
  }

  /** A document gives a stamp exactly when it has one Decision section, laid out in canonical order,
      whose status and fields say what the stamp says, bullet by bullet, and the stamp is consistent. */
  lemma StampIff(markdown: string, s: Stamp)
    ensures var section := SectionOf(Unfenced(Closed, SplitLines(markdown)));
            Validate(markdown).stamp == Some(s) <==> section.Block? && SectionGives(section.lines, s)
  {
    hide SectionOf, Unfenced, SplitLines, SectionGives, ValidateBlock;
    var section := SectionOf(Unfenced(Closed, SplitLines(markdown)));
    if section.Block? {
      if SectionGives(section.lines, s) {
        GivenIsReturned(section.lines, s);
      }
      if ValidateBlock(section.lines).stamp.Some? {
        ReturnedIsGiven(section.lines);
      }
    }
  }

  // ---------- Which errors are reported ----------

  /** The k-th field's one label is line x. */
  ghost predicate LabelAt(block: seq<string>, k: nat, x: nat) {
    k < 6 && LabelLines(block, Nth(k)) == [x]
  }

  ghost predicate Unlabelled(block: seq<string>, k: nat) {
    k < 6 && |LabelLines(block, Nth(k))| != 1
  }

  ghost predicate FirstBegins(block: seq<string>, k: nat, x: nat) {
    LabelAt(block, k, x) && forall i: nat | i < k :: Unlabelled(block, i)
  }

  /** The status line stands after the first of the labels that are there once, in canonical order. */
  ghost predicate StatusIsLate(block: seq<string>) {
    var statuses := Where(block, IsStatus);
    |statuses| == 1 && exists k: nat, x: nat :: FirstBegins(block, k, x) && x < statuses[0]
  }

  /** Of two labels that are there once, the later one comes first. */
  ghost predicate OutOfOrder(block: seq<string>, n: nat) {
    exists j: nat, k: nat, x: nat, y: nat :: j < k < n && LabelAt(block, j, x) && LabelAt(block, k, y) && y < x
  }

  /** The lines of a field that is there once, as read. */
  ghost function ReadingOf(block: seq<string>, f: Field): Reading {
    if Present(block, f) then ReadLines(FieldLines(block, f)) else Reading([], 0)
  }

  /** What each error says of the section. */
  ghost predicate Wrong(block: seq<string>, e: Error) {
    var edits, evidence := Value(block, RequiredEdits), Value(block, Evidence);
    match e
    case MissingSection => false
    case RepeatedSection => false
    case StatusCount => |Where(block, IsStatus)| != 1
    case StatusUnknown => StatusText(block).Some? && StatusText(block).value != "" && StatusOf(block).None?
    case StatusLate => StatusIsLate(block)
    case FieldCount(f) => |LabelLines(block, f)| != 1
    case FieldsOutOfOrder => OutOfOrder(block, 6)
    case NotBullet(f) => ReadingOf(block, f).bad > 0
    case Placeholder(f, value) => value in ReadingOf(block, f).items && IsPlaceholder(value)
    case NoItems(f) => Present(block, f) && forall x | x in ReadingOf(block, f).items :: IsPlaceholder(x)
    case PathIsNone => IsNone(Value(block, ChosenPath))
    case EditsBlockApproval => StatusOf(block) == Some(Approved) && !IsNone(edits)
    case EditsMissing => StatusOf(block) == Some(ApprovedWithEdits) && IsNone(edits)
    case EvidenceMissing => StatusOf(block) in {Some(Approved), Some(ApprovedWithEdits)} && IsNone(evidence)
    case ActionUnknown => |Value(block, NextAction)| == 1 && ActionOf(block).None?
    case ActionCount => |Value(block, NextAction)| > 1
    case ActionInconsistent =>
      StatusOf(block).Some? && ActionOf(block).Some? && !ActionFits(StatusOf(block).value, ActionOf(block).value)
  }

  lemma {:induction false} CountErrorsAre(block: seq<string>, k: nat, e: Error)
    requires k <= 6
    ensures e in CountErrors(block, k) <==> exists j: nat :: j < k && e == FieldCount(Nth(j)) && Unlabelled(block, j)
  {
    hide LabelLines, Nth;
    if k > 0 {
      CountErrorsAre(block, k - 1, e);
    }
  }

  lemma {:induction false} FieldErrorsAre(block: seq<string>, k: nat, e: Error)
    requires k <= 6
    ensures e in FieldErrors(block, k)
       <==> exists j: nat :: j < k && Present(block, Nth(j)) && e in ItemErrors(Nth(j), FieldLines(block, Nth(j)))
  {
    hide Present, FieldLines, ItemErrors, Nth;
    if k > 0 {
      FieldErrorsAre(block, k - 1, e);
    }
  }

  lemma {:induction false} PlaceholderErrorsAre(f: Field, items: seq<string>, e: Error)
    ensures e in PlaceholderErrors(f, items) <==> exists x :: x in items && IsPlaceholder(x) && e == Placeholder(f, x)
    ensures Resolved(items) == [] <==> forall x | x in items :: IsPlaceholder(x)
  {
    hide IsPlaceholder;
    if items != [] {
      var n := |items| - 1;
      PlaceholderErrorsAre(f, items[..n], e);
      assert items == items[..n] + [items[n]];
    }
  }

  lemma ItemErrorsAre(f: Field, lines: seq<string>, e: Error)
    ensures var r := ReadLines(lines);
            e in ItemErrors(f, lines)
            <==> || (e == NotBullet(f) && r.bad > 0)
                 || (exists x :: x in r.items && IsPlaceholder(x) && e == Placeholder(f, x))
                 || (e == NoItems(f) && forall x | x in r.items :: IsPlaceholder(x))
  {
    hide ReadLines, IsPlaceholder, PlaceholderErrors, Resolved;
    var r := ReadLines(lines);
    PlaceholderErrorsAre(f, r.items, e);
    if r.bad > 0 {
      assert NotBullets(f, r.bad)[0] == NotBullet(f);
    }
  }

  ghost predicate BeginsAt(block: seq<string>, k: nat, x: nat) {
    exists j: nat :: j < k && LabelAt(block, j, x)
  }

  lemma OneLabel(block: seq<string>, k: nat)
    requires k < 6
    ensures Present(block, Nth(k)) ==>
              !Unlabelled(block, k) && forall x: nat :: LabelAt(block, k, x) <==> x == LabelLines(block, Nth(k))[0]
    ensures !Present(block, Nth(k)) ==> Unlabelled(block, k) && forall x: nat :: !LabelAt(block, k, x)
  {
    hide LabelLines, Nth;
    var lines := LabelLines(block, Nth(k));
    if |lines| == 1 {
      assert lines == [lines[0]];
    }
    forall x: nat ensures LabelAt(block, k, x) ==> |lines| == 1 && lines[0] == x {
    }
  }

  lemma NextStart(block: seq<string>, m: nat)
    requires m < 6
    ensures Starts(block, m + 1)
         == if Present(block, Nth(m)) then Starts(block, m) + [LabelLines(block, Nth(m))[0]] else Starts(block, m)
  {
    hide LabelLines, Nth;
  }

  lemma {:induction false} StartsMembers(block: seq<string>, k: nat, x: nat)
    requires k <= 6
    ensures x in Starts(block, k) <==> BeginsAt(block, k, x)
  {
    hide LabelLines, Nth;
    if k > 0 {
      var m := k - 1;
      StartsMembers(block, m, x);
      OneLabel(block, m);
      NextStart(block, m);
      assert BeginsAt(block, k, x) <==> BeginsAt(block, m, x) || LabelAt(block, m, x);
    }
  }

  lemma {:induction false} FirstStart(block: seq<string>, k: nat)
    requires k <= 6
    ensures Starts(block, k) == [] <==> forall j: nat | j < k :: Unlabelled(block, j)
    ensures Starts(block, k) != [] ==> exists j: nat :: j < k && FirstBegins(block, j, Starts(block, k)[0])
  {
    hide LabelLines, Nth;
    if k > 0 {
      var m := k - 1;
      FirstStart(block, m);
      OneLabel(block, m);
      NextStart(block, m);
      if Starts(block, m) != [] {
        var j: nat :| j < m && FirstBegins(block, j, Starts(block, m)[0]);
        assert Starts(block, k)[0] == Starts(block, m)[0];
      } else if Present(block, Nth(m)) {
        assert FirstBegins(block, m, Starts(block, k)[0]);
      }
    }
  }

  lemma AscendingAppend(starts: seq<nat>, x: nat)
    ensures Ascending(starts + [x]) <==> Ascending(starts) && forall y | y in starts :: y <= x
  {
    var more := starts + [x];
    assert forall i | 0 <= i < |starts| :: more[i] == starts[i];
    if Ascending(more) {
      AscendingPairs(more);
      forall y | y in starts ensures y <= x {
        var i :| 0 <= i < |starts| && starts[i] == y;
        assert more[i] <= more[|starts|];
      }
    }
    if Ascending(starts) && forall y | y in starts :: y <= x {
      forall i | 0 <= i < |more| ensures i > 0 ==> more[i] >= more[i - 1] {
        if 0 < i == |starts| {
          assert starts[i - 1] in starts;
        }
      }
    }
  }

  lemma AscendingPairs(starts: seq<nat>)
    requires Ascending(starts)
    ensures forall i, j | 0 <= i < j < |starts| :: starts[i] <= starts[j]
  {
    forall i, j | 0 <= i < j < |starts| ensures starts[i] <= starts[j] {
      AscendingFrom(starts, i, j);
    }
  }

  lemma {:induction false} AscendingFrom(starts: seq<nat>, i: nat, j: nat)
    requires Ascending(starts) && i <= j < |starts|
    ensures starts[i] <= starts[j]
    decreases j
  {
    if i < j {
      AscendingFrom(starts, i, j - 1);
    }
  }

  lemma {:induction false} OrderIff(block: seq<string>, k: nat)
    requires k <= 6
    ensures Ascending(Starts(block, k)) <==> !OutOfOrder(block, k)
  {
    hide LabelLines, Nth, Ascending, OutOfOrder, BeginsAt;
    if k == 0 {
      NoneAscend();
      NoneOutOfOrder(block);
    } else {
      var m := k - 1;
      OrderIff(block, m);
      OneLabel(block, m);
      NextStart(block, m);
      if Present(block, Nth(m)) {
        var x := LabelLines(block, Nth(m))[0];
        AscendingAppend(Starts(block, m), x);
        forall y: nat ensures y in Starts(block, m) <==> BeginsAt(block, m, y) {
          StartsMembers(block, m, y);
        }
        OneMoreInOrder(block, m, x);
      } else {
        NoMoreInOrder(block, m);
      }
    }
  }

  lemma OneMoreInOrder(block: seq<string>, m: nat, x: nat)
    requires LabelAt(block, m, x)
    ensures OutOfOrder(block, m + 1) <==> OutOfOrder(block, m) || exists y: nat :: BeginsAt(block, m, y) && x < y
  {
    hide LabelLines, Nth;
    if y: nat :| BeginsAt(block, m, y) && x < y {
      var j: nat :| j < m && LabelAt(block, j, y);
      assert LabelAt(block, j, y) && LabelAt(block, m, x);
    }
    if j: nat, k: nat, y: nat, z: nat :| j < k < m + 1 && LabelAt(block, j, y) && LabelAt(block, k, z) && z < y {
      if k == m {
        OneLabel(block, m);
        assert BeginsAt(block, m, y);
      }
    }
  }

  lemma NoMoreInOrder(block: seq<string>, m: nat)
    requires forall x: nat :: !LabelAt(block, m, x)
    ensures OutOfOrder(block, m + 1) <==> OutOfOrder(block, m)
  {
    hide LabelAt;
  }

  lemma NoneOutOfOrder(block: seq<string>)
    ensures !OutOfOrder(block, 0)
  {}

  lemma NoneAscend()
    ensures Ascending([])
  {}

  lemma LateIff(block: seq<string>)
    ensures var statuses, starts := Where(block, IsStatus), Starts(block, 6);
            StatusIsLate(block) <==> |statuses| == 1 && starts != [] && statuses[0] > starts[0]
  {
    hide Where, Starts, LabelLines, Nth, LabelAt, Unlabelled, FirstBegins;
    FirstStart(block, 6);
    var starts := Starts(block, 6);
    if starts == [] {
      NoneBegins(block);
    } else {
      var j: nat :| j < 6 && FirstBegins(block, j, starts[0]);
      forall k: nat, x: nat | FirstBegins(block, k, x) ensures x == starts[0] {
        FirstIsOne(block, j, k, starts[0], x);
      }
    }
  }

  lemma NoneBegins(block: seq<string>)
    requires forall j: nat | j < 6 :: Unlabelled(block, j)
    ensures forall k: nat, x: nat :: !FirstBegins(block, k, x)
  {
    hide LabelLines, Nth;
    forall k: nat, x: nat ensures !FirstBegins(block, k, x) {
      if k < 6 {
        assert Unlabelled(block, k);
        OneLabel(block, k);
      }
    }
  }

  lemma FirstIsOne(block: seq<string>, j: nat, k: nat, x: nat, y: nat)
    requires FirstBegins(block, j, x) && FirstBegins(block, k, y)
    ensures x == y
  {
    hide LabelLines, Nth;
    OneLabel(block, j);
    OneLabel(block, k);
    assert j == k;
  }

  lemma InWhen(occurs: bool, error: Error, e: Error)
    ensures e in When(occurs, error) <==> occurs && e == error
  {}

  lemma LayoutErrorIff(block: seq<string>, e: Error)
    requires !e.FieldCount?
    ensures e in LayoutErrors(block) <==> (e.StatusCount? || e.StatusUnknown? || e.StatusLate? || e.FieldsOutOfOrder?)
                                          && Wrong(block, e)
  {
    hide Where, Starts, StatusText, StatusOf, CountErrors, Ascending, OutOfOrder, StatusIsLate, LabelLines, When;
    var statuses, starts, text := Where(block, IsStatus), Starts(block, 6), StatusText(block);
    CountErrorsAre(block, 6, e);
    OrderIff(block, 6);
    LateIff(block);
    InWhen(|statuses| != 1, StatusCount, e);
    InWhen(text.Some? && text.value != "" && StatusOf(block).None?, StatusUnknown, e);
    InWhen(|statuses| == 1 && starts != [] && statuses[0] > starts[0], StatusLate, e);
    InWhen(!Ascending(starts), FieldsOutOfOrder, e);
  }

  lemma CountErrorIff(block: seq<string>, f: Field)
    ensures FieldCount(f) in LayoutErrors(block) <==> Wrong(block, FieldCount(f))
  {
    hide Where, Starts, StatusText, StatusOf, CountErrors, Ascending, LabelLines, Nth, Rank;
    CountErrorsAre(block, 6, FieldCount(f));
    assert Nth(Rank(f)) == f && Rank(f) < 6 by {
      RankOf(f);
    }
  }

  lemma RankOf(f: Field)
    ensures Rank(f) < 6 && Nth(Rank(f)) == f
  {}

  lemma MeaningErrorIff(block: seq<string>, e: Error)
    ensures e in MeaningErrors(block)
       <==> && (|| e.PathIsNone? || e.EditsBlockApproval? || e.EditsMissing? || e.EvidenceMissing? || e.ActionUnknown?
                || e.ActionCount? || e.ActionInconsistent?)
            && Wrong(block, e)
  {
    hide StatusOf, ActionOf, Value, ActionFits, When, IsNone, OutOfOrder, StatusIsLate, ReadingOf, LabelLines,
         StatusText, IsPlaceholder, Where, Present;
    var status, action, actions := StatusOf(block), ActionOf(block), Value(block, NextAction);
    var path, edits, evidence := Value(block, ChosenPath), Value(block, RequiredEdits), Value(block, Evidence);
    SevenErrors(path != [] && IsNone(path), status == Some(Approved) && !IsNone(edits),
                status == Some(ApprovedWithEdits) && IsNone(edits),
                (status == Some(Approved) || status == Some(ApprovedWithEdits)) && evidence != [] && IsNone(evidence),
                |actions| == 1 && action.None?, |actions| > 1,
                status.Some? && action.Some? && !ActionFits(status.value, action.value), e);
    NoneIsThere(path);
    NoneIsThere(evidence);
  }

  lemma NoneIsThere(items: seq<string>)
    ensures IsNone(items) ==> items != []
  {}

  lemma SevenErrors(path: bool, blocked: bool, missing: bool, evidence: bool, unknown: bool, many: bool, unfit: bool,
                    e: Error)
    ensures e in When(path, PathIsNone) + When(blocked, EditsBlockApproval) + When(missing, EditsMissing)
                 + When(evidence, EvidenceMissing) + When(unknown, ActionUnknown) + When(many, ActionCount)
                 + When(unfit, ActionInconsistent)
       <==> match e
            case PathIsNone => path
            case EditsBlockApproval => blocked
            case EditsMissing => missing
            case EvidenceMissing => evidence
            case ActionUnknown => unknown
            case ActionCount => many
            case ActionInconsistent => unfit
            case _ => false
  {
    hide When;
    InSeven(When(path, PathIsNone), When(blocked, EditsBlockApproval), When(missing, EditsMissing),
            When(evidence, EvidenceMissing), When(unknown, ActionUnknown), When(many, ActionCount),
            When(unfit, ActionInconsistent), e);
    InWhen(path, PathIsNone, e);
    InWhen(blocked, EditsBlockApproval, e);
    InWhen(missing, EditsMissing, e);
    InWhen(evidence, EvidenceMissing, e);
    InWhen(unknown, ActionUnknown, e);
    InWhen(many, ActionCount, e);
    InWhen(unfit, ActionInconsistent, e);
  }

  lemma InSeven(a: seq<Error>, b: seq<Error>, c: seq<Error>, d: seq<Error>, f: seq<Error>, g: seq<Error>,
                h: seq<Error>, e: Error)
    ensures e in a + b + c + d + f + g + h
       <==> e in a || e in b || e in c || e in d || e in f || e in g || e in h
  {}

  lemma FieldErrorIff(block: seq<string>, e: Error)
    ensures e in FieldErrors(block, 6) <==> (e.NotBullet? || e.Placeholder? || e.NoItems?) && Wrong(block, e)
  {
    hide FieldErrors, LabelLines, FieldLines, ItemErrors, ReadLines, IsPlaceholder, Nth, Rank;
    FieldErrorsAre(block, 6, e);
    forall f: Field | Present(block, f)
      ensures e in ItemErrors(f, FieldLines(block, f))
         <==> (e == NotBullet(f) || (e.Placeholder? && e.field == f) || e == NoItems(f)) && Wrong(block, e)
    {
      ItemErrorsAre(f, FieldLines(block, f), e);
    }
    if e.NotBullet? || e.Placeholder? || e.NoItems? {
      RankOf(e.field);
    }
  }

  /** An error is reported exactly when what it says is so. */
  lemma ErrorIff(block: seq<string>, e: Error)
    ensures e in ValidateBlock(block).errors <==> Wrong(block, e)
  {
    hide LayoutErrors, FieldErrors, MeaningErrors, Wrong, StatusOf, ActionOf, Value;
    if e.FieldCount? {
      CountErrorIff(block, e.field);
    } else {
      LayoutErrorIff(block, e);
    }
    FieldErrorIff(block, e);
    MeaningErrorIff(block, e);
    NeverOfSection(block);
  }

  lemma NeverOfSection(block: seq<string>)
    ensures !Wrong(block, MissingSection) && !Wrong(block, RepeatedSection)
  {}

  // ---------- Names, in any case ----------

  ghost function LowLabel(f: Field): string {
    match f
    case ChosenPath => "chosen path:"
    case RequiredEdits => "required edits before implementation:"
    case FollowUps => "non-blocking follow-ups:"
    case DoNotDo => "do not do:"
    case Evidence => "evidence required before merge:"
    case NextAction => "next action:"
  }

  ghost function LowStatus(s: Status): string {
    match s
    case Approved => "approved"
    case ApprovedWithEdits => "approved with edits"
    case Rejected => "rejected"
    case Parked => "parked"
    case NeedsMoreResearch => "needs more research"
  }

  ghost function LowAction(a: Action): string {
    match a
    case Implement => "implement"
    case ReviseRfc => "revise rfc"
    case RunSpike => "run spike"
    case Archive => "archive"
  }

  lemma LabelIff(line: string, f: Field)
    ensures IsLabel(line, f) <==> Lower(Trim(line)) == LowLabel(f)
  {
    hide Trim, Lower, Label;
    match f
    case ChosenPath => LowPath();
    case RequiredEdits => LowEdits();
    case FollowUps => LowFollowUps();
    case DoNotDo => LowDoNotDo();
    case Evidence => LowEvidence();
    case NextAction => LowNext();
  }

  lemma LowPath()
    ensures Lower(Label(ChosenPath)) == LowLabel(ChosenPath)
  {}

  lemma LowEdits()
    ensures Lower(Label(RequiredEdits)) == LowLabel(RequiredEdits)
  {
    hide Lower;
    LowHalves();
    LowerConcat("Required edits before", " implementation:");
    assert Label(RequiredEdits) == "Required edits before" + " implementation:";
  }

  lemma LowHalves()
    ensures Lower("Required edits before") == "required edits before" && Lower(" implementation:") == " implementation:"
  {}

  lemma LowerConcat(a: string, b: string)
    ensures Lower(a + b) == Lower(a) + Lower(b)
  {}

  lemma LowFollowUps()
    ensures Lower(Label(FollowUps)) == LowLabel(FollowUps)
  {}

  lemma LowDoNotDo()
    ensures Lower(Label(DoNotDo)) == LowLabel(DoNotDo)
  {}

  lemma LowEvidence()
    ensures Lower(Label(Evidence)) == LowLabel(Evidence)
  {}

  lemma LowNext()
    ensures Lower(Label(NextAction)) == LowLabel(NextAction)
  {}

  lemma LowStatuses(s: Status)
    ensures Lower(StatusName(s)) == LowStatus(s)
  {
    hide Lower, StatusName, LowStatus;
    match s
    case Approved => LowApproved();
    case ApprovedWithEdits => LowApprovedWithEdits();
    case Rejected => LowRejected();
    case Parked => LowParked();
    case NeedsMoreResearch => LowNeedsMore();
  }

  lemma LowApproved()
    ensures Lower(StatusName(Approved)) == LowStatus(Approved)
  {}

  lemma LowApprovedWithEdits()
    ensures Lower(StatusName(ApprovedWithEdits)) == LowStatus(ApprovedWithEdits)
  {}

  lemma LowRejected()
    ensures Lower(StatusName(Rejected)) == LowStatus(Rejected)
  {}

  lemma LowParked()
    ensures Lower(StatusName(Parked)) == LowStatus(Parked)
  {}

  lemma LowNeedsMore()
    ensures Lower(StatusName(NeedsMoreResearch)) == LowStatus(NeedsMoreResearch)
  {}

  lemma LowActions(a: Action)
    ensures Lower(ActionName(a)) == LowAction(a)
  {}

  lemma StatusIff(value: string, s: Status)
    ensures FindStatus(value) == Some(s) <==> Lower(value) == LowStatus(s)
  {
    hide Lower, StatusName;
    LowStatuses(Approved);
    LowStatuses(ApprovedWithEdits);
    LowStatuses(Rejected);
    LowStatuses(Parked);
    LowStatuses(NeedsMoreResearch);
  }

  lemma NormalIsLow(value: string)
    ensures Lower(Normalized(value)) == Normalized(value)
  {
    hide Trim;
    var t := Lower(Trim(value));
    assert forall i | 0 <= i < |t| :: LowerChar(t[i]) == t[i];
  }

  lemma ActionIff(value: string, a: Action)
    ensures FindAction(value) == Some(a) <==> Normalized(value) == LowAction(a)
  {
    hide Lower, ActionName, Normalized;
    LowActions(Implement);
    LowActions(ReviseRfc);
    LowActions(RunSpike);
    LowActions(Archive);
    NormalIsLow(value);
  }

  /** The next action that fits each status. */
  lemma ActionFitsTable(s: Status, a: Action)
    ensures ActionFits(s, a)
       <==> (s, a) in {(Approved, Implement), (Approved, Archive), (ApprovedWithEdits, ReviseRfc),
                       (ApprovedWithEdits, Implement), (Rejected, Archive), (Parked, Archive),
                       (NeedsMoreResearch, RunSpike), (NeedsMoreResearch, ReviseRfc)}
  {}

  // ---------- Printing what validation returned ----------

  lemma {:induction false} TrimEndMembers(s: string)
    ensures forall c | c in TrimEnd(s) :: c in s
  {
    if s != "" && IsSpace(s[|s| - 1]) {
      TrimEndMembers(s[..|s| - 1]);
    }
  }

  lemma {:induction false} TrimStartMembers(s: string)
    ensures forall c | c in TrimStart(s) :: c in s
  {
    if s != "" && IsSpace(s[0]) {
      TrimStartMembers(s[1..]);
    }
  }

  lemma TrimIsLined(s: string)
    requires OneLine(s)
    ensures OneLine(Trim(s))
  {
    TrimStartMembers(s);
    TrimEndMembers(TrimStart(s));
  }

  lemma {:induction false} SplitIsLined(text: string)
    ensures forall i | 0 <= i < |SplitLines(text)| :: OneLine(SplitLines(text)[i])
  {
    if text != "" {
      if text[0] == '\r' && |text| > 1 && text[1] == '\n' {
        SplitIsLined(text[2..]);
      } else {
        SplitIsLined(text[1..]);
      }
    }
  }

  lemma BulletIsLined(line: string)
    requires BulletText(line).Some?
    ensures OneLine(BulletText(line).value)
  {
    hide Trim, TrimStart;
  }

  lemma {:induction false} ItemsOneLine(lines: seq<string>)
    requires forall i | 0 <= i < |lines| :: OneLine(lines[i])
    ensures forall x | x in ReadLines(lines).items :: OneLine(x)
  {
    hide BulletText, Continues, Trim;
    if lines != [] {
      var n := |lines| - 1;
      var r, line := ReadLines(lines[..n]), lines[n];
      ItemsOneLine(lines[..n]);
      TrimIsLined(line);
      if BulletText(line).Some? {
        BulletIsLined(line);
      } else if r.items != [] {
        assert OneLine(r.items[|r.items| - 1] + " " + Trim(line)) by {
          assert r.items[|r.items| - 1] in r.items;
        }
      }
    }
  }

  lemma FieldOneLine(block: seq<string>, f: Field)
    requires forall i | 0 <= i < |block| :: OneLine(block[i])
    ensures forall x | x in Value(block, f) :: OneLine(x)
  {
    hide ReadLines, IsPlaceholder, OneLine, IsLaterLabel;
    if Present(block, f) {
      ItemsOneLine(FieldLines(block, f));
    }
  }

  lemma ShownIsLined(markdown: string)
    ensures var section := SectionOf(Unfenced(Closed, SplitLines(markdown)));
            section.Block? ==> forall i | 0 <= i < |section.lines| :: OneLine(section.lines[i])
  {
    hide Unfenced, SplitLines, Where, IsHeading, IsDecision;
    SplitIsLined(markdown);
    UnfencedTwice(Closed, SplitLines(markdown));
    var shown := Unfenced(Closed, SplitLines(markdown));
    assert forall i | 0 <= i < |shown| :: OneLine(shown[i]);
  }

  /** The items of a returned stamp are of one line each. */
  lemma ReturnedIsLined(markdown: string)
    ensures Validate(markdown).stamp.Some? ==> Lined(Validate(markdown).stamp.value)
  {
    hide Unfenced, SplitLines, SectionOf, Value, OneLine, LayoutErrors, FieldErrors, MeaningErrors, StatusOf, ActionOf;
    ShownIsLined(markdown);
    var section := SectionOf(Unfenced(Closed, SplitLines(markdown)));
    if section.Block? {
      FieldOneLine(section.lines, ChosenPath);
      FieldOneLine(section.lines, RequiredEdits);
      FieldOneLine(section.lines, FollowUps);
      FieldOneLine(section.lines, DoNotDo);
      FieldOneLine(section.lines, Evidence);
    }
  }

  /** A consistent stamp, its items of one line each, prints and reads back exactly when each item
      fits on a bullet line. */
  lemma PrintsBackIff(s: Stamp)
    requires Consistent(s) && Lined(s)
    ensures Validate(JoinLines(Print(s))) == Validation([], Some(s))
       <==> forall k: nat | k < 5 :: forall x | x in ListOf(s, k) :: Fits(x)
  {
    hide Lined, Validate, JoinLines, StampBlock, Fits, IsPlaceholder, IsNone, ActionFits;
    if forall k: nat | k < 5 :: forall x | x in ListOf(s, k) :: Fits(x) {
      PrintReadsBack(s);
    }
    if Validate(JoinLines(Print(s))) == Validation([], Some(s)) {
      forall k: nat | k < 5 ensures forall x | x in ListOf(s, k) :: Fits(x) {
        PrintedItemsFit(s, k);
      }
    }
  }

  lemma PrintedItemsFit(s: Stamp, k: nat)
    requires Lined(s) && Validate(JoinLines(Print(s))) == Validation([], Some(s)) && k < 5 && ListOf(s, k) != []
    ensures forall x | x in ListOf(s, k) :: Fits(x)
  {
    hide Lined, Validate, JoinLines, BlockOf, OnlyStatus, StatusName, StatusValue, LayoutErrors, FieldErrors, OneLine,
         MeaningErrors, StatusOf, ActionOf, Items, ItemErrors, FieldLines, LabelLines, BodyText, Present, CountErrors;
    var line := "Status: " + StatusName(s.status);
    var block := BlockOf(line, s);
    StatusOnly(s.status);
    TextReads(line, s);
    NoneOccurs(block);
    FieldsRead(line, s, 6);
    FieldReads(line, s, k);
    ItemsAreLined(s, k);
    BodyReadsIff(Nth(k), ListOf(s, k));
  }

  /** A stamp that validation returned prints back to itself exactly when each of its items fits on
      a bullet line: it does not if an item is blank, starts with the space a blank bullet leaves
      before its continuation, or holds a line separator. */
  lemma ReturnedStampPrintsIff(markdown: string)
    requires Validate(markdown).stamp.Some?
    ensures var stamp := Validate(markdown).stamp;
            Validate(JoinLines(Print(stamp.value))) == Validation([], stamp)
            <==> forall k: nat | k < 5 :: forall x | x in ListOf(stamp.value, k) :: Fits(x)
  {
    hide Validate, JoinLines, Consistent, Print, Lined, Fits;
    StampConsistent(markdown);
    ReturnedIsLined(markdown);
    PrintsBackIff(Validate(markdown).stamp.value);
  }

  // ---------- Blank items ----------

  predicate IsBullet(line: string) {
    BulletText(line).Some?
  }

  ghost predicate BulletBetween(lines: seq<string>, i: nat, j: nat)
    requires j < |lines|
  {
    exists m: nat :: i < m <= j && IsBullet(lines[m])
  }

  /** Line i is a blank bullet that no line continues before the next bullet. */
  ghost predicate BlankItemAt(lines: seq<string>, i: nat)
    requires i < |lines|
  {
    && BulletText(lines[i]) == Some("")
    && forall j: nat | i < j < |lines| && Continues(lines[j]) :: BulletBetween(lines, i, j)
  }

  /** There is such a bullet, and others after it. */
  ghost predicate BlankBefore(lines: seq<string>) {
    exists i: nat :: i < |lines| && BlankItemAt(lines, i) && BulletBetween(lines, i, |lines| - 1)
  }

  /** There is one, and it is the last bullet. */
  ghost predicate BlankLast(lines: seq<string>) {
    exists i: nat :: i < |lines| && BlankItemAt(lines, i) && !BulletBetween(lines, i, |lines| - 1)
  }

  lemma BetweenNext(front: seq<string>, line: string, i: nat, j: nat)
    requires i < |front| && j <= |front|
    ensures BulletBetween(front + [line], i, j)
       <==> if j < |front| then BulletBetween(front, i, j) else BulletBetween(front, i, |front| - 1) || IsBullet(line)
  {
    hide IsBullet;
    var lines := front + [line];
    if m: nat :| i < m <= j && IsBullet(lines[m]) {
      assert m < |front| ==> front[m] == lines[m];
    }
    if j < |front| {
      if m: nat :| i < m <= j && IsBullet(front[m]) {
        assert lines[m] == front[m];
      }
    } else {
      if m: nat :| i < m <= |front| - 1 && IsBullet(front[m]) {
        assert lines[m] == front[m];
      }
      if IsBullet(line) {
        assert lines[|front|] == line;
      }
    }
  }

  lemma BlankNext(front: seq<string>, line: string, i: nat)
    requires i < |front|
    ensures BlankItemAt(front + [line], i)
       <==> BlankItemAt(front, i)
            && (Continues(line) ==> BulletBetween(front, i, |front| - 1) || IsBullet(line))
  {
    hide BulletText, Continues, BulletBetween, IsBullet;
    var lines := front + [line];
    forall j: nat | i < j <= |front|
      ensures BulletBetween(lines, i, j)
         <==> if j < |front| then BulletBetween(front, i, j)
              else BulletBetween(front, i, |front| - 1) || IsBullet(line)
    {
      BetweenNext(front, line, i, j);
    }
    assert lines[i] == front[i] && lines[|front|] == line;
    if BlankItemAt(lines, i) {
      forall j: nat | i < j < |front| && Continues(front[j]) ensures BulletBetween(front, i, j) {
        assert lines[j] == front[j];
      }
    }
    if BlankItemAt(front, i) && (Continues(line) ==> BulletBetween(front, i, |front| - 1) || IsBullet(line)) {
      forall j: nat | i < j < |lines| && Continues(lines[j]) ensures BulletBetween(lines, i, j) {
        assert j < |front| ==> lines[j] == front[j];
      }
    }
  }

  lemma BlanksNext(front: seq<string>, line: string)
    ensures BlankBefore(front + [line]) <==> BlankBefore(front) || (IsBullet(line) && BlankLast(front))
    ensures BlankLast(front + [line])
       <==> if IsBullet(line) then BulletText(line) == Some("") else BlankLast(front) && !Continues(line)
  {
    hide BulletText, Continues, BulletBetween, BlankItemAt, IsBullet;
    var lines, n := front + [line], |front|;
    forall i: nat | i < n
      ensures BlankItemAt(lines, i)
         <==> BlankItemAt(front, i) && (Continues(line) ==> BulletBetween(front, i, n - 1) || IsBullet(line))
      ensures BulletBetween(lines, i, n) <==> BulletBetween(front, i, n - 1) || IsBullet(line)
    {
      BlankNext(front, line, i);
      BetweenNext(front, line, i, n);
    }
    LastBullet(front, line);
    if i: nat :| i < n && BlankItemAt(front, i) && BulletBetween(front, i, n - 1) {
      assert BlankItemAt(lines, i) && BulletBetween(lines, i, n);
    }
    if i: nat :| i < n && BlankItemAt(front, i) && !BulletBetween(front, i, n - 1) {
      assert IsBullet(line) ==> BlankItemAt(lines, i) && BulletBetween(lines, i, n);
      assert !IsBullet(line) && !Continues(line) ==> BlankItemAt(lines, i) && !BulletBetween(lines, i, n);
    }
  }

  lemma LastBullet(front: seq<string>, line: string)
    ensures var lines := front + [line];
            && (BlankItemAt(lines, |front|) <==> BulletText(line) == Some(""))
            && !BulletBetween(lines, |front|, |front|)
    ensures BulletText(line) == Some("") ==> IsBullet(line)
  {
    hide BulletText, Continues;
  }

  /** Which items are blank: of all but the last, and the last. */
  lemma {:induction false} BlankItems(lines: seq<string>)
    ensures var items := ReadLines(lines).items;
            && (BlankBefore(lines) <==> items != [] && "" in items[..|items| - 1])
            && (BlankLast(lines) <==> items != [] && items[|items| - 1] == "")
  {
    hide BulletText, Continues, Trim, BlankBefore, BlankLast, IsBullet;
    if lines == [] {
      NoneBlank();
    } else {
      var front, line := lines[..|lines| - 1], lines[|lines| - 1];
      assert lines == front + [line];
      BlankItems(front);
      BlanksNext(front, line);
      var before, after := ReadLines(front).items, ReadLines(lines).items;
      BulletOrNot(line);
      FrontOrLast(before, "");
      if IsBullet(line) {
        assert after == before + [BulletText(line).value] && after[..|after| - 1] == before;
      } else if Continues(line) && before != [] {
        assert after[..|after| - 1] == before[..|before| - 1];
      } else {
        assert after == before;
      }
    }
  }

  lemma FrontOrLast<T>(s: seq<T>, x: T)
    ensures x in s <==> s != [] && (x in s[..|s| - 1] || s[|s| - 1] == x)
  {}

  lemma NoneBlank()
    ensures !BlankBefore([]) && !BlankLast([])
  {}

  lemma BulletOrNot(line: string)
    ensures IsBullet(line) <==> BulletText(line).Some?
    ensures Trim(line) == "" ==> !IsBullet(line) && !Continues(line)
  {
    var t := TrimStart(line);
    if t != "" && t[0] == '-' {
      TrimEndKeeps(t);
    }
  }

  /** An item is blank exactly when a bullet is and nothing continues it before the next. */
  lemma BlankItemIff(lines: seq<string>)
    ensures "" in ReadLines(lines).items <==> exists i: nat :: i < |lines| && BlankItemAt(lines, i)
  {
    hide BulletText, Continues, Trim, BlankItemAt, BulletBetween, ReadLines;
    BlankItems(lines);
    var items := ReadLines(lines).items;
    FrontOrLast(items, "");
    if i: nat :| i < |lines| && BlankItemAt(lines, i) {
      assert BulletBetween(lines, i, |lines| - 1) ==> BlankBefore(lines);
      assert !BulletBetween(lines, i, |lines| - 1) ==> BlankLast(lines);
    }
  }

  lemma {:induction false} ResolvedMembers(items: seq<string>, x: string)
    ensures x in Resolved(items) <==> x in items && !IsPlaceholder(x)
  {
    hide IsPlaceholder;
    if items != [] {
      var front, last := items[..|items| - 1], items[|items| - 1];
      assert items == front + [last];
      ResolvedMembers(front, x);
    }
  }

  lemma BlankIsAccepted()
    ensures !IsPlaceholder("") && !IsNone([""])
  {
    assert Normalized("") == "";
  }

  /** A returned stamp has a blank item exactly where its section has such a bullet: a field is
      there that says nothing. */
  lemma ReturnedBlankIff(block: seq<string>, k: nat)
    requires ValidateBlock(block).stamp.Some? && k < 5
    ensures Present(block, Nth(k))
    ensures var lines := FieldLines(block, Nth(k));
            "" in ListOf(ValidateBlock(block).stamp.value, k)
            <==> exists i: nat :: i < |lines| && BlankItemAt(lines, i)
  {
    hide LayoutErrors, FieldErrors, MeaningErrors, StatusOf, ActionOf, ReadLines, BlankItemAt, FieldLines, Resolved,
         LabelLines, IsPlaceholder, IsNone;
    NoneOccurs(block);
    FieldsPresent(block, k, 6);
    BlankItemIff(FieldLines(block, Nth(k)));
    ResolvedMembers(ReadLines(FieldLines(block, Nth(k))).items, "");
    BlankIsAccepted();
  }

  lemma {:induction false} TrimsToNothing(s: string)
    ensures Trim(s) == "" <==> AllSpace(s)
  {
    if s != "" {
      if IsSpace(s[0]) {
        TrimsToNothing(s[1..]);
        assert s == [s[0]] + s[1..];
      } else {
        TrimEndKeeps(s);
        assert s[0] in s;
      }
    }
  }

  /** A bullet is blank when after its dash and one space only white space is left, some of it in
      the line. */
  lemma BlankBulletIff(line: string)
    ensures var t := TrimStart(line);
            BulletText(line) == Some("")
            <==> |t| >= 2 && t[0] == '-' && IsSpace(t[1]) && AllSpace(t[2..]) && exists c | c in t[2..] :: !EndsLine(c)
  {
    hide IsSpace, EndsLine, Trim, AllSpace, TrimStart;
    var t := TrimStart(line);
    if |t| >= 2 {
      TrimsToNothing(t[2..]);
      TrimsToNothing(t[1..]);
      assert t[1..][1..] == t[2..];
      if AllSpace(t[1..]) {
        AfterSpace(t[1..]);
      }
    }
  }

  lemma AfterSpace(s: string)
    requires s != "" && AllSpace(s)
    ensures AllSpace(s[1..])
  {}

  /** It happens: an approved RFC whose one item of required evidence is a dash and two spaces. */
  lemma BlankEvidenceAccepted()
    ensures var p := Stamp(Approved, ["Archive"], ["None"], ["Archive"], ["Archive"], [" "], Archive);
            Validate(JoinLines(Print(p))) == Validation([], Some(p.(evidence := [""])))
  {
    hide Validate, JoinLines, Print, ReadsAs, Lined, Consistent;
    var p := Stamp(Approved, ["Archive"], ["None"], ["Archive"], ["Archive"], [" "], Archive);
    BlankEvidenceReads(p);
    PrintReadsAs(p, p.(evidence := [""]));
  }

  lemma BlankEvidenceReads(p: Stamp)
    requires p == Stamp(Approved, ["Archive"], ["None"], ["Archive"], ["Archive"], [" "], Archive)
    ensures Lined(p) && ReadsAs(p, p.(evidence := [""])) && Consistent(p.(evidence := [""]))
  {
    hide Items, ItemErrors, BodyText, Clean, IsPlaceholder, Normalized, OneLine;
    ActionIsClean(Archive);
    assert ActionName(Archive) == "Archive" by { ArchiveIsNamed(); }
    CleanIsResolved("Archive");
    ArchiveIsSome();
    NoneIsClean();
    BlankIsAccepted();
    WordsLined();
    forall k: nat | k < 4
      ensures Items(BodyText(ListOf(p, k))) == ListOf(p, k) && ItemErrors(Nth(k), BodyText(ListOf(p, k))) == []
    {
      BodyReadsIff(Nth(k), ListOf(p, k));
    }
    BlankReadsBlank();
  }

  lemma WordsLined()
    ensures OneLine("Archive") && OneLine("None") && OneLine(" ")
  {}

  lemma NoneIsClean()
    ensures Clean("None") && Normalized("None") == "none"
  {
    NameIsNormal("None");
    assert Lower("None") == "none";
  }

  lemma BlankReadsBlank()
    ensures Items(BodyText([" "])) == [""] && ItemErrors(Evidence, BodyText([" "])) == []
  {
    hide BulletText, IsPlaceholder, Continues, Trim;
    var lines := BodyText([" "]);
    assert [" "][..0] == [] && Bullets([" "]) == ["- " + " "];
    assert lines == ["", "- " + " ", ""];
    BlankReads(Reading([], 0));
    BlankReads(Reading([""], 0));
    BulletReads(" ");
    DashReads(" ");
    RestOfBlank();
    assert Trim(" ") == "" by { TrimsToNothing(" "); }
    assert lines[..2] == ["", "- " + " "] && lines[..2][..1] == [""] && [""][..0] == [];
    assert ReadLines([""]) == Reading([], 0);
    assert ReadLines(lines[..2]) == Reading([""], 0);
    assert ReadLines(lines) == Reading([""], 0);
    BlankIsAccepted();
    NothingResolved(Evidence, [""]);
  }
}
