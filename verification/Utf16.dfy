/** The snapshot's string repair: lone UTF-16 surrogates become U+FFFD. */
module Utf16 {

  type Unit = x: int | 0 <= x < 0x1_0000

  const REPLACEMENT: Unit := 0xFFFD

  predicate High(u: Unit) { 0xD800 <= u <= 0xDBFF }

  predicate Low(u: Unit) { 0xDC00 <= u <= 0xDFFF }

  /** Section 3.9 of the Unicode Standard, D91: the two units of a code point beyond the first plane. */
  ghost predicate Encodes(h: Unit, l: Unit, c: int) {
    0x1_0000 <= c <= 0x10_FFFF && h == 0xD800 + (c - 0x1_0000) / 0x400 && l == 0xDC00 + (c - 0x1_0000) % 0x400
  }

  /** A high surrogate with a low one stands for a code point beyond the first plane, and no other two
      units do. */
  lemma PairIff(h: Unit, l: Unit)
    ensures High(h) && Low(l) <==> exists c :: Encodes(h, l, c)
  {
    if High(h) && Low(l) {
      var c := 0x1_0000 + (h - 0xD800) * 0x400 + (l - 0xDC00);
      assert Encodes(h, l, c);
    }
  }

  /** The expression's two alternatives: a high surrogate no low one follows, or a low surrogate
      no high one precedes. */
  predicate Lone(s: seq<Unit>, i: nat)
    requires i < |s|
  {
    || (High(s[i]) && !(i + 1 < |s| && Low(s[i + 1])))
    || (Low(s[i]) && !(i > 0 && High(s[i - 1])))
  }

  /** Every match is one unit, found in the original string. */
  function Repair(s: seq<Unit>): (t: seq<Unit>)
    ensures |t| == |s|
  {
    seq(|s|, i requires 0 <= i < |s| => if Lone(s, i) then REPLACEMENT else s[i])
  }

  /** Section 3.9 of the Unicode Standard, D91: a scalar value is one unit outside the surrogate
      range, or a high surrogate with a low one. */
  predicate WellFormed(s: seq<Unit>) {
    s == []
    || (!High(s[0]) && !Low(s[0]) && WellFormed(s[1..]))
    || (|s| >= 2 && High(s[0]) && Low(s[1]) && WellFormed(s[2..]))
  }

  lemma {:induction false} WellFormedIffNoneLone(s: seq<Unit>)
    ensures WellFormed(s) <==> forall i: nat | i < |s| :: !Lone(s, i)
  {
    if s == [] {
    } else if !High(s[0]) && !Low(s[0]) {
      WellFormedIffNoneLone(s[1..]);
      assert forall i: nat | i < |s| - 1 :: Lone(s[1..], i) <==> Lone(s, i + 1);
      assert forall i: nat | 0 < i < |s| :: Lone(s, i) <==> Lone(s[1..], i - 1);
    } else if |s| >= 2 && High(s[0]) && Low(s[1]) {
      WellFormedIffNoneLone(s[2..]);
      assert forall i: nat | i < |s| - 2 :: Lone(s[2..], i) <==> Lone(s, i + 2);
      assert forall i: nat | 2 <= i < |s| :: Lone(s, i) <==> Lone(s[2..], i - 2);
    } else {
      assert Lone(s, 0);
    }
  }

  /** The repair leaves a string alone exactly when it is well formed. */
  lemma RepairIdentityIff(s: seq<Unit>)
    ensures Repair(s) == s <==> WellFormed(s)
  {
    WellFormedIffNoneLone(s);
    if i: nat :| i < |s| && Lone(s, i) {
      assert Repair(s)[i] != s[i];
    }
  }

  /** Repaired strings are well formed, so repairing again changes nothing. */
  lemma RepairWellFormed(s: seq<Unit>)
    ensures WellFormed(Repair(s)) && Repair(Repair(s)) == Repair(s)
  {
    var t := Repair(s);
    forall i: nat | i < |t| ensures !Lone(t, i) {
      assert Lone(s, i) ==> t[i] == REPLACEMENT;
      if i + 1 < |s| {
        assert High(s[i]) && Low(s[i + 1]) ==> !Lone(s, i + 1);
      }
      if i > 0 {
        assert Low(s[i]) && High(s[i - 1]) ==> !Lone(s, i - 1);
      }
    }
    WellFormedIffNoneLone(t);
    RepairIdentityIff(t);
  }

  // ---------- JSON values: the reviver repairs string values, not keys ----------

  datatype Json =
    | Scalar(token: int)
    | Text(units: seq<Unit>)
    | List(items: seq<Json>)
    | Object(keys: seq<seq<Unit>>, values: seq<Json>)

  function RepairJson(j: Json): Json {
    match j
    case Scalar(_) => j
    case Text(units) => Text(Repair(units))
    case List(items) => List(seq(|items|, i requires 0 <= i < |items| => RepairJson(items[i])))
    case Object(keys, values) => Object(keys, seq(|values|, i requires 0 <= i < |values| => RepairJson(values[i])))
  }

  /** Every string value in it is well formed. */
  predicate ValuesWellFormed(j: Json) {
    match j
    case Scalar(_) => true
    case Text(units) => WellFormed(units)
    case List(items) => forall i | 0 <= i < |items| :: ValuesWellFormed(items[i])
    case Object(_, values) => forall i | 0 <= i < |values| :: ValuesWellFormed(values[i])
  }

  ghost predicate KeysWellFormed(j: Json) {
    match j
    case Scalar(_) => true
    case Text(_) => true
    case List(items) => forall i | 0 <= i < |items| :: KeysWellFormed(items[i])
    case Object(keys, values) =>
      && (forall i | 0 <= i < |keys| :: WellFormed(keys[i]))
      && (forall i | 0 <= i < |values| :: KeysWellFormed(values[i]))
  }

  /** After the repair every string value is well formed, and the keys are as well formed as
      before: the whole text is well formed exactly when the original's keys are. */
  lemma {:induction false} RepairedJson(j: Json)
    ensures ValuesWellFormed(RepairJson(j))
    ensures KeysWellFormed(RepairJson(j)) <==> KeysWellFormed(j)
    ensures RepairJson(j) == j <==> ValuesWellFormed(j)
  {
    match j
    case Scalar(_) =>
    case Text(units) =>
      RepairWellFormed(units);
      RepairIdentityIff(units);
    case List(items) =>
      forall i | 0 <= i < |items|
        ensures ValuesWellFormed(RepairJson(items[i]))
        ensures KeysWellFormed(RepairJson(items[i])) <==> KeysWellFormed(items[i])
        ensures RepairJson(items[i]) == items[i] <==> ValuesWellFormed(items[i])
      {
        RepairedJson(items[i]);
      }
      assert RepairJson(j) == j <==> forall i | 0 <= i < |items| :: RepairJson(j).items[i] == items[i];
    case Object(_, values) =>
      forall i | 0 <= i < |values|
        ensures ValuesWellFormed(RepairJson(values[i]))
        ensures KeysWellFormed(RepairJson(values[i])) <==> KeysWellFormed(values[i])
        ensures RepairJson(values[i]) == values[i] <==> ValuesWellFormed(values[i])
      {
        RepairedJson(values[i]);
      }
      assert RepairJson(j) == j <==> forall i | 0 <= i < |values| :: RepairJson(j).values[i] == values[i];
  }

  // ---------- String by string ----------

  /** Each lone unit becomes U+FFFD, and every other unit stays. */
  lemma RepairIs(s: seq<Unit>, i: nat)
    requires i < |s|
    ensures Repair(s)[i] == if Lone(s, i) then 65533 else s[i]
  {}

  function Parts(j: Json): seq<Json> {
    match j
    case List(items) => items
    case Object(_, values) => values
    case _ => []
  }

  /** The string values of a document, keys aside, from first to last. */
  ghost function Strings(j: Json): seq<seq<Unit>>
    decreases j, 1
  {
    if j.Text? then [j.units] else StringsIn(j, |Parts(j)|)
  }

  ghost function StringsIn(j: Json, n: nat): seq<seq<Unit>>
    requires n <= |Parts(j)|
    decreases j, 0, n
  {
    if n == 0 then [] else StringsIn(j, n - 1) + Strings(Parts(j)[n - 1])
  }

  /** A document with its string values left empty. */
  ghost function Outline(j: Json): Json {
    match j
    case Scalar(_) => j
    case Text(_) => Text([])
    case List(items) => List(seq(|items|, i requires 0 <= i < |items| => Outline(items[i])))
    case Object(keys, values) => Object(keys, seq(|values|, i requires 0 <= i < |values| => Outline(values[i])))
  }

  ghost predicate EachRepaired(before: seq<seq<Unit>>, after: seq<seq<Unit>>) {
    |after| == |before| && forall k | 0 <= k < |before| :: after[k] == Repair(before[k])
  }

  /** The repair goes string by string and changes nothing else, neither a key nor the structure. */
  lemma {:induction false} StringByString(j: Json)
    ensures EachRepaired(Strings(j), Strings(RepairJson(j)))
    ensures Outline(RepairJson(j)) == Outline(j)
    decreases j, 1
  {
    hide Repair, EachRepaired, StringsIn;
    match j
    case Scalar(_) => NoStrings(j);
    case Text(units) => OneRepaired(units);
    case List(items) =>
      PartByPart(j, |items|);
      assert forall i | 0 <= i < |items| :: Outline(RepairJson(j).items[i]) == Outline(items[i]);
    case Object(_, values) =>
      PartByPart(j, |values|);
      assert forall i | 0 <= i < |values| :: Outline(RepairJson(j).values[i]) == Outline(values[i]);
  }

  lemma NoStrings(j: Json)
    ensures StringsIn(j, 0) == [] && EachRepaired([], [])
  {}

  lemma OneRepaired(units: seq<Unit>)
    ensures EachRepaired([units], [Repair(units)])
  {
    hide Repair;
  }

  lemma {:induction false} PartByPart(j: Json, n: nat)
    requires n <= |Parts(j)|
    ensures n <= |Parts(RepairJson(j))| && EachRepaired(StringsIn(j, n), StringsIn(RepairJson(j), n))
    ensures forall i | 0 <= i < n :: Outline(RepairJson(Parts(j)[i])) == Outline(Parts(j)[i])
    decreases j, 0, n
  {
    hide RepairJson, Parts, Strings, Outline, EachRepaired;
    PartsRepaired(j);
    NoStrings(j);
    NoStrings(RepairJson(j));
    if n > 0 {
      var part := Parts(j)[n - 1];
      PartIsSmaller(j, n - 1);
      PartByPart(j, n - 1);
      StringByString(part);
      RepairedTogether(StringsIn(j, n - 1), Strings(part), StringsIn(RepairJson(j), n - 1), Strings(RepairJson(part)));
    }
  }

  lemma PartIsSmaller(j: Json, i: nat)
    requires i < |Parts(j)|
    ensures Parts(j)[i] < j
  {}

  lemma PartsRepaired(j: Json)
    ensures |Parts(RepairJson(j))| == |Parts(j)|
    ensures forall i | 0 <= i < |Parts(j)| :: Parts(RepairJson(j))[i] == RepairJson(Parts(j)[i])
  {}

  lemma RepairedTogether(a: seq<seq<Unit>>, b: seq<seq<Unit>>, c: seq<seq<Unit>>, d: seq<seq<Unit>>)
    requires EachRepaired(a, c) && EachRepaired(b, d)
    ensures EachRepaired(a + b, c + d)
  {
    hide Repair;
  }
}
