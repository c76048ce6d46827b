/** The benchmark's seeded shuffle: Fisher-Yates driven by a 32-bit generator whose state is a
    counter with an odd step. */
module Shuffle {

  const MODULUS := 0x1_0000_0000
  const INCREMENT := 0x6d2b79f5
  /** INCREMENT * INVERSE == 1 modulo 2^32. */
  const INVERSE := 3696798301

  type State = x: int | 0 <= x < MODULUS

  // ---------- The generator ----------

  /** `seed >>> 0` */
  function Seeded(seed: int): State {
    seed % MODULUS
  }

  function Advance(state: State): State {
    (state + INCREMENT) % MODULUS
  }

  /** The output mixing, on 32-bit words as Math.imul and `>>>` compute it. */
  function Mix(state: State): bv32 {
    var s := state as bv32;
    var t := (s ^ (s >> 15)) * (1 | s);
    var u := (t + ((t ^ (t >> 7)) * (61 | t))) ^ t;
    u ^ (u >> 14)
  }

  function Word(state: State): (word: nat)
    ensures word < MODULUS
  {
    Mix(state) as int
  }

  /** floor(word / 2^32 * bound), exactly. */
  function Scale(word: nat, bound: nat): nat {
    word * bound / MODULUS
  }

  lemma NonNegativeProduct(x: nat, y: nat)
    ensures x * y >= 0
  {}

  /** The generator's first words for three seeds, as mulberry32 is known to draw them. */
  lemma FirstWords()
    ensures Word(StateAfter(0, 1)) == 1144304738 && Word(StateAfter(1, 1)) == 2693262067
    ensures Word(StateAfter(42, 1)) == 2581720956
  {
    assert StateAfter(0, 1) == 1831565813 && StateAfter(1, 1) == 1831565814 && StateAfter(42, 1) == 1831565855;
  }

  /** floor(next() * bound) */
  function Pick(state: State, bound: nat): nat {
    Scale(Word(state), bound)
  }

  lemma ScaleInRange(word: nat, bound: nat)
    requires word < MODULUS && bound > 0
    ensures Scale(word, bound) < bound
    ensures Scale(word, bound) * MODULUS <= word * bound < (Scale(word, bound) + 1) * MODULUS
  {
    var slack := MODULUS - 1 - word;
    NonNegativeProduct(slack, bound);
    assert word * bound == (MODULUS - 1) * bound - slack * bound;
  }

  function StateAfter(seed: int, draws: nat): State {
    (seed + draws * INCREMENT) % MODULUS
  }

  /** The counter's closed form. */
  lemma StateAfterNext(seed: int, draws: nat)
    ensures StateAfter(seed, 0) == Seeded(seed)
    ensures StateAfter(seed, draws + 1) == Advance(StateAfter(seed, draws))
  {
    ModuloAdd(seed + draws * INCREMENT, INCREMENT);
  }

  lemma ModuloAdd(x: int, y: int)
    ensures (x % MODULUS + y) % MODULUS == (x + y) % MODULUS
  {
    ModuloIff(x % MODULUS + y, x + y);
  }

  lemma ModuloIff(x: int, y: int)
    ensures x % MODULUS == y % MODULUS <==> (x - y) % MODULUS == 0
  {}

  lemma MultipleOf(x: int, q: int)
    ensures x == q * MODULUS ==> x % MODULUS == 0
  {}

  lemma MultipleIff(k: int)
    ensures (k * INCREMENT) % MODULUS == 0 <==> k % MODULUS == 0
  {
    if (k * INCREMENT) % MODULUS == 0 {
      var q := k * INCREMENT / MODULUS;
      assert k * INCREMENT == q * MODULUS;
      assert INCREMENT * INVERSE == 1 + 1576479847 * MODULUS;
      MultipleOf(k, q * INVERSE - 1576479847 * k);
    } else if k % MODULUS == 0 {
      MultipleOf(k * INCREMENT, k / MODULUS * INCREMENT);
    }
  }

  /** The state sequence has the full period: two draws share a state exactly when they are a
      multiple of 2^32 apart, so none repeats within 2^32 draws. */
  lemma FullPeriod(seed: int, a: nat, b: nat)
    ensures StateAfter(seed, a) == StateAfter(seed, b) <==> (b - a) % MODULUS == 0
  {
    ModuloIff(seed + b * INCREMENT, seed + a * INCREMENT);
    assert (seed + b * INCREMENT) - (seed + a * INCREMENT) == (b - a) * INCREMENT;
    MultipleIff(b - a);
  }

  // ---------- Fisher-Yates ----------

  function Swapped<T>(s: seq<T>, i: nat, j: nat): (t: seq<T>)
    requires i < |s| && j < |s|
    ensures |t| == |s| && multiset(t) == multiset(s)
  {
    s[i := s[j]][j := s[i]]
  }

  /** choices[i] is drawn for position i, from the positions up to i. */
  ghost predicate IsChoice(choices: seq<nat>) {
    forall i: nat | i < |choices| :: choices[i] <= i
  }

  /** The loop from position i down to position 1. */
  function Shuffled<T>(s: seq<T>, choices: seq<nat>, i: nat): (t: seq<T>)
    requires |choices| == |s| && i <= |s| && IsChoice(choices)
    ensures |t| == |s| && multiset(t) == multiset(s)
    decreases i
  {
    if i == 0 then s else Shuffled(Swapped(s, i - 1, choices[i - 1]), choices, i - 1)
  }

  lemma SwappedAt<T>(s: seq<T>, i: nat, j: nat, k: nat)
    requires i < |s| && j < |s| && k < |s|
    ensures Swapped(s, i, j)[k] == if k == i then s[j] else if k == j then s[i] else s[k]
  {}

  /** Positions from i on are not touched any more. */
  lemma {:induction false} TailKept<T>(s: seq<T>, choices: seq<nat>, i: nat, k: nat)
    requires |choices| == |s| && i <= k < |s| && IsChoice(choices)
    ensures Shuffled(s, choices, i)[k] == s[k]
    decreases i
  {
    hide Swapped;
    if i > 0 {
      SwappedAt(s, i - 1, choices[i - 1], k);
      TailKept(Swapped(s, i - 1, choices[i - 1]), choices, i - 1, k);
    }
  }

  /** The step at position i - 1 places its final element. */
  lemma Placed<T>(s: seq<T>, choices: seq<nat>, i: nat)
    requires |choices| == |s| && 0 < i <= |s| && IsChoice(choices)
    ensures Shuffled(s, choices, i)[i - 1] == s[choices[i - 1]]
  {
    hide Swapped;
    SwappedAt(s, i - 1, choices[i - 1], i - 1);
    TailKept(Swapped(s, i - 1, choices[i - 1]), choices, i - 1, i - 1);
  }

  ghost predicate Distinct<T>(s: seq<T>) {
    forall i, j | 0 <= i < j < |s| :: s[i] != s[j]
  }

  lemma SwappedDistinct<T>(s: seq<T>, i: nat, j: nat)
    requires i < |s| && j < |s| && Distinct(s)
    ensures Distinct(Swapped(s, i, j))
  {}

  /** On a list without repetitions, two choice vectors that give the same order agree at every
      position the loop uses: no order is reached twice. */
  lemma {:induction false} ChoicesDetermined<T>(s: seq<T>, a: seq<nat>, b: seq<nat>, i: nat)
    requires |a| == |b| == |s| && i <= |s| && IsChoice(a) && IsChoice(b) && Distinct(s)
    ensures Shuffled(s, a, i) == Shuffled(s, b, i) <==> a[..i] == b[..i]
    decreases i
  {
    hide Swapped;
    if i > 0 {
      Placed(s, a, i);
      Placed(s, b, i);
      assert a[..i] == a[..i - 1] + [a[i - 1]] && b[..i] == b[..i - 1] + [b[i - 1]];
      if a[i - 1] == b[i - 1] {
        SwappedDistinct(s, i - 1, a[i - 1]);
        ChoicesDetermined(Swapped(s, i - 1, a[i - 1]), a, b, i - 1);
      } else {
        assert s[a[i - 1]] != s[b[i - 1]];
      }
    }
  }

  lemma MemberAt<T>(s: seq<T>, m: multiset<T>, x: T) returns (k: nat)
    requires m == multiset(s) && x in m
    ensures k < |s| && s[k] == x
  {
    k :| 0 <= k < |s| && s[k] == x;
  }

  lemma LastTaken<T>(s: seq<T>, k: nat)
    requires k < |s|
    ensures var swapped := Swapped(s, |s| - 1, k);
            multiset(swapped[..|s| - 1]) == multiset(s) - multiset{s[k]} && swapped[|s| - 1] == s[k]
  {
    var swapped := Swapped(s, |s| - 1, k);
    assert swapped == swapped[..|s| - 1] + [s[k]];
  }

  /** Swapping k into the last place of the first part leaves the second alone. */
  lemma FetchedSuffix<T>(s: seq<T>, t: seq<T>, i: nat, k: nat)
    requires k < i <= |s| == |t| && s[i..] == t[i..] && s[k] == t[i - 1]
    ensures Swapped(s, i - 1, k)[i - 1..] == t[i - 1..]
  {
    var swapped := Swapped(s, i - 1, k);
    forall j | i - 1 <= j < |s| ensures swapped[j] == t[j] {
      assert j >= i ==> s[i..][j - i] == t[i..][j - i];
    }
  }

  lemma FetchedPrefix<T>(s: seq<T>, i: nat, k: nat)
    requires k < i <= |s|
    ensures Swapped(s, i - 1, k)[..i - 1] == Swapped(s[..i], i - 1, k)[..i - 1]
  {}

  /** Fetch the wanted last element of the part the loop still permutes. */
  lemma FetchLast<T>(s: seq<T>, t: seq<T>, i: nat) returns (k: nat)
    requires 0 < i <= |s| == |t| && multiset(s[..i]) == multiset(t[..i]) && s[i..] == t[i..]
    ensures k < i && var swapped := Swapped(s, i - 1, k);
            multiset(swapped[..i - 1]) == multiset(t[..i - 1]) && swapped[i - 1..] == t[i - 1..]
  {
    hide Swapped;
    var last := t[i - 1];
    assert t[..i] == t[..i - 1] + [last];
    k := MemberAt(s[..i], multiset(t[..i]), last);
    LastTaken(s[..i], k);
    FetchedPrefix(s, i, k);
    FetchedSuffix(s, t, i, k);
  }

  /** Every order is reached: together with `ChoicesDetermined`, choice vectors and orders of a
      list without repetitions correspond one to one. */
  lemma {:induction false} EveryOrderReached<T>(s: seq<T>, t: seq<T>, i: nat) returns (choices: seq<nat>)
    requires i <= |s| == |t| && multiset(s[..i]) == multiset(t[..i]) && s[i..] == t[i..]
    ensures |choices| == |s| && IsChoice(choices) && Shuffled(s, choices, i) == t
    decreases i
  {
    hide Swapped;
    if i == 0 {
      choices := seq(|s|, _ => 0);
      assert s == s[0..] && t == t[0..];
    } else {
      var k := FetchLast(s, t, i);
      var rest := EveryOrderReached(Swapped(s, i - 1, k), t, i - 1);
      choices := rest[i - 1 := k];
      SameBelow(Swapped(s, i - 1, k), rest, choices, i - 1);
    }
  }

  /** Only choices below i matter to the loop from i. */
  lemma {:induction false} SameBelow<T>(s: seq<T>, a: seq<nat>, b: seq<nat>, i: nat)
    requires |a| == |b| == |s| && i <= |s| && IsChoice(a) && IsChoice(b) && a[..i] == b[..i]
    ensures Shuffled(s, a, i) == Shuffled(s, b, i)
    decreases i
  {
    if i > 0 {
      assert a[i - 1] == a[..i][i - 1] && b[i - 1] == b[..i][i - 1];
      assert a[..i - 1] == a[..i][..i - 1] && b[..i - 1] == b[..i][..i - 1];
      SameBelow(Swapped(s, i - 1, a[i - 1]), a, b, i - 1);
    }
  }

  // ---------- The seeded shuffle ----------

  /** The choice for position i of n is the (n - i)-th draw; position 0 draws nothing. */
  function ChoicesOf(seed: int, n: nat): (choices: seq<nat>)
    ensures |choices| == n && IsChoice(choices)
  {
    seq(n, i requires 0 <= i < n => ChoiceAt(seed, n, i))
  }

  function ChoiceAt(seed: int, n: nat, i: nat): (choice: nat)
    requires i < n
    ensures choice <= i
  {
    ScaleInRange(Word(StateAfter(seed, n - i)), i + 1);
    if i == 0 then 0 else Pick(StateAfter(seed, n - i), i + 1)
  }

  /** The choice for position i > 0 of n is floor(w * (i + 1) / 2^32) of the word w drawn from the
      seed's (n - i)-th counter value. */
  lemma DrawsAre(seed: int, n: nat, i: nat)
    requires 0 < i < n
    ensures var w := Word((seed + (n - i) * 0x6d2b_79f5) % 0x1_0000_0000);
            var choice := ChoicesOf(seed, n)[i];
            choice * 0x1_0000_0000 <= w * (i + 1) < (choice + 1) * 0x1_0000_0000
  {
    hide Word;
    ScaleInRange(Word(StateAfter(seed, n - i)), i + 1);
  }

  function SeededOrder<T>(items: seq<T>, seed: int): (order: seq<T>)
    ensures |order| == |items| && multiset(order) == multiset(items)
  {
    Shuffled(items, ChoicesOf(seed, |items|), |items|)
  }

  method SeededShuffle<T(0)>(items: seq<T>, seed: int) returns (out: array<T>)
    ensures fresh(out) && out[..] == SeededOrder(items, seed)
  {
    hide Pick, Word, Scale, Advance, StateAfter, Shuffled;
    out := new T[|items|](k requires 0 <= k < |items| => items[k]);
    assert out[..] == items;
    ghost var choices := ChoicesOf(seed, |items|);
    var state := Seeded(seed);
    StateAfterNext(seed, 0);
    var i := out.Length - 1;
    while i > 0
      invariant -1 <= i < out.Length && (i == -1 ==> out.Length == 0)
      invariant state == StateAfter(seed, out.Length - 1 - i)
      invariant Shuffled(out[..], choices, i + 1) == SeededOrder(items, seed)
    {
      StateAfterNext(seed, out.Length - 1 - i);
      state := Advance(state);
      ScaleInRange(Word(state), i + 1);
      var j := Pick(state, i + 1);
      assert choices[i] == j;
      ghost var before := out[..];
      out[i], out[j] := out[j], out[i];
      assert out[..] == Swapped(before, i, j);
      OneStep(before, choices, i + 1);
      i := i - 1;
    }
    LastStep(out[..], choices);
  }

  lemma OneStep<T>(s: seq<T>, choices: seq<nat>, i: nat)
    requires |choices| == |s| && 0 < i <= |s| && IsChoice(choices)
    ensures Shuffled(s, choices, i) == Shuffled(Swapped(s, i - 1, choices[i - 1]), choices, i - 1)
  {}

  /** Position 0 has nowhere to go. */
  lemma LastStep<T>(s: seq<T>, choices: seq<nat>)
    requires |choices| == |s| && IsChoice(choices)
    ensures Shuffled(s, choices, 0) == s
    ensures |s| > 0 ==> Shuffled(s, choices, 1) == s
  {
    if |s| > 0 {
      assert Swapped(s, 0, choices[0]) == s;
      OneStep(s, choices, 1);
    }
  }
}
