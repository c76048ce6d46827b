/** Proportional selection of benchmark tasks: largest-remainder seats per difficulty band, each
    band drawn by the seeded shuffle. Shares are exact fractions with the pool's size below. */
module Stratified {
  import opened Wrappers
  import opened Shuffle

  datatype Level = Easy | Medium | Hard

  /** Task ids stand for their rank in the order that sorts reports. */
  datatype Task = Task(id: nat, level: Level)

  // ---------- Seats ----------

  function Sum(xs: seq<int>): int {
    if xs == [] then 0 else Sum(xs[..|xs| - 1]) + xs[|xs| - 1]
  }

  lemma {:induction false} SumUpdate(xs: seq<int>, k: nat, v: int)
    requires k < |xs|
    ensures Sum(xs[k := v]) == Sum(xs) - xs[k] + v
  {
    var n := |xs| - 1;
    var ys := xs[k := v];
    if k == n {
      assert ys[..n] == xs[..n];
    } else {
      assert ys[..n] == xs[..n][k := v];
      SumUpdate(xs[..n], k, v);
    }
  }

  /** Band sizes, the seats to share out and the pool they are a share of. */
  datatype Shares = Shares(counts: seq<nat>, size: nat, pool: nat) {
    ghost predicate Valid() {
      0 < size < pool && pool <= Sum(counts)
    }

    function Base(k: nat): nat
      requires Valid() && k < |counts|
    {
      counts[k] * size / pool
    }

    /** The fractional part of the exact share, times pool. */
    function Remainder(k: nat): nat
      requires Valid() && k < |counts|
    {
      counts[k] * size % pool
    }

    function Bases(): (bases: seq<nat>)
      requires Valid()
      ensures |bases| == |counts|
    {
      seq(|counts|, k requires 0 <= k < |counts| => Base(k))
    }

    function Remainders(): (remainders: seq<nat>)
      requires Valid()
      ensures |remainders| == |counts|
    {
      seq(|counts|, k requires 0 <= k < |counts| => Remainder(k))
    }
  }

  // ---------- The order of the remainders: a stable descending sort of the indices ----------

  function Insert(order: seq<nat>, keys: seq<nat>, k: nat): seq<nat>
    requires k < |keys| && forall i | 0 <= i < |order| :: order[i] < |keys|
  {
    if order == [] || keys[order[|order| - 1]] >= keys[k] then order + [k]
    else Insert(order[..|order| - 1], keys, k) + [order[|order| - 1]]
  }

  function Ranked(keys: seq<nat>, n: nat): (order: seq<nat>)
    requires n <= |keys|
    ensures |order| == n && forall i | 0 <= i < n :: order[i] < |keys|
  {
    if n == 0 then [] else
      var front := Ranked(keys, n - 1);
      InsertMembers(front, keys, n - 1);
      Insert(front, keys, n - 1)
  }

  lemma {:induction false} InsertMembers(order: seq<nat>, keys: seq<nat>, k: nat)
    requires k < |keys| && forall i | 0 <= i < |order| :: order[i] < |keys|
    ensures var inserted := Insert(order, keys, k);
            && |inserted| == |order| + 1 && multiset(inserted) == multiset(order) + multiset{k}
            && forall i | 0 <= i < |inserted| :: inserted[i] < |keys|
  {
    if order != [] {
      InsertMembers(order[..|order| - 1], keys, k);
      assert order == order[..|order| - 1] + [order[|order| - 1]];
    }
  }

  /** Larger remainder first; equal remainders keep their order. */
  ghost predicate Before(keys: seq<nat>, a: nat, b: nat)
    requires a < |keys| && b < |keys|
  {
    keys[a] > keys[b] || (keys[a] == keys[b] && a < b)
  }

  ghost predicate RankedBy(order: seq<nat>, keys: seq<nat>) {
    && (forall i | 0 <= i < |order| :: order[i] < |keys|)
    && (forall i, j | 0 <= i < j < |order| :: Before(keys, order[i], order[j]))
  }

  lemma {:induction false} InsertRanked(order: seq<nat>, keys: seq<nat>, k: nat)
    requires k < |keys| && RankedBy(order, keys) && forall i | 0 <= i < |order| :: order[i] < k
    ensures RankedBy(Insert(order, keys, k), keys)
    ensures forall x | x in Insert(order, keys, k) :: x == k || x in order
  {
    InsertMembers(order, keys, k);
    if order != [] && keys[order[|order| - 1]] < keys[k] {
      var front, last := order[..|order| - 1], order[|order| - 1];
      InsertRanked(front, keys, k);
      var inserted := Insert(front, keys, k);
      forall i | 0 <= i < |inserted| ensures Before(keys, inserted[i], last) {
        assert inserted[i] in inserted;
        if inserted[i] != k {
          var j :| 0 <= j < |front| && front[j] == inserted[i];
          assert Before(keys, order[j], order[|order| - 1]);
        }
      }
    }
  }

  lemma {:induction false} RankedIsRanked(keys: seq<nat>, n: nat)
    requires n <= |keys|
    ensures RankedBy(Ranked(keys, n), keys)
    ensures forall i | 0 <= i < n :: Ranked(keys, n)[i] < n
  {
    if n > 0 {
      RankedIsRanked(keys, n - 1);
      InsertRanked(Ranked(keys, n - 1), keys, n - 1);
      var order := Ranked(keys, n);
      forall i | 0 <= i < n ensures order[i] < n {
        assert order[i] in order;
      }
    }
  }

  // ---------- How many seats are left after rounding down ----------

  function Values(keys: seq<nat>, order: seq<nat>): (values: seq<int>)
    requires forall i | 0 <= i < |order| :: order[i] < |keys|
    ensures |values| == |order|
  {
    seq(|order|, i requires 0 <= i < |order| => keys[order[i]])
  }

  lemma ValuesAppend(keys: seq<nat>, order: seq<nat>, k: nat)
    requires k < |keys| && forall i | 0 <= i < |order| :: order[i] < |keys|
    ensures Sum(Values(keys, order + [k])) == Sum(Values(keys, order)) + keys[k]
  {
    assert Values(keys, order + [k])[..|order|] == Values(keys, order);
  }

  lemma {:induction false} SumInserted(order: seq<nat>, keys: seq<nat>, k: nat)
    requires k < |keys| && forall i | 0 <= i < |order| :: order[i] < |keys|
    ensures (InsertMembers(order, keys, k); Sum(Values(keys, Insert(order, keys, k))))
            == Sum(Values(keys, order)) + keys[k]
  {
    hide Sum, Values;
    InsertMembers(order, keys, k);
    if order == [] || keys[order[|order| - 1]] >= keys[k] {
      ValuesAppend(keys, order, k);
    } else {
      var front, last := order[..|order| - 1], order[|order| - 1];
      assert order == front + [last];
      InsertMembers(front, keys, k);
      SumInserted(front, keys, k);
      ValuesAppend(keys, front, last);
      ValuesAppend(keys, Insert(front, keys, k), last);
    }
  }

  lemma SumOfNone()
    ensures Sum([]) == 0
  {}

  lemma SumPrefix(xs: seq<int>, n: nat)
    requires 0 < n <= |xs|
    ensures Sum(xs[..n]) == Sum(xs[..n - 1]) + xs[n - 1]
  {
    assert xs[..n][..n - 1] == xs[..n - 1];
  }

  lemma {:induction false} SumRanked(keys: seq<nat>, n: nat)
    requires n <= |keys|
    ensures Sum(Values(keys, Ranked(keys, n))) == Sum(keys[..n])
  {
    hide Sum, Insert;
    if n > 0 {
      SumRanked(keys, n - 1);
      hide Values;
      SumInserted(Ranked(keys, n - 1), keys, n - 1);
      SumPrefix(keys, n);
    }
  }

  lemma {:induction false} SumBelow(xs: seq<int>, z: nat, bound: int)
    requires z <= |xs| && bound >= 0
    requires forall i | 0 <= i < |xs| :: xs[i] <= (if i < z then bound else 0)
    ensures Sum(xs) <= z * bound
  {
    if xs != [] {
      var n := |xs| - 1;
      if z == |xs| {
        SumBelow(xs[..n], n, bound);
        assert z * bound == n * bound + bound;
      } else {
        SumBelow(xs[..n], z, bound);
      }
    } else {
      assert z == 0;
    }
  }

  lemma {:induction false} SumOfShares(s: Shares, n: nat)
    requires s.Valid() && n <= |s.counts|
    ensures Sum(s.Bases()[..n]) * s.pool + Sum(s.Remainders()[..n]) == Sum(s.counts[..n]) * s.size
  {
    hide Sum;
    if n == 0 {
      assert Sum([]) == 0 by { SumOfNone(); }
    } else {
      SumOfShares(s, n - 1);
      SumPrefix(s.Bases(), n);
      SumPrefix(s.Remainders(), n);
      SumPrefix(s.counts, n);
      var c := s.counts[n - 1];
      Divided(c * s.size, s.pool);
      Distribute(Sum(s.Bases()[..n - 1]), s.Base(n - 1), s.pool);
      Distribute(Sum(s.counts[..n - 1]), c, s.size);
    }
  }

  lemma Divided(x: nat, d: nat)
    requires d > 0
    ensures x / d * d + x % d == x && 0 <= x % d < d
  {}

  lemma Distribute(x: int, y: int, z: int)
    ensures (x + y) * z == x * z + y * z
  {}

  /** Seats the rounding leaves to hand out one by one. */
  function Left(s: Shares): nat
    requires s.Valid()
  {
    if Sum(s.Bases()) < s.size then s.size - Sum(s.Bases()) else 0
  }

  function Order(s: Shares): (order: seq<nat>)
    requires s.Valid()
    ensures |order| == |s.counts| && forall i | 0 <= i < |order| :: order[i] < |s.counts|
  {
    Ranked(s.Remainders(), |s.counts|)
  }

  lemma LeftTimesPool(s: Shares)
    requires s.Valid()
    ensures Left(s) * s.pool <= Sum(s.Remainders())
  {
    var n := |s.counts|;
    SumOfShares(s, n);
    assert s.Bases()[..n] == s.Bases() && s.Remainders()[..n] == s.Remainders() && s.counts[..n] == s.counts;
    var bases, counts := Sum(s.Bases()), Sum(s.counts);
    ProductMonotone(s.pool, counts, s.size);
    Distribute(s.size - bases, bases, s.pool);
    SumNonNegative(s.Remainders());
    assert s.pool * s.size == s.size * s.pool;
  }

  lemma ProductMonotone(x: int, y: int, z: nat)
    requires x <= y
    ensures x * z <= y * z
  {}

  lemma {:induction false} SumNonNegative(xs: seq<int>)
    requires forall i | 0 <= i < |xs| :: xs[i] >= 0
    ensures Sum(xs) >= 0
  {
    if xs != [] {
      SumNonNegative(xs[..|xs| - 1]);
    }
  }

  lemma FewerThan(left: nat, z: nat, pool: nat)
    requires pool > 0 && left * pool <= z * (pool - 1)
    ensures left < z || left == 0
  {
    if left >= z {
      ProductMonotone(z, left, pool - 1);
      assert left * (pool - 1) == left * pool - left;
    }
  }

  /** The leading entries of a descending list that are positive. */
  function Positives(values: seq<int>): (z: nat)
    ensures z <= |values| && (forall i | 0 <= i < z :: values[i] > 0) && (z < |values| ==> values[z] <= 0)
  {
    if values == [] || values[0] <= 0 then 0
    else
      var rest := Positives(values[1..]);
      assert forall i | 1 <= i < rest + 1 :: values[i] == values[1..][i - 1];
      rest + 1
  }

  /** The remainders, largest first. */
  function Descending(s: Shares): (values: seq<int>)
    requires s.Valid()
    ensures |values| == |s.counts|
  {
    Values(s.Remainders(), Order(s))
  }

  lemma DescendingSum(s: Shares)
    requires s.Valid()
    ensures Sum(Descending(s)) == Sum(s.Remainders())
  {
    SumRanked(s.Remainders(), |s.counts|);
    assert s.Remainders()[..|s.counts|] == s.Remainders();
  }

  lemma DescendingBound(s: Shares, i: nat)
    requires s.Valid() && i < |s.counts|
    ensures Descending(s)[i] == s.Remainder(Order(s)[i])
    ensures Descending(s)[i] <= (if i < Positives(Descending(s)) then s.pool - 1 else 0)
  {
    hide Ranked;
    var keys, order := s.Remainders(), Order(s);
    var z := Positives(Descending(s));
    RankedIsRanked(keys, |keys|);
    RemainderBound(s, order[i]);
    if i > z {
      assert Before(keys, order[z], order[i]);
    }
  }

  lemma RemainderBound(s: Shares, k: nat)
    requires s.Valid() && k < |s.counts|
    ensures s.Remainder(k) <= s.pool - 1
  {
    Divided(s.counts[k] * s.size, s.pool);
  }

  /** There are fewer seats left than bands with a fractional share, so every band that receives
      one has a positive remainder and room for it: one pass suffices. */
  lemma LeftoverBands(s: Shares)
    requires s.Valid()
    ensures Left(s) <= |s.counts|
    ensures forall k | 0 <= k < Left(s) :: s.Remainder(Order(s)[k]) > 0
    ensures forall k | 0 <= k < Left(s) :: s.Base(Order(s)[k]) < s.counts[Order(s)[k]]
  {
    hide Descending, Sum, Left;
    var values := Descending(s);
    var z := Positives(values);
    forall i | 0 <= i < |values| ensures values[i] <= (if i < z then s.pool - 1 else 0) {
      DescendingBound(s, i);
    }
    SumBelow(values, z, s.pool - 1);
    DescendingSum(s);
    LeftTimesPool(s);
    FewerThan(Left(s), z, s.pool);
    forall k | 0 <= k < Left(s)
      ensures s.Remainder(Order(s)[k]) > 0 && s.Base(Order(s)[k]) < s.counts[Order(s)[k]]
    {
      DescendingBound(s, k);
      RoomFor(s, Order(s)[k]);
    }
  }

  lemma RoomFor(s: Shares, k: nat)
    requires s.Valid() && k < |s.counts|
    ensures s.counts[k] > 0 ==> s.Base(k) < s.counts[k]
    ensures s.counts[k] == 0 ==> s.Base(k) == s.Remainder(k) == 0
  {
    var c := s.counts[k];
    if c > 0 {
      Divided(c * s.size, s.pool);
      ProductMonotone(s.size, s.pool - 1, c);
      assert c * s.size <= c * s.pool - c;
      if s.Base(k) >= c {
        ProductMonotone(c, s.Base(k), s.pool);
      }
    } else {
      assert c * s.size == 0;
    }
  }

  // ---------- The seats ----------

  function Seat(s: Shares, k: nat): nat
    requires s.Valid() && k < |s.counts|
  {
    LeftoverBands(s);
    s.Base(k) + (if k in Order(s)[..Left(s)] then 1 else 0)
  }

  function Seats(s: Shares): (seats: seq<nat>)
    requires s.Valid()
    ensures |seats| == |s.counts|
  {
    seq(|s.counts|, k requires 0 <= k < |s.counts| => Seat(s, k))
  }

  /** No band gets more tasks than it has, and each gets its exact share rounded down or up. */
  lemma QuotaRule(s: Shares, k: nat)
    requires s.Valid() && k < |s.counts|
    ensures Seats(s)[k] <= s.counts[k]
    ensures s.counts[k] * s.size / s.pool <= Seats(s)[k]
    ensures Seats(s)[k] * s.pool < s.counts[k] * s.size + s.pool
  {
    hide Order, Left;
    LeftoverBands(s);
    RoomFor(s, k);
    Divided(s.counts[k] * s.size, s.pool);
    Distribute(s.Base(k), 1, s.pool);
    if k in Order(s)[..Left(s)] {
      var i :| 0 <= i < Left(s) && Order(s)[i] == k;
      assert s.Remainder(k) > 0;
    }
  }

  /** A band passed over has no larger remainder than a band that got an extra seat. */
  lemma LargestRemaindersFirst(s: Shares, a: nat, b: nat)
    requires s.Valid() && a < |s.counts| && b < |s.counts|
    requires Seats(s)[a] > s.Base(a) && Seats(s)[b] == s.Base(b)
    ensures s.Remainder(a) >= s.Remainder(b)
  {
    var keys, order, left := s.Remainders(), Order(s), Left(s);
    LeftoverBands(s);
    RankedIsRanked(keys, |keys|);
    RankedCovers(keys, |keys|, b);
    var i :| 0 <= i < left && order[i] == a;
    var j :| 0 <= j < |order| && order[j] == b;
    PrefixHas(order, left, j);
    assert Before(keys, order[i], order[j]);
  }

  lemma PrefixHas(order: seq<nat>, left: nat, j: nat)
    requires left <= |order| && j < |order|
    ensures j < left ==> order[j] in order[..left]
  {
    if j < left {
      assert order[..left][j] == order[j];
    }
  }

  lemma {:induction false} RankedCovers(keys: seq<nat>, n: nat, k: nat)
    requires k < n <= |keys|
    ensures k in Ranked(keys, n)
  {
    var front := Ranked(keys, n - 1);
    InsertMembers(front, keys, n - 1);
    assert Ranked(keys, n) == Insert(front, keys, n - 1);
    hide Ranked, Insert;
    if k < n - 1 {
      RankedCovers(keys, n - 1, k);
    }
    var added: nat := n - 1;
    assert k in multiset(front) + multiset{added};
    assert k in multiset(Ranked(keys, n));
  }

  /** The floors after the first r leftover seats. */
  ghost function SeatsAfter(s: Shares, r: nat): (seats: seq<nat>)
    requires s.Valid() && r <= |s.counts|
    ensures |seats| == |s.counts|
  {
    seq(|s.counts|, k requires 0 <= k < |s.counts| => s.Base(k) + (if k in Order(s)[..r] then 1 else 0))
  }

  lemma NoneSeated(s: Shares)
    requires s.Valid()
    ensures SeatsAfter(s, 0) == s.Bases()
  {}

  lemma AllSeated(s: Shares)
    requires s.Valid()
    ensures Left(s) <= |s.counts| && SeatsAfter(s, Left(s)) == Seats(s)
  {
    LeftoverBands(s);
  }

  lemma NextSeat(s: Shares, r: nat)
    requires s.Valid() && r < |s.counts|
    ensures var k := Order(s)[r];
            && SeatsAfter(s, r)[k] == s.Base(k)
            && SeatsAfter(s, r + 1) == SeatsAfter(s, r)[k := s.Base(k) + 1]
  {
    var keys, order := s.Remainders(), Order(s);
    RankedIsRanked(keys, |keys|);
    var k := order[r];
    assert k !in order[..r] by {
      forall i | 0 <= i < r ensures order[..r][i] != k {
        assert Before(keys, order[i], order[r]);
      }
    }
    assert order[..r + 1] == order[..r] + [k];
  }

  lemma {:induction false} SumAtMost(xs: seq<int>, ys: seq<int>)
    requires |xs| == |ys| && forall i | 0 <= i < |xs| :: xs[i] <= ys[i]
    ensures Sum(xs) <= Sum(ys)
  {
    if xs != [] {
      SumAtMost(xs[..|xs| - 1], ys[..|ys| - 1]);
    }
  }

  predicate AllFull(floors: seq<nat>, counts: seq<nat>)
    requires |floors| == |counts|
  {
    forall k | 0 <= k < |floors| :: floors[k] >= counts[k]
  }

  lemma NeverAllFull(floors: seq<nat>, s: Shares)
    requires s.Valid() && |floors| == |s.counts| && Sum(floors) <= s.size
    ensures !AllFull(floors, s.counts)
  {
    if AllFull(floors, s.counts) {
      SumAtMost(s.counts, floors);
    }
  }

  /** The leftover loop, with its wrap-around and its early exit: neither is ever taken. */
  method AllocateSeats(s: Shares) returns (floors: array<nat>, wrapped: bool, broke: bool)
    requires s.Valid()
    ensures fresh(floors) && floors[..] == Seats(s)
    ensures !wrapped && !broke
    ensures Sum(floors[..]) == if Sum(s.Bases()) < s.size then s.size else Sum(s.Bases())
  {
    hide Order, Sum, SeatsAfter, Seats, AllFull, Ranked;
    floors := new nat[|s.counts|](k requires 0 <= k < |s.counts| => s.Base(k));
    var given := Sum(s.Bases());
    var remainders := Order(s);
    wrapped, broke := false, false;
    var r := 0;
    LeftoverBands(s);
    NoneSeated(s);
    assert floors[..] == s.Bases();
    while given < s.size && r < |remainders|
      invariant 0 <= r <= Left(s) <= |remainders|
      invariant given == Sum(s.Bases()) + r == Sum(floors[..])
      invariant floors[..] == SeatsAfter(s, r)
      invariant !wrapped && !broke
      decreases |remainders| - r
    {
      var target := remainders[r];
      NextSeat(s, r);
      SumUpdate(floors[..], target, floors[target] + 1);
      if floors[target] < s.counts[target] {
        floors[target] := floors[target] + 1;
        given := given + 1;
      }
      r := r + 1;
      if r >= |remainders| && given < s.size {
        r := 0;
        wrapped := true;
      }
      NeverAllFull(floors[..], s);
      if AllFull(floors[..], s.counts) {
        broke := true;
        break;
      }
    }
    AllSeated(s);
  }

  // ---------- The subset ----------

  /** tasks.filter by the levels asked for. */
  function Pool(tasks: seq<Task>, levels: seq<Level>): seq<Task> {
    if tasks == [] then []
    else
      var task := tasks[|tasks| - 1];
      Pool(tasks[..|tasks| - 1], levels) + (if task.level in levels then [task] else [])
  }

  function Band(pool: seq<Task>, level: Level): seq<Task> {
    Pool(pool, [level])
  }

  function Counts(pool: seq<Task>, levels: seq<Level>): (counts: seq<nat>)
    ensures |counts| == |levels|
  {
    seq(|levels|, k requires 0 <= k < |levels| => |Band(pool, levels[k])|)
  }

  function Occurrences(levels: seq<Level>, level: Level): nat {
    if levels == [] then 0
    else Occurrences(levels[..|levels| - 1], level) + (if levels[|levels| - 1] == level then 1 else 0)
  }

  lemma {:induction false} OccurrencesPositive(levels: seq<Level>, level: Level)
    ensures Occurrences(levels, level) > 0 <==> level in levels
    ensures Distinct(levels) ==> Occurrences(levels, level) <= 1
  {
    if levels != [] {
      var front := levels[..|levels| - 1];
      OccurrencesPositive(front, level);
      assert levels == front + [levels[|levels| - 1]];
    }
  }

  lemma {:induction false} SumStep(xs: seq<int>, ys: seq<int>, levels: seq<Level>, level: Level)
    requires |xs| == |ys| == |levels|
    requires forall k | 0 <= k < |levels| :: ys[k] == xs[k] + (if levels[k] == level then 1 else 0)
    ensures Sum(ys) == Sum(xs) + Occurrences(levels, level)
  {
    if levels != [] {
      var n := |levels| - 1;
      SumStep(xs[..n], ys[..n], levels[..n], level);
    }
  }

  ghost predicate WithinLevels(pool: seq<Task>, levels: seq<Level>) {
    forall i | 0 <= i < |pool| :: pool[i].level in levels
  }

  /** The bands cover the pool, and partition it when no level is listed twice. */
  lemma {:induction false} CountsCover(pool: seq<Task>, levels: seq<Level>)
    requires WithinLevels(pool, levels)
    ensures |pool| <= Sum(Counts(pool, levels))
    ensures Distinct(levels) ==> |pool| == Sum(Counts(pool, levels))
  {
    if pool == [] {
      ZeroSum(Counts(pool, levels));
    } else {
      var front, task := pool[..|pool| - 1], pool[|pool| - 1];
      CountsCover(front, levels);
      forall k | 0 <= k < |levels|
        ensures Counts(pool, levels)[k] == Counts(front, levels)[k] + (if levels[k] == task.level then 1 else 0)
      {
        assert task.level in [levels[k]] <==> levels[k] == task.level;
      }
      SumStep(Counts(front, levels), Counts(pool, levels), levels, task.level);
      OccurrencesPositive(levels, task.level);
    }
  }

  lemma {:induction false} ZeroSum(xs: seq<int>)
    requires forall i | 0 <= i < |xs| :: xs[i] == 0
    ensures Sum(xs) == 0
  {
    if xs != [] {
      ZeroSum(xs[..|xs| - 1]);
    }
  }

  lemma {:induction false} PoolWithin(tasks: seq<Task>, levels: seq<Level>)
    ensures WithinLevels(Pool(tasks, levels), levels)
    ensures |Pool(tasks, levels)| <= |tasks|
  {
    if tasks != [] {
      PoolWithin(tasks[..|tasks| - 1], levels);
    }
  }

  /** slice(0, n) */
  function Take<T>(s: seq<T>, n: nat): seq<T> {
    if n <= |s| then s[..n] else s
  }

  function Chosen(pool: seq<Task>, levels: seq<Level>, seats: seq<nat>, seed: int): seq<Task>
    requires |levels| == |seats|
    decreases |levels|
  {
    if levels == [] then []
    else
      var n := |levels| - 1;
      Chosen(pool, levels[..n], seats[..n], seed) + Take(SeededOrder(Band(pool, levels[n]), seed), seats[n])
  }

  function Rank(level: Level): nat {
    match level case Easy => 0 case Medium => 1 case Hard => 2
  }

  predicate NoLater(a: Task, b: Task) {
    Rank(a.level) < Rank(b.level) || (a.level == b.level && a.id <= b.id)
  }

  function InsertTask(sorted: seq<Task>, task: Task): seq<Task> {
    if sorted == [] || NoLater(sorted[|sorted| - 1], task) then sorted + [task]
    else InsertTask(sorted[..|sorted| - 1], task) + [sorted[|sorted| - 1]]
  }

  function SortTasks(tasks: seq<Task>): seq<Task> {
    if tasks == [] then [] else InsertTask(SortTasks(tasks[..|tasks| - 1]), tasks[|tasks| - 1])
  }

  ghost predicate Sorted(tasks: seq<Task>) {
    forall i, j | 0 <= i < j < |tasks| :: NoLater(tasks[i], tasks[j])
  }

  /** Tasks compare totally and transitively. */
  lemma TasksCompare(task: Task)
    ensures forall t :: NoLater(t, task) || NoLater(task, t)
    ensures forall s, t | NoLater(s, t) && NoLater(t, task) :: NoLater(s, task)
  {}

  lemma {:induction false} InsertTaskSorts(sorted: seq<Task>, task: Task)
    requires Sorted(sorted)
    ensures var t := InsertTask(sorted, task); Sorted(t) && multiset(t) == multiset(sorted) + multiset{task}
  {
    hide NoLater;
    TasksCompare(task);
    if sorted != [] && !NoLater(sorted[|sorted| - 1], task) {
      var front, last := sorted[..|sorted| - 1], sorted[|sorted| - 1];
      InsertTaskSorts(front, task);
      var inserted := InsertTask(front, task);
      assert sorted == front + [last];
      forall i | 0 <= i < |inserted| ensures NoLater(inserted[i], last) {
        assert inserted[i] in multiset(front) + multiset{task};
        if inserted[i] != task {
          assert inserted[i] in front;
        }
      }
    }
  }

  lemma {:induction false} SortTasksSorts(tasks: seq<Task>)
    ensures Sorted(SortTasks(tasks)) && multiset(SortTasks(tasks)) == multiset(tasks)
  {
    if tasks != [] {
      var front := tasks[..|tasks| - 1];
      SortTasksSorts(front);
      InsertTaskSorts(SortTasks(front), tasks[|tasks| - 1]);
      assert tasks == front + [tasks[|tasks| - 1]];
    }
  }

  function SharesOf(pool: seq<Task>, levels: seq<Level>, size: nat): (s: Shares)
    requires WithinLevels(pool, levels) && 0 < size < |pool|
    ensures s.Valid()
  {
    CountsCover(pool, levels);
    Shares(Counts(pool, levels), size, |pool|)
  }

  const ALL_LEVELS := [Easy, Medium, Hard]

  /** The pool when no size is given or it covers the pool; nothing below one; else the seats' tasks. */
  function Selection(tasks: seq<Task>, size: Option<real>, levels: seq<Level>, seed: int): seq<Task> {
    var pool := Pool(tasks, levels);
    if size.None? || size.value >= |pool| as real then pool
    else if size.value.Floor <= 0 then []
    else
      PoolWithin(tasks, levels);
      var shares := SharesOf(pool, levels, size.value.Floor);
      SortTasks(Chosen(pool, levels, Seats(shares), seed))
  }

  /** The pool holds the tasks of the levels asked for, as often and in the order they are given. */
  lemma {:induction false} PoolIsFiltered(a: seq<Task>, b: seq<Task>, levels: seq<Level>)
    ensures Pool(a + b, levels) == Pool(a, levels) + Pool(b, levels)
    ensures forall task :: Pool([task], levels) == if task.level in levels then [task] else []
  {
    hide Pool;
    EmptyPool(levels);
    forall task ensures Pool([task], levels) == if task.level in levels then [task] else [] {
      PoolNext([], task, levels);
      assert [] + [task] == [task];
    }
    if b == [] {
      assert a + b == a;
    } else {
      var front, last := b[..|b| - 1], b[|b| - 1];
      PoolIsFiltered(a, front, levels);
      PoolNext(a + front, last, levels);
      PoolNext(front, last, levels);
      assert a + b == a + front + [last] && b == front + [last];
    }
  }

  lemma EmptyPool(levels: seq<Level>)
    ensures Pool([], levels) == []
  {}

  lemma PoolNext(tasks: seq<Task>, task: Task, levels: seq<Level>)
    ensures Pool(tasks + [task], levels) == Pool(tasks, levels) + (if task.level in levels then [task] else [])
  {
    assert (tasks + [task])[..|tasks|] == tasks;
  }

  lemma {:induction false} PoolCounts(tasks: seq<Task>, levels: seq<Level>, task: Task)
    ensures multiset(Pool(tasks, levels))[task] == if task.level in levels then multiset(tasks)[task] else 0
  {
    if tasks != [] {
      var front, last := tasks[..|tasks| - 1], tasks[|tasks| - 1];
      assert tasks == front + [last];
      PoolCounts(front, levels, task);
    }
  }

  /** All of the pool comes back, in the order of the tasks, when no size is given or a size that
      covers it; nothing for a size below one. */
  lemma SmallAndLargeSizes(tasks: seq<Task>, size: Option<real>, levels: seq<Level>, seed: int)
    ensures var pool := Pool(tasks, levels);
            && (size.None? || size.value >= |pool| as real ==> Selection(tasks, size, levels, seed) == pool)
            && (size.Some? && size.value < 1.0 && size.value < |pool| as real
                ==> Selection(tasks, size, levels, seed) == [])
  {
    hide Pool, SortTasks, Chosen;
  }

  method SelectStratifiedSubset(tasks: seq<Task>, size: Option<real>, levels: Option<seq<Level>>, seed: int)
    returns (subset: seq<Task>)
    ensures subset == Selection(tasks, size, if levels.Some? then levels.value else ALL_LEVELS, seed)
  {
    hide Seats, Sum, SortTasks, Pool, Chosen;
    var wanted := if levels.Some? then levels.value else ALL_LEVELS;
    var pool := Pool(tasks, wanted);
    if size.None? || size.value >= |pool| as real {
      return pool;
    }
    var seatsWanted := if size.value.Floor > 0 then size.value.Floor else 0;
    if seatsWanted == 0 {
      return [];
    }
    PoolWithin(tasks, wanted);
    var shares := SharesOf(pool, wanted, seatsWanted);
    var floors, wrapped, broke := AllocateSeats(shares);
    var selected := DrawBands(pool, wanted, floors[..], seed);
    subset := SortTasks(selected);
  }

  /** Each band shuffled with the same seed, and as many of it as it has seats. */
  method DrawBands(pool: seq<Task>, levels: seq<Level>, seats: seq<nat>, seed: int) returns (selected: seq<Task>)
    requires |levels| == |seats|
    ensures selected == Chosen(pool, levels, seats, seed)
  {
    hide SeededOrder, Band, Take;
    selected := [];
    for i := 0 to |levels|
      invariant selected == Chosen(pool, levels[..i], seats[..i], seed)
    {
      var band := SeededShuffle(Band(pool, levels[i]), seed);
      assert levels[..i + 1][..i] == levels[..i] && seats[..i + 1][..i] == seats[..i];
      selected := selected + Take(band[..], seats[i]);
    }
    assert levels[..|levels|] == levels && seats[..|seats|] == seats;
  }

  // ---------- What the subset promises ----------

  lemma {:induction false} ChosenLength(pool: seq<Task>, levels: seq<Level>, seats: seq<nat>, seed: int)
    requires |levels| == |seats| && forall k | 0 <= k < |levels| :: seats[k] <= |Band(pool, levels[k])|
    ensures |Chosen(pool, levels, seats, seed)| == Sum(seats)
    decreases |levels|
  {
    if levels != [] {
      var n := |levels| - 1;
      ChosenLength(pool, levels[..n], seats[..n], seed);
    }
  }

  /** Adding a level not listed yet adds its band to the pool, as a multiset. */
  lemma {:induction false} PoolSplits(tasks: seq<Task>, levels: seq<Level>, level: Level)
    requires level !in levels
    ensures multiset(Pool(tasks, levels + [level])) == multiset(Pool(tasks, levels)) + multiset(Band(tasks, level))
  {
    if tasks != [] {
      PoolSplits(tasks[..|tasks| - 1], levels, level);
    }
  }

  lemma {:induction false} PoolOfPool(pool: seq<Task>, levels: seq<Level>)
    requires WithinLevels(pool, levels)
    ensures Pool(pool, levels) == pool
  {
    if pool != [] {
      PoolOfPool(pool[..|pool| - 1], levels);
    }
  }

  lemma TakeWithin<T>(s: seq<T>, n: nat)
    ensures multiset(Take(s, n)) <= multiset(s)
  {
    if n <= |s| {
      assert s == s[..n] + s[n..];
    }
  }

  lemma {:induction false} ChosenWithin(pool: seq<Task>, levels: seq<Level>, seats: seq<nat>, seed: int)
    requires |levels| == |seats| && Distinct(levels)
    ensures multiset(Chosen(pool, levels, seats, seed)) <= multiset(Pool(pool, levels))
    decreases |levels|
  {
    hide SeededOrder, Take;
    if levels != [] {
      var n := |levels| - 1;
      ChosenWithin(pool, levels[..n], seats[..n], seed);
      PoolSplits(pool, levels[..n], levels[n]);
      assert levels == levels[..n] + [levels[n]];
      TakeWithin(SeededOrder(Band(pool, levels[n]), seed), seats[n]);
    }
  }

  /** How many tasks of a level a list holds, as a multiset. */
  lemma {:induction false} BandOfParts(a: seq<Task>, b: seq<Task>, level: Level)
    ensures Band(a + b, level) == Band(a, level) + Band(b, level)
  {
    if b == [] {
      assert a + b == a;
    } else {
      assert (a + b)[..|a + b| - 1] == a + b[..|b| - 1];
      BandOfParts(a, b[..|b| - 1], level);
    }
  }

  lemma {:induction false} BandInsert(sorted: seq<Task>, task: Task, level: Level)
    ensures |Band(InsertTask(sorted, task), level)| == |Band(sorted, level)| + (if task.level == level then 1 else 0)
  {
    if sorted == [] || NoLater(sorted[|sorted| - 1], task) {
      assert (sorted + [task])[..|sorted|] == sorted;
    } else {
      var front := sorted[..|sorted| - 1];
      BandInsert(front, task, level);
      assert InsertTask(sorted, task)[..|InsertTask(sorted, task)| - 1] == InsertTask(front, task);
    }
  }

  lemma {:induction false} BandSorted(tasks: seq<Task>, level: Level)
    ensures |Band(SortTasks(tasks), level)| == |Band(tasks, level)|
  {
    if tasks != [] {
      BandSorted(tasks[..|tasks| - 1], level);
      BandInsert(SortTasks(tasks[..|tasks| - 1]), tasks[|tasks| - 1], level);
    }
  }

  lemma {:induction false} BandUniform(tasks: seq<Task>, own: Level, level: Level)
    requires forall i | 0 <= i < |tasks| :: tasks[i].level == own
    ensures Band(tasks, level) == if own == level then tasks else []
  {
    if tasks != [] {
      BandUniform(tasks[..|tasks| - 1], own, level);
    }
  }

  lemma SeededBand(pool: seq<Task>, level: Level, seed: int, n: nat)
    ensures forall i | 0 <= i < |Take(SeededOrder(Band(pool, level), seed), n)| ::
              Take(SeededOrder(Band(pool, level), seed), n)[i].level == level
  {
    hide SeededOrder;
    var band := Band(pool, level);
    var order := SeededOrder(band, seed);
    PoolWithin(pool, [level]);
    forall i | 0 <= i < |order| ensures order[i].level == level {
      assert order[i] in multiset(order);
      assert order[i] in band;
    }
  }

  lemma ChosenBandStep(pool: seq<Task>, levels: seq<Level>, seats: seq<nat>, seed: int, level: Level)
    requires |levels| == |seats| && levels != [] && seats[|levels| - 1] <= |Band(pool, levels[|levels| - 1])|
    ensures var n := |levels| - 1;
            |Band(Chosen(pool, levels, seats, seed), level)|
            == |Band(Chosen(pool, levels[..n], seats[..n], seed), level)| + (if levels[n] == level then seats[n] else 0)
  {
    hide SeededOrder, Pool;
    var n := |levels| - 1;
    var part := Take(SeededOrder(Band(pool, levels[n]), seed), seats[n]);
    BandOfParts(Chosen(pool, levels[..n], seats[..n], seed), part, level);
    SeededBand(pool, levels[n], seed, seats[n]);
    BandUniform(part, levels[n], level);
  }

  /** Each listed band is drawn exactly as often as it has seats. */
  lemma {:induction false} ChosenBand(pool: seq<Task>, levels: seq<Level>, seats: seq<nat>, seed: int, level: Level)
    requires |levels| == |seats| && Distinct(levels)
    requires forall k | 0 <= k < |levels| :: seats[k] <= |Band(pool, levels[k])|
    ensures level !in levels ==> |Band(Chosen(pool, levels, seats, seed), level)| == 0
    ensures forall k | 0 <= k < |levels| && levels[k] == level ::
              |Band(Chosen(pool, levels, seats, seed), level)| == seats[k]
    decreases |levels|
  {
    hide SeededOrder, Pool, Band, Take;
    if levels == [] {
      NoTasks(level);
      assert Chosen(pool, levels, seats, seed) == [];
    } else {
      var n := |levels| - 1;
      ChosenBandStep(pool, levels, seats, seed, level);
      hide Chosen;
      ChosenBand(pool, levels[..n], seats[..n], seed, level);
      assert levels == levels[..n] + [levels[n]];
      forall k | 0 <= k < |levels| && levels[k] == level
        ensures |Band(Chosen(pool, levels, seats, seed), level)| == seats[k]
      {
        if k < n {
          assert levels[..n][k] == level && seats[..n][k] == seats[k] && levels[n] != level;
        } else {
          assert level !in levels[..n];
        }
      }
    }
  }

  lemma NoTasks(level: Level)
    ensures Band([], level) == []
  {}

  lemma SeatsFit(shares: Shares)
    requires shares.Valid()
    ensures forall k | 0 <= k < |shares.counts| :: Seats(shares)[k] <= shares.counts[k]
  {
    forall k | 0 <= k < |shares.counts| ensures Seats(shares)[k] <= shares.counts[k] {
      QuotaRule(shares, k);
    }
  }

  lemma {:induction false} SumAfter(s: Shares, r: nat)
    requires s.Valid() && r <= |s.counts|
    ensures Sum(SeatsAfter(s, r)) == Sum(s.Bases()) + r
  {
    hide Order;
    if r == 0 {
      NoneSeated(s);
    } else {
      SumAfter(s, r - 1);
      NextSeat(s, r - 1);
      SumUpdate(SeatsAfter(s, r - 1), Order(s)[r - 1], s.Base(Order(s)[r - 1]) + 1);
    }
  }

  lemma SeatsSum(s: Shares)
    requires s.Valid()
    ensures Sum(Seats(s)) == if Sum(s.Bases()) < s.size then s.size else Sum(s.Bases())
    ensures Sum(s.counts) == s.pool ==> Sum(s.Bases()) <= s.size
  {
    AllSeated(s);
    SumAfter(s, Left(s));
    if Sum(s.counts) == s.pool {
      SumOfShares(s, |s.counts|);
      assert s.Bases()[..|s.counts|] == s.Bases() && s.Remainders()[..|s.counts|] == s.Remainders();
      assert s.counts[..|s.counts|] == s.counts;
      SumNonNegative(s.Remainders());
      NotAbove(Sum(s.Bases()), s.size, s.pool);
    }
  }

  lemma NotAbove(x: int, y: int, d: nat)
    requires d > 0 && x * d <= d * y
    ensures x <= y
  {
    if x > y {
      ProductMonotone(y + 1, x, d);
      Distribute(y, 1, d);
    }
  }

  /** With no level listed twice, a size between one and the pool's yields exactly that many
      tasks of the pool, none taken twice, in report order, each band with its seats. */
  lemma SubsetIsExact(tasks: seq<Task>, size: real, levels: seq<Level>, seed: int)
    requires Distinct(levels) && 1.0 <= size < |Pool(tasks, levels)| as real
    ensures var pool := Pool(tasks, levels);
            var subset := Selection(tasks, Some(size), levels, seed);
            && WithinLevels(pool, levels) && 0 < size.Floor < |pool|
            && |subset| == size.Floor && multiset(subset) <= multiset(pool) && Sorted(subset)
            && forall k | 0 <= k < |levels| ::
                 |Band(subset, levels[k])| == Seats(SharesOf(pool, levels, size.Floor))[k]
  {
    hide Seats, SeededOrder, SortTasks, Chosen;
    var pool := Pool(tasks, levels);
    PoolWithin(tasks, levels);
    CountsCover(pool, levels);
    var shares := SharesOf(pool, levels, size.Floor);
    var seats := Seats(shares);
    SeatsFit(shares);
    SeatsSum(shares);
    var chosen := Chosen(pool, levels, seats, seed);
    ChosenLength(pool, levels, seats, seed);
    ChosenWithin(pool, levels, seats, seed);
    PoolOfPool(pool, levels);
    SortTasksSorts(chosen);
    assert |multiset(SortTasks(chosen))| == |multiset(chosen)|;
    forall k | 0 <= k < |levels| ensures |Band(SortTasks(chosen), levels[k])| == seats[k] {
      ChosenBand(pool, levels, seats, seed, levels[k]);
      BandSorted(chosen, levels[k]);
    }
  }

  /** Whatever the levels: the rounded-down shares are never given back. */
  lemma SelectionLength(tasks: seq<Task>, size: real, levels: seq<Level>, seed: int)
    requires 1.0 <= size < |Pool(tasks, levels)| as real
    ensures WithinLevels(Pool(tasks, levels), levels)
    ensures var bases := Sum(SharesOf(Pool(tasks, levels), levels, size.Floor).Bases());
            |Selection(tasks, Some(size), levels, seed)| == if bases < size.Floor then size.Floor else bases
  {
    hide Seats, SeededOrder, SortTasks, Chosen;
    var pool := Pool(tasks, levels);
    PoolWithin(tasks, levels);
    var shares := SharesOf(pool, levels, size.Floor);
    SeatsFit(shares);
    SeatsSum(shares);
    var chosen := Chosen(pool, levels, Seats(shares), seed);
    ChosenLength(pool, levels, Seats(shares), seed);
    SortTasksSorts(chosen);
    assert |multiset(SortTasks(chosen))| == |multiset(chosen)|;
  }

  /** So the subset has the size asked for exactly when those shares do not exceed it. */
  lemma SizeIff(tasks: seq<Task>, size: real, levels: seq<Level>, seed: int)
    requires 1.0 <= size < |Pool(tasks, levels)| as real
    ensures WithinLevels(Pool(tasks, levels), levels)
    ensures |Selection(tasks, Some(size), levels, seed)| == size.Floor
            <==> Sum(SharesOf(Pool(tasks, levels), levels, size.Floor).Bases()) <= size.Floor
  {
    hide Selection, SharesOf, Pool, Sum;
    SelectionLength(tasks, size, levels, seed);
  }

  /** A level listed twice can break it: two tasks come back where one was asked for. */
  lemma RepeatedLevel(seed: int)
    ensures var tasks := [Task(1, Easy), Task(2, Easy)];
            |Selection(tasks, Some(1.0), [Easy, Easy], seed)| == 2
  {
    var tasks, levels := [Task(1, Easy), Task(2, Easy)], [Easy, Easy];
    hide *;
    BothEasy(levels);
    PoolWithin(tasks, levels);
    assert (1.0).Floor == 1;
    SelectionLength(tasks, 1.0, levels, seed);
    RepeatedShares();
    RepeatedBases(SharesOf(tasks, levels, 1));
  }

  lemma RepeatedShares()
    ensures WithinLevels([Task(1, Easy), Task(2, Easy)], [Easy, Easy])
    ensures SharesOf([Task(1, Easy), Task(2, Easy)], [Easy, Easy], 1) == Shares([2, 2], 1, 2)
  {
    hide Pool;
    BothEasy([Easy]);
    assert Counts([Task(1, Easy), Task(2, Easy)], [Easy, Easy]) == [2, 2];
  }

  lemma RepeatedBases(shares: Shares)
    requires shares == Shares([2, 2], 1, 2) && shares.Valid()
    ensures Sum(shares.Bases()) == 2
  {
    assert shares.Bases() == [1, 1];
    SumOfPair(1, 1);
  }

  lemma SumOfPair(x: int, y: int)
    ensures Sum([x, y]) == x + y
  {
    var one, both: seq<int> := [x], [x, y];
    assert both[..|both| - 1] == one && one[..|one| - 1] == [];
    assert Sum(both) == Sum(one) + y;
  }

  lemma BothEasy(levels: seq<Level>)
    requires Easy in levels
    ensures Pool([Task(1, Easy), Task(2, Easy)], levels) == [Task(1, Easy), Task(2, Easy)]
  {
    var one, both := [Task(1, Easy)], [Task(1, Easy), Task(2, Easy)];
    assert one[..0] == [] && both[..1] == one;
    assert Pool([], levels) == [];
    assert Pool(one, levels) == one;
    assert Pool(both, levels) == one + [Task(2, Easy)];
  }

  // ---------- Levels listed twice ----------

  /** Two listings of one level both have a seat: their band is drawn from twice, from its start. */
  ghost predicate DrawnTwice(levels: seq<Level>, seats: seq<nat>)
    requires |levels| == |seats|
  {
    exists i, j :: 0 <= i < j < |levels| && levels[i] == levels[j] && seats[i] > 0 && seats[j] > 0
  }

  lemma TakeCounts(pool: seq<Task>, level: Level, seed: int, n: nat, t: Task)
    ensures multiset(Take(SeededOrder(Band(pool, level), seed), n))[t] <= multiset(pool)[t]
    ensures t.level != level || n == 0 ==> multiset(Take(SeededOrder(Band(pool, level), seed), n))[t] == 0
  {
    hide SeededOrder, Pool;
    var order := SeededOrder(Band(pool, level), seed);
    TakeWithin(order, n);
    BandCounts(pool, level, t);
  }

  lemma {:induction false} BandCounts(pool: seq<Task>, level: Level, t: Task)
    ensures multiset(Band(pool, level))[t] == if t.level == level then multiset(pool)[t] else 0
  {
    if pool != [] {
      var front, last := pool[..|pool| - 1], pool[|pool| - 1];
      assert pool == front + [last];
      BandCounts(front, level, t);
    }
  }

  /** Draws from the bands in sum: none of a task whose level has no seat, and never more than the
      pool holds unless a level is drawn from twice. */
  lemma {:induction false} ChosenCounts(pool: seq<Task>, levels: seq<Level>, seats: seq<nat>, seed: int, t: Task)
    requires |levels| == |seats|
    ensures (forall k | 0 <= k < |levels| && levels[k] == t.level :: seats[k] == 0) ==>
              multiset(Chosen(pool, levels, seats, seed))[t] == 0
    ensures !DrawnTwice(levels, seats) ==> multiset(Chosen(pool, levels, seats, seed))[t] <= multiset(pool)[t]
    decreases |levels|
  {
    hide SeededOrder, Band, Take;
    if levels != [] {
      var n := |levels| - 1;
      ChosenCounts(pool, levels[..n], seats[..n], seed, t);
      TakeCounts(pool, levels[n], seed, seats[n], t);
      assert forall k | 0 <= k < n :: levels[..n][k] == levels[k] && seats[..n][k] == seats[k];
    }
  }

  lemma {:induction false} ChosenTakes(pool: seq<Task>, levels: seq<Level>, seats: seq<nat>, seed: int, t: Task)
    requires |levels| == |seats| && Distinct(levels)
    ensures t.level !in levels ==> multiset(Chosen(pool, levels, seats, seed))[t] == 0
    ensures forall k | 0 <= k < |levels| && levels[k] == t.level ::
              multiset(Chosen(pool, levels, seats, seed))[t]
              == multiset(Take(SeededOrder(Band(pool, levels[k]), seed), seats[k]))[t]
    decreases |levels|
  {
    hide SeededOrder, Band, Take;
    if levels != [] {
      var n := |levels| - 1;
      assert levels == levels[..n] + [levels[n]];
      ChosenTakes(pool, levels[..n], seats[..n], seed, t);
      TakeCounts(pool, levels[n], seed, seats[n], t);
      assert forall k | 0 <= k < n :: levels[..n][k] == levels[k] && seats[..n][k] == seats[k];
      assert levels[n] !in levels[..n];
    }
  }

  /** What is selected of a band is the beginning of the band as the seed shuffles it. */
  lemma TakenFromTheFront(tasks: seq<Task>, size: real, levels: seq<Level>, seed: int, k: nat, t: Task)
    requires Distinct(levels) && 1.0 <= size < |Pool(tasks, levels)| as real
    requires k < |levels| && levels[k] == t.level
    ensures WithinLevels(Pool(tasks, levels), levels)
    ensures var pool := Pool(tasks, levels);
            var order, seats := SeededOrder(Band(pool, t.level), seed), Seats(SharesOf(pool, levels, size.Floor))[k];
            && 0 <= seats <= |order|
            && multiset(Selection(tasks, Some(size), levels, seed))[t] == multiset(order[..seats])[t]
  {
    hide Seats, SeededOrder, SortTasks, Chosen, Band;
    var pool := Pool(tasks, levels);
    PoolWithin(tasks, levels);
    var shares := SharesOf(pool, levels, size.Floor);
    SeatsFit(shares);
    var chosen := Chosen(pool, levels, Seats(shares), seed);
    SortTasksSorts(chosen);
    ChosenTakes(pool, levels, Seats(shares), seed, t);
  }

  /** No task is left out of the default levels. */
  lemma {:induction false} DefaultLevels(tasks: seq<Task>)
    ensures Pool(tasks, ALL_LEVELS) == tasks && Distinct(ALL_LEVELS)
  {
    assert ALL_LEVELS[0] == Easy && ALL_LEVELS[1] == Medium && ALL_LEVELS[2] == Hard;
    forall level: Level ensures level in ALL_LEVELS {
      match level case Easy => case Medium => case Hard =>
    }
    if tasks != [] {
      DefaultLevels(tasks[..|tasks| - 1]);
      assert tasks == tasks[..|tasks| - 1] + [tasks[|tasks| - 1]];
    }
  }

  ghost predicate ReportedBefore(a: Task, b: Task) {
    match a.level
    case Easy => b.level.Easy? ==> a.id <= b.id
    case Medium => b.level.Hard? || (b.level.Medium? && a.id <= b.id)
    case Hard => b.level.Hard? && a.id <= b.id
  }

  /** Easy tasks come first and hard ones last, and those of one level by id. */
  lemma SortedIff(tasks: seq<Task>)
    ensures Sorted(tasks) <==> forall i, j | 0 <= i < j < |tasks| :: ReportedBefore(tasks[i], tasks[j])
  {
    hide ReportedBefore, NoLater;
    forall a, b ensures NoLater(a, b) <==> ReportedBefore(a, b) {
      NoLaterIs(a, b);
    }
  }

  lemma NoLaterIs(a: Task, b: Task)
    ensures NoLater(a, b) <==> ReportedBefore(a, b)
  {}

  lemma DrawsFirst(pool: seq<Task>, level: Level, seed: int, n: nat)
    requires 0 < n <= |Band(pool, level)|
    ensures multiset(Take(SeededOrder(Band(pool, level), seed), n))[SeededOrder(Band(pool, level), seed)[0]] >= 1
  {
    hide SeededOrder, Band;
    var order := SeededOrder(Band(pool, level), seed);
    assert Take(order, n)[0] == order[0];
  }

  lemma ChosenLast(pool: seq<Task>, levels: seq<Level>, seats: seq<nat>, seed: int)
    requires |levels| == |seats| && levels != []
    ensures var n := |levels| - 1;
            Chosen(pool, levels, seats, seed)
            == Chosen(pool, levels[..n], seats[..n], seed) + Take(SeededOrder(Band(pool, levels[n]), seed), seats[n])
  {}

  /** A listing with a seat draws the first task of its shuffled band. */
  lemma {:induction false} FirstDrawn(pool: seq<Task>, levels: seq<Level>, seats: seq<nat>, seed: int, i: nat)
    requires |levels| == |seats| && i < |levels| && 0 < seats[i] <= |Band(pool, levels[i])|
    ensures multiset(Chosen(pool, levels, seats, seed))[SeededOrder(Band(pool, levels[i]), seed)[0]] >= 1
    decreases |levels|
  {
    hide SeededOrder, Band, Take, Chosen;
    var n := |levels| - 1;
    ChosenLast(pool, levels, seats, seed);
    if i < n {
      FirstDrawn(pool, levels[..n], seats[..n], seed, i);
    } else {
      DrawsFirst(pool, levels[n], seed, seats[n]);
    }
  }

  lemma {:induction false} FirstDrawnTwice(pool: seq<Task>, levels: seq<Level>, seats: seq<nat>, seed: int,
                                           i: nat, j: nat)
    requires |levels| == |seats| && i < j < |levels| && levels[i] == levels[j]
    requires 0 < seats[i] <= |Band(pool, levels[i])| && 0 < seats[j] <= |Band(pool, levels[j])|
    ensures multiset(Chosen(pool, levels, seats, seed))[SeededOrder(Band(pool, levels[i]), seed)[0]] >= 2
    decreases |levels|
  {
    hide SeededOrder, Band, Take, Chosen;
    var n := |levels| - 1;
    ChosenLast(pool, levels, seats, seed);
    if j < n {
      FirstDrawnTwice(pool, levels[..n], seats[..n], seed, i, j);
    } else {
      FirstDrawn(pool, levels[..n], seats[..n], seed, i);
      DrawsFirst(pool, levels[n], seed, seats[n]);
    }
  }

  lemma {:induction false} DistinctOnce(tasks: seq<Task>, t: Task)
    requires Distinct(tasks)
    ensures multiset(tasks)[t] <= 1
  {
    if tasks != [] {
      var front, last := tasks[..|tasks| - 1], tasks[|tasks| - 1];
      assert tasks == front + [last];
      DistinctOnce(front, t);
      assert last !in front;
    }
  }

  lemma {:induction false} PoolDistinct(tasks: seq<Task>, levels: seq<Level>)
    requires Distinct(tasks)
    ensures Distinct(Pool(tasks, levels)) && forall t :: t in Pool(tasks, levels) ==> t in tasks
  {
    if tasks != [] {
      var front, last := tasks[..|tasks| - 1], tasks[|tasks| - 1];
      assert tasks == front + [last] && last !in front;
      PoolDistinct(front, levels);
      assert forall k | 0 <= k < |Pool(front, levels)| :: Pool(front, levels)[k] in Pool(front, levels);
    }
  }

  /** No task is taken more often than the pool holds it, whatever the levels, unless two listings
      of one level both have a seat; with no task listed twice, exactly unless they do. */
  lemma TasksTakenOnceIff(tasks: seq<Task>, size: real, levels: seq<Level>, seed: int)
    requires 1.0 <= size < |Pool(tasks, levels)| as real
    ensures WithinLevels(Pool(tasks, levels), levels)
    ensures var pool := Pool(tasks, levels);
            var seats := Seats(SharesOf(pool, levels, size.Floor));
            var within := multiset(Selection(tasks, Some(size), levels, seed)) <= multiset(pool);
            && (!DrawnTwice(levels, seats) ==> within)
            && (Distinct(tasks) ==> (within <==> !DrawnTwice(levels, seats)))
  {
    hide Seats, SeededOrder, SortTasks, Chosen, Band, DrawnTwice;
    var pool := Pool(tasks, levels);
    PoolWithin(tasks, levels);
    var shares := SharesOf(pool, levels, size.Floor);
    var seats := Seats(shares);
    var chosen := Chosen(pool, levels, seats, seed);
    SortTasksSorts(chosen);
    SeatsFit(shares);
    forall t ensures !DrawnTwice(levels, seats) ==> multiset(chosen)[t] <= multiset(pool)[t] {
      ChosenCounts(pool, levels, seats, seed, t);
    }
    if Distinct(tasks) && DrawnTwice(levels, seats) {
      DrawnBeyond(tasks, levels, seats, seed);
    }
  }

  lemma DrawnBeyond(tasks: seq<Task>, levels: seq<Level>, seats: seq<nat>, seed: int)
    requires Distinct(tasks) && |levels| == |seats| && DrawnTwice(levels, seats)
    requires forall k | 0 <= k < |levels| :: seats[k] <= |Band(Pool(tasks, levels), levels[k])|
    ensures !(multiset(Chosen(Pool(tasks, levels), levels, seats, seed)) <= multiset(Pool(tasks, levels)))
  {
    hide SeededOrder, Chosen, Band, Pool;
    var pool := Pool(tasks, levels);
    var i, j :| 0 <= i < j < |levels| && levels[i] == levels[j] && seats[i] > 0 && seats[j] > 0;
    FirstDrawnTwice(pool, levels, seats, seed, i, j);
    PoolDistinct(tasks, levels);
    DistinctOnce(pool, SeededOrder(Band(pool, levels[i]), seed)[0]);
  }

  /** It happens at the size asked for, too: of three tasks asked for, the same hard one is two. */
  lemma RepeatedTask(seed: int)
    ensures var tasks := [Task(1, Easy), Task(2, Easy), Task(3, Easy), Task(4, Hard), Task(5, Hard)];
            var subset := Selection(tasks, Some(3.0), [Easy, Hard, Hard], seed);
            |subset| == 3 && !(multiset(subset) <= multiset(tasks))
  {
    var tasks := [Task(1, Easy), Task(2, Easy), Task(3, Easy), Task(4, Hard), Task(5, Hard)];
    var levels := [Easy, Hard, Hard];
    hide *;
    FiveTasks();
    assert (3.0).Floor == 3;
    SelectionLength(tasks, 3.0, levels, seed);
    TasksTakenOnceIff(tasks, 3.0, levels, seed);
    FiveShares();
    FiveSeats(SharesOf(tasks, levels, 3));
    FiveDistinct();
  }

  lemma FiveDistinct()
    ensures Distinct([Task(1, Easy), Task(2, Easy), Task(3, Easy), Task(4, Hard), Task(5, Hard)])
  {}

  lemma FiveTasks()
    ensures var tasks := [Task(1, Easy), Task(2, Easy), Task(3, Easy), Task(4, Hard), Task(5, Hard)];
            && Pool(tasks, [Easy, Hard, Hard]) == tasks
            && Counts(tasks, [Easy, Hard, Hard]) == [3, 2, 2]
  {
    hide Pool;
    var easy, hard := [Task(1, Easy), Task(2, Easy), Task(3, Easy)], [Task(4, Hard), Task(5, Hard)];
    var tasks := easy + hard;
    PoolOfPool(tasks, [Easy, Hard, Hard]);
    forall level | level == Easy || level == Hard
      ensures Band(tasks, level) == if level == Easy then easy else hard
    {
      BandOfParts(easy, hard, level);
      BandUniform(easy, Easy, level);
      BandUniform(hard, Hard, level);
    }
    assert tasks == [Task(1, Easy), Task(2, Easy), Task(3, Easy), Task(4, Hard), Task(5, Hard)];
  }

  lemma FiveShares()
    ensures var tasks := [Task(1, Easy), Task(2, Easy), Task(3, Easy), Task(4, Hard), Task(5, Hard)];
            && WithinLevels(tasks, [Easy, Hard, Hard])
            && SharesOf(tasks, [Easy, Hard, Hard], 3) == Shares([3, 2, 2], 3, 5)
  {
    hide Pool, Counts;
    FiveTasks();
  }

  lemma FiveSeats(shares: Shares)
    requires shares == Shares([3, 2, 2], 3, 5) && shares.Valid()
    ensures Sum(shares.Bases()) == 3 && DrawnTwice([Easy, Hard, Hard], Seats(shares))
  {
    hide Seats, Sum;
    assert shares.Bases() == [1, 1, 1];
    SumOfThree(1, 1, 1);
    QuotaRule(shares, 1);
    QuotaRule(shares, 2);
    var levels, seats := [Easy, Hard, Hard], Seats(shares);
    assert levels[1] == levels[2] && seats[1] > 0 && seats[2] > 0;
  }

  lemma SumOfThree(x: int, y: int, z: int)
    ensures Sum([x, y, z]) == x + y + z
  {
    var two, three: seq<int> := [x, y], [x, y, z];
    SumOfPair(x, y);
    assert three[..|three| - 1] == two;
    assert Sum(three) == Sum(two) + z;
  }
}
