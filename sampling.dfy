/**
 * Weighted random selection without replacement (app.js:290-306). Each round
 * sums the weights of the remaining pool, scales one `Math.random()` result
 * `u` in [0, 1) to `r = u * total`, walks the pool subtracting weights until the
 * remainder is at most zero, takes that entry and splices it out.
 */
module Sampling {

  datatype Entry<T> = Entry(item: T, weight: nat)

  function Weights<T>(pool: seq<Entry<T>>): (w: seq<nat>)
    ensures |w| == |pool|
    ensures forall i :: 0 <= i < |pool| ==> w[i] == pool[i].weight
  {
    seq(|pool|, i requires 0 <= i < |pool| => pool[i].weight)
  }

  function Items<T>(pool: seq<Entry<T>>): (xs: seq<T>)
    ensures |xs| == |pool|
    ensures forall i :: 0 <= i < |pool| ==> xs[i] == pool[i].item
  {
    seq(|pool|, i requires 0 <= i < |pool| => pool[i].item)
  }

  /** The sum of the first `j` weights. */
  function Prefix(w: seq<nat>, j: nat): nat
    requires j <= |w|
  {
    if j == 0 then 0 else Prefix(w, j - 1) + w[j - 1]
  }

  /** The `reduce` of app.js:292. */
  function Total(w: seq<nat>): nat {
    Prefix(w, |w|)
  }

  lemma {:induction false} PrefixMonotone(w: seq<nat>, i: nat, j: nat)
    requires i <= j <= |w|
    ensures Prefix(w, i) <= Prefix(w, j)
    decreases j - i
  {
    if i < j {
      PrefixMonotone(w, i, j - 1);
    }
  }

  // ---------------------------------------------------------------- one draw

  function PickFrom(w: seq<nat>, r: real, k: nat): (j: nat)
    requires k <= |w|
    ensures j == 0 || k <= j < |w|
    decreases |w| - k
  {
    if k == |w| then 0
    else if (Prefix(w, k + 1) as real) >= r then k
    else PickFrom(w, r, k + 1)
  }

  /**
   * The index the inner loop of app.js:295-302 selects for the scaled draw `r`:
   * the first `j` whose running sum of weights reaches `r`, or 0 when there is none.
   */
  function Pick(w: seq<nat>, r: real): (j: nat)
    ensures |w| > 0 ==> j < |w|
  {
    PickFrom(w, r, 0)
  }

  lemma {:induction false} PickFromFirst(w: seq<nat>, r: real, k: nat)
    requires k < |w|
    requires forall m :: 1 <= m <= k ==> (Prefix(w, m) as real) < r
    requires r < Total(w) as real
    ensures PickFrom(w, r, k) < |w|
    ensures (Prefix(w, PickFrom(w, r, k) + 1) as real) >= r
    ensures forall m :: 1 <= m <= PickFrom(w, r, k) ==> (Prefix(w, m) as real) < r
    decreases |w| - k
  {
    if (Prefix(w, k + 1) as real) < r {
      PickFromFirst(w, r, k + 1);
    }
  }

  /**
   * For a draw in [0, total) the pick is the first index whose running sum
   * reaches the draw.
   */
  lemma PickIsFirstReaching(w: seq<nat>, r: real)
    requires 0.0 <= r < Total(w) as real
    ensures Pick(w, r) < |w|
    ensures (Prefix(w, Pick(w, r) + 1) as real) >= r
    ensures forall m :: 1 <= m <= Pick(w, r) ==> (Prefix(w, m) as real) < r
  {
    PickFromFirst(w, r, 0);
  }

  /**
   * Entry `j` is picked exactly for the draws in (Prefix(j), Prefix(j) + w[j]],
   * an interval as long as its weight: a uniform draw picks each entry with
   * probability proportional to its weight. A draw of exactly 0 picks entry 0.
   */
  lemma PickInterval(w: seq<nat>, r: real, j: nat)
    requires 0.0 < r < Total(w) as real
    requires j < |w|
    ensures Pick(w, r) == j <==> (Prefix(w, j) as real) < r <= (Prefix(w, j + 1) as real)
  {
    PickIsFirstReaching(w, r);
    var p := Pick(w, r);
    if p == j {
      if j > 0 {
        assert (Prefix(w, j) as real) < r;
      }
    } else if (Prefix(w, j) as real) < r <= (Prefix(w, j + 1) as real) {
      if p < j {
        PrefixMonotone(w, p + 1, j);
      }
    }
  }

  lemma PickOfZero(w: seq<nat>)
    requires |w| > 0
    ensures Pick(w, 0.0) == 0
  {
  }

  /** The inner loop of app.js:295-302, subtracting weights from the draw. */
  method SelectIndex(w: seq<nat>, r: real) returns (selected: nat)
    ensures selected == Pick(w, r)
  {
    var random := r;
    selected := 0;
    var j := 0;
    while j < |w|
      invariant 0 <= j <= |w|
      invariant random == r - (Prefix(w, j) as real)
      invariant Pick(w, r) == PickFrom(w, r, j)
    {
      random := random - (w[j] as real);
      if random <= 0.0 {
        selected := j;
        return;
      }
      j := j + 1;
    }
  }

  // ---------------------------------------------------------------- many draws

  function Remove<T>(pool: seq<Entry<T>>, j: nat): (rest: seq<Entry<T>>)
    requires j < |pool|
    ensures |rest| == |pool| - 1
  {
    pool[..j] + pool[j + 1..]
  }

  /** The scaled draw of a round: `Math.random() * totalWeight`. */
  function Scaled<T>(u: real, pool: seq<Entry<T>>): real {
    u * (Total(Weights(pool)) as real)
  }

  /**
   * The items the selection loop returns, in the order drawn, for at most `n`
   * rounds with the unit draws `us`.
   */
  function Sample<T>(pool: seq<Entry<T>>, us: seq<real>, n: nat): seq<T>
    requires |us| >= n
    decreases n
  {
    if n == 0 || |pool| == 0 then []
    else
      var j := Pick(Weights(pool), Scaled(us[0], pool));
      [pool[j].item] + Sample(Remove(pool, j), us[1..], n - 1)
  }

  function Min(a: nat, b: nat): nat {
    if a <= b then a else b
  }

  /** The selection returns `min(n, |pool|)` items: it stops when the pool is exhausted. */
  lemma {:induction false} SampleLength<T>(pool: seq<Entry<T>>, us: seq<real>, n: nat)
    requires |us| >= n
    ensures |Sample(pool, us, n)| == Min(n, |pool|)
    decreases n
  {
    if n > 0 && |pool| > 0 {
      var j := Pick(Weights(pool), Scaled(us[0], pool));
      SampleLength(Remove(pool, j), us[1..], n - 1);
    }
  }

  lemma RemoveItems<T>(pool: seq<Entry<T>>, j: nat)
    requires j < |pool|
    ensures forall x :: x in Items(Remove(pool, j)) ==> x in Items(pool)
    ensures forall i :: 0 <= i < |pool| - 1 ==>
              Remove(pool, j)[i] == (if i < j then pool[i] else pool[i + 1])
  {
    var rest := Remove(pool, j);
    forall x | x in Items(rest) ensures x in Items(pool) {
      var i :| 0 <= i < |rest| && Items(rest)[i] == x;
      assert x == (if i < j then pool[i] else pool[i + 1]).item;
    }
  }

  /** Every selected item comes from the pool. */
  lemma {:induction false} SampleFromPool<T>(pool: seq<Entry<T>>, us: seq<real>, n: nat)
    requires |us| >= n
    ensures forall x :: x in Sample(pool, us, n) ==> x in Items(pool)
    decreases n
  {
    if n > 0 && |pool| > 0 {
      var j := Pick(Weights(pool), Scaled(us[0], pool));
      SampleFromPool(Remove(pool, j), us[1..], n - 1);
      RemoveItems(pool, j);
    }
  }

  /** Splicing out entry `j` removes exactly one copy of its item. */
  lemma RemoveMultiset<T>(pool: seq<Entry<T>>, j: nat)
    requires j < |pool|
    ensures multiset(Items(pool)) == multiset(Items(Remove(pool, j))) + multiset{pool[j].item}
  {
    var xs := Items(pool);
    RemoveItems(pool, j);
    assert xs == xs[..j] + [pool[j].item] + xs[j + 1..];
    assert Items(Remove(pool, j)) == xs[..j] + xs[j + 1..];
  }

  /**
   * Selection is without replacement: every item is selected at most as often
   * as it occurs in the pool.
   */
  lemma {:induction false} SampleWithoutReplacement<T>(pool: seq<Entry<T>>, us: seq<real>, n: nat)
    requires |us| >= n
    ensures multiset(Sample(pool, us, n)) <= multiset(Items(pool))
    decreases n
  {
    if n > 0 && |pool| > 0 {
      var j := Pick(Weights(pool), Scaled(us[0], pool));
      SampleWithoutReplacement(Remove(pool, j), us[1..], n - 1);
      RemoveMultiset(pool, j);
    }
  }

  /** No two entries of `pool` have items with the same key. */
  predicate DistinctBy<T, K(==)>(xs: seq<T>, key: T -> K) {
    forall i, j :: 0 <= i < j < |xs| ==> key(xs[i]) != key(xs[j])
  }

  /**
   * When the pool's items have distinct keys, so do the selected ones: no
   * fact is asked twice in one test.
   */
  lemma {:induction false} SampleDistinct<T, K>(pool: seq<Entry<T>>, us: seq<real>, n: nat, key: T -> K)
    requires |us| >= n
    requires DistinctBy(Items(pool), key)
    ensures DistinctBy(Sample(pool, us, n), key)
    decreases n
  {
    if n > 0 && |pool| > 0 {
      var j := Pick(Weights(pool), Scaled(us[0], pool));
      var rest := Remove(pool, j);
      RemoveItems(pool, j);
      assert DistinctBy(Items(rest), key) by {
        forall a, b | 0 <= a < b < |rest| ensures key(Items(rest)[a]) != key(Items(rest)[b]) {
          var a' := if a < j then a else a + 1;
          var b' := if b < j then b else b + 1;
          assert Items(rest)[a] == Items(pool)[a'] && Items(rest)[b] == Items(pool)[b'];
        }
      }
      SampleDistinct(rest, us[1..], n - 1, key);
      SampleFromPool(rest, us[1..], n - 1);
      var tail := Sample(rest, us[1..], n - 1);
      forall i | 0 <= i < |tail| ensures key(pool[j].item) != key(tail[i]) {
        assert tail[i] in Items(rest);
        var a :| 0 <= a < |rest| && Items(rest)[a] == tail[i];
        var a' := if a < j then a else a + 1;
        assert Items(pool)[a'] == tail[i] && a' != j;
        assert Items(pool)[j] == pool[j].item;
      }
    }
  }

  lemma SampleStep<T>(pool: seq<Entry<T>>, us: seq<real>, n: nat)
    requires |us| >= n > 0 && |pool| > 0
    ensures var j := Pick(Weights(pool), Scaled(us[0], pool));
            Sample(pool, us, n) == [pool[j].item] + Sample(Remove(pool, j), us[1..], n - 1)
  {
  }

  /** Round `i` of the loop, in terms of the specification function. */
  lemma SampleAdvance<T>(pool: seq<Entry<T>>, us: seq<real>, n: nat, i: nat)
    requires i < n <= |us| && |pool| > 0
    ensures var j := Pick(Weights(pool), Scaled(us[i], pool));
            Sample(pool, us[i..], n - i) == [pool[j].item] + Sample(Remove(pool, j), us[i + 1..], n - i - 1)
  {
    SampleStep(pool, us[i..], n - i);
    assert us[i..][0] == us[i] && us[i..][1..] == us[i + 1..];
  }

  /** The selection loop of app.js:291-306. */
  method SampleLoop<T>(pool0: seq<Entry<T>>, us: seq<real>, n: nat) returns (picked: seq<T>)
    requires |us| >= n
    ensures picked == Sample(pool0, us, n)
  {
    var pool := pool0;
    picked := [];
    var i := 0;
    while i < n && |pool| > 0
      invariant 0 <= i <= n
      invariant picked + Sample(pool, us[i..], n - i) == Sample(pool0, us, n)
    {
      var random := Scaled(us[i], pool);
      var selectedIndex := SelectIndex(Weights(pool), random);
      SampleAdvance(pool, us, n, i);
      ghost var rest := Sample(Remove(pool, selectedIndex), us[i + 1..], n - i - 1);
      assert picked + ([pool[selectedIndex].item] + rest) == (picked + [pool[selectedIndex].item]) + rest;
      picked := picked + [pool[selectedIndex].item];
      pool := Remove(pool, selectedIndex);
      i := i + 1;
    }
  }

  /** A unit draw scaled to a positive total stays below it, so the pick always lands. */
  lemma ScaledBelowTotal<T>(u: real, pool: seq<Entry<T>>)
    requires 0.0 <= u < 1.0
    requires Total(Weights(pool)) > 0
    ensures 0.0 <= Scaled(u, pool) < Total(Weights(pool)) as real
  {
    var t := Total(Weights(pool)) as real;
    assert 0.0 < 1.0 - u && 0.0 < t;
    assert 0.0 < (1.0 - u) * t;
    assert u * t == t - (1.0 - u) * t;
    assert 0.0 <= u * t;
  }

  /** Every entry of the pool weighs at least 1, as every Leitner weight does. */
  predicate PositiveWeights<T>(pool: seq<Entry<T>>) {
    forall i :: 0 <= i < |pool| ==> pool[i].weight > 0
  }

  lemma {:induction false} PrefixAtLeast(w: seq<nat>, j: nat)
    requires j <= |w|
    requires forall i :: 0 <= i < |w| ==> w[i] > 0
    ensures Prefix(w, j) >= j
    decreases j
  {
    if j > 0 {
      PrefixAtLeast(w, j - 1);
    }
  }

  /** A pool of positive weights weighs at least its length. */
  lemma PositiveTotal<T>(pool: seq<Entry<T>>)
    requires PositiveWeights(pool)
    ensures Total(Weights(pool)) >= |pool|
  {
    PrefixAtLeast(Weights(pool), |pool|);
  }

  /**
   * The draw `r` lies in [0, total) and picks the first entry whose running
   * sum reaches it, not the fallback.
   */
  predicate LandsAt(w: seq<nat>, r: real) {
    var j := Pick(w, r);
    0.0 <= r < Total(w) as real
    && j < |w|
    && (Prefix(w, j + 1) as real) >= r
    && (forall m :: 1 <= m <= j ==> (Prefix(w, m) as real) < r)
  }

  /** Every round of the selection, on every pool left by the earlier rounds, lands. */
  predicate EveryRoundLands<T>(pool: seq<Entry<T>>, us: seq<real>, n: nat)
    requires |us| >= n
    decreases n
  {
    n == 0 || |pool| == 0 ||
      (LandsAt(Weights(pool), Scaled(us[0], pool))
       && EveryRoundLands(Remove(pool, Pick(Weights(pool), Scaled(us[0], pool))), us[1..], n - 1))
  }

  /** One round over a non-empty pool of positive weights lands. */
  lemma RoundLands<T>(pool: seq<Entry<T>>, u: real)
    requires 0.0 <= u < 1.0
    requires PositiveWeights(pool) && |pool| > 0
    ensures LandsAt(Weights(pool), Scaled(u, pool))
  {
    PositiveTotal(pool);
    ScaledBelowTotal(u, pool);
    PickIsFirstReaching(Weights(pool), Scaled(u, pool));
  }

  lemma RemoveKeepsPositive<T>(pool: seq<Entry<T>>, j: nat)
    requires j < |pool| && PositiveWeights(pool)
    ensures PositiveWeights(Remove(pool, j))
  {
    RemoveItems(pool, j);
    var rest := Remove(pool, j);
    forall i | 0 <= i < |rest| ensures rest[i].weight > 0 {
      assert rest[i] == (if i < j then pool[i] else pool[i + 1]);
    }
  }

  /**
   * With positive weights and unit draws in [0, 1), every round of the
   * selection, on every remaining sub-pool, lands on the first entry
   * reaching the scaled draw.
   */
  lemma {:induction false} SampleRoundsLand<T>(pool: seq<Entry<T>>, us: seq<real>, n: nat)
    requires |us| >= n
    requires forall i :: 0 <= i < |us| ==> 0.0 <= us[i] < 1.0
    requires PositiveWeights(pool)
    ensures EveryRoundLands(pool, us, n)
    decreases n
  {
    if n > 0 && |pool| > 0 {
      RoundLands(pool, us[0]);
      var j := Pick(Weights(pool), Scaled(us[0], pool));
      RemoveKeepsPositive(pool, j);
      SampleRoundsLand(Remove(pool, j), us[1..], n - 1);
    }
  }
}
