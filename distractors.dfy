/**
 * Answer options (`generateAnswerOptions`, app.js:413-430): a set that starts
 * with the correct answer `c` grows by rejection sampling until it holds 4 or
 * 5 values. Each round draws `d = floor(random * 10)`, so the offset `d - 5`
 * ranges over -5..+4 (the source's comment says -5 to +5, but +5 cannot
 * occur); the candidate `c + d - 5` is kept when it is positive, differs from
 * `c` and is not already present. The source's loop has no bound; the model
 * consumes a finite supply of draws and reports when it runs out, and the
 * lemmas below show that from every reachable state a few more draws can
 * finish it, while some endless runs of draws never do.
 */
module Distractors {
  import opened Wrappers

  /** `Math.random() < 0.5 ? 4 : 5`. */
  function TargetSize(u: real): (n: nat)
    ensures n == 4 || n == 5
  {
    if u < 0.5 then 4 else 5
  }

  /** The number of values `Math.floor(Math.random() * 10)` can take. */
  const OffsetDraws: nat := 10

  predicate ValidDraws(draws: seq<nat>) {
    forall i :: 0 <= i < |draws| ==> draws[i] < OffsetDraws
  }

  function Candidate(c: int, d: nat): int {
    c + (d as int - 5)
  }

  /** `options.add(v)`: a JavaScript Set keeps insertion order and ignores duplicates. */
  function Add(opts: seq<int>, v: int): seq<int> {
    if v in opts then opts else opts + [v]
  }

  /** One round of the rejection loop. */
  function Step(c: int, opts: seq<int>, d: nat): seq<int> {
    var v := Candidate(c, d);
    if v > 0 && v != c then Add(opts, v) else opts
  }

  /** The loop of app.js:417-426 run on the draws `draws`, in insertion order. */
  function Fill(c: int, target: nat, opts: seq<int>, draws: seq<nat>): seq<int>
    decreases |draws|
  {
    if |opts| >= target || draws == [] then opts
    else Fill(c, target, Step(c, opts, draws[0]), draws[1..])
  }

  predicate Distinct(xs: seq<int>) {
    forall i, j :: 0 <= i < j < |xs| ==> xs[i] != xs[j]
  }

  /** A wrong answer the loop may keep: positive, not `c`, within the offset range. */
  predicate Distractor(c: int, v: int) {
    v > 0 && v != c && c - 5 <= v <= c + 4
  }

  /** What the set holds at every round: `c` first, then distinct distractors. */
  predicate Reachable(c: int, opts: seq<int>) {
    |opts| > 0 && opts[0] == c && Distinct(opts)
    && forall i :: 1 <= i < |opts| ==> Distractor(c, opts[i])
  }

  lemma StepKeeps(c: int, opts: seq<int>, d: nat)
    requires Reachable(c, opts) && d < OffsetDraws
    ensures Reachable(c, Step(c, opts, d))
    ensures |opts| <= |Step(c, opts, d)| <= |opts| + 1
    ensures Step(c, opts, d)[..|opts|] == opts
  {
    var v := Candidate(c, d);
    if v > 0 && v != c && v !in opts {
      var next := opts + [v];
      forall i, j | 0 <= i < j < |next| ensures next[i] != next[j] {
        if j == |opts| { assert next[i] in opts; }
      }
    }
  }

  lemma {:induction false} FillKeeps(c: int, target: nat, opts: seq<int>, draws: seq<nat>)
    requires Reachable(c, opts) && |opts| <= target && ValidDraws(draws)
    ensures Reachable(c, Fill(c, target, opts, draws))
    ensures |opts| <= |Fill(c, target, opts, draws)| <= target
    decreases |draws|
  {
    if |opts| < target && draws != [] {
      StepKeeps(c, opts, draws[0]);
      FillKeeps(c, target, Step(c, opts, draws[0]), draws[1..]);
    }
  }

  // ---------------------------------------------------------------- termination argument

  lemma DistinctCount(xs: seq<int>, c: int)
    requires Distinct(xs)
    requires c in xs && c + 1 in xs && c + 2 in xs && c + 3 in xs && c + 4 in xs
    ensures |xs| >= 5
  {
    var s := {c, c + 1, c + 2, c + 3, c + 4};
    assert |s| == 5;
    DistinctSetSize(xs);
    assert s <= set x | x in xs;
  }

  lemma {:induction false} DistinctSetSize(xs: seq<int>)
    requires Distinct(xs)
    ensures |set x | x in xs| == |xs|
  {
    if xs != [] {
      var init := xs[..|xs| - 1];
      DistinctSetSize(init);
      assert (set x | x in xs) == (set x | x in init) + {xs[|xs| - 1]} by {
        assert xs == init + [xs[|xs| - 1]];
      }
      assert xs[|xs| - 1] !in init;
    }
  }

  /**
   * While the set is short of its target (at most 5), some draw adds a value:
   * one of `c+1 .. c+4` (draws 6..9) is always admissible and missing. So every
   * round has probability at least 1/10 of progress and the loop ends with
   * probability 1.
   */
  lemma Progress(c: int, target: nat, opts: seq<int>) returns (d: nat)
    requires c >= 0 && target <= 5
    requires Reachable(c, opts) && |opts| < target
    ensures d < OffsetDraws && |Step(c, opts, d)| == |opts| + 1
  {
    if c + 1 !in opts {
      d := 6;
    } else if c + 2 !in opts {
      d := 7;
    } else if c + 3 !in opts {
      d := 8;
    } else if c + 4 !in opts {
      d := 9;
    } else {
      DistinctCount(opts, c);
      assert false;
    }
  }

  /** From every reachable state, `target - |opts|` suitable draws complete the set. */
  lemma {:induction false} Completion(c: int, target: nat, opts: seq<int>) returns (ds: seq<nat>)
    requires c >= 0 && target <= 5
    requires Reachable(c, opts) && |opts| <= target
    ensures ValidDraws(ds) && |ds| == target - |opts|
    ensures |Fill(c, target, opts, ds)| == target
    decreases target - |opts|
  {
    if |opts| == target {
      ds := [];
    } else {
      var d := Progress(c, target, opts);
      StepKeeps(c, opts, d);
      var rest := Completion(c, target, Step(c, opts, d));
      ds := [d] + rest;
      assert ds[1..] == rest;
    }
  }

  /** `n` draws of 0, that is `n` rounds with offset -5. */
  function Zeros(n: nat): (ds: seq<nat>)
    ensures |ds| == n && ValidDraws(ds)
  {
    if n == 0 then [] else [0] + Zeros(n - 1)
  }

  /**
   * The loop does not end on every sequence of draws: for `c <= 5` the offset
   * -5 gives a candidate of at most 0, which is always rejected, so any number
   * of such rounds leaves the set unchanged. The loop therefore ends with
   * probability 1 (by `Progress`), not on every run.
   */
  lemma {:induction false} RejectedDrawsStall(c: int, target: nat, opts: seq<int>, n: nat)
    requires c <= 5
    ensures Fill(c, target, opts, Zeros(n)) == opts
  {
    if n > 0 && |opts| < target {
      assert Zeros(n)[0] == 0 && Zeros(n)[1..] == Zeros(n - 1);
      RejectedDrawsStall(c, target, opts, n - 1);
    }
  }

  /** The draws 6, 7, 8, 9 (offsets +1..+4) always fill the set from the start. */
  lemma StraightDraws(c: int, target: nat)
    requires c >= 0 && (target == 4 || target == 5)
    ensures Fill(c, target, [c], [6, 7, 8, 9]) == [c, c + 1, c + 2, c + 3, c + 4][..target]
  {
    var ds: seq<nat> := [6, 7, 8, 9];
    assert ds[1..] == [7, 8, 9] && ds[1..][1..] == [8, 9] && ds[1..][1..][1..] == [9];
  }

  // ---------------------------------------------------------------- the operation

  /** The order produced by the random-comparator sort of app.js:429: a permutation of 0..n-1. */
  predicate IsPermutation(order: seq<nat>, n: nat) {
    |order| == n
    && (forall i :: 0 <= i < n ==> order[i] < n)
    && (forall k :: 0 <= k < n ==> k in order)
    && (forall i, j :: 0 <= i < j < n ==> order[i] != order[j])
  }

  /**
   * `generateAnswerOptions(c)` with the size draw `sizeDraw`, the offset draws
   * and the order of the final shuffle. When the draws suffice the options are
   * a permutation of the loop's set: 4 or 5 distinct values, `c` among them,
   * every other one a positive distractor within [c-5, c+4].
   */
  method GenerateAnswerOptions(c: int, sizeDraw: real, offsetDraws: seq<nat>, order: seq<nat>)
    returns (options: Option<seq<int>>)
    requires 0.0 <= sizeDraw < 1.0 && ValidDraws(offsetDraws)
    requires IsPermutation(order, TargetSize(sizeDraw))
    ensures var filled := Fill(c, TargetSize(sizeDraw), [c], offsetDraws);
            (options.Some? <==> |filled| == TargetSize(sizeDraw))
            && (options.Some? ==>
                  |options.value| == |filled| && forall i :: 0 <= i < |filled| ==> options.value[i] == filled[order[i]])
    ensures options.Some? ==>
              (|options.value| == 4 || |options.value| == 5) && c in options.value && Distinct(options.value)
              && forall x :: x in options.value && x != c ==> Distractor(c, x)
  {
    var numOptions := TargetSize(sizeDraw);
    var opts := [c];
    var i := 0;
    while |opts| < numOptions && i < |offsetDraws|
      invariant 0 <= i <= |offsetDraws|
      invariant Reachable(c, opts) && |opts| <= numOptions
      invariant Fill(c, numOptions, opts, offsetDraws[i..]) == Fill(c, numOptions, [c], offsetDraws)
    {
      var offset := offsetDraws[i] as int - 5;
      var wrongAnswer := c + offset;
      StepKeeps(c, opts, offsetDraws[i]);
      assert offsetDraws[i..][1..] == offsetDraws[i + 1..];
      if wrongAnswer > 0 && wrongAnswer != c {
        if wrongAnswer !in opts {
          opts := opts + [wrongAnswer];
        }
      }
      i := i + 1;
    }
    if |opts| < numOptions {
      return None;
    }
    var shuffled := seq(numOptions, k requires 0 <= k < numOptions => opts[order[k]]);
    forall a, b | 0 <= a < b < numOptions ensures shuffled[a] != shuffled[b] {
      assert order[a] != order[b];
    }
    assert c in shuffled by {
      assert 0 in order;
      var k :| 0 <= k < |order| && order[k] == 0;
      assert shuffled[k] == c;
    }
    forall x | x in shuffled && x != c ensures Distractor(c, x) {
      var k :| 0 <= k < numOptions && shuffled[k] == x;
      assert order[k] != 0;
    }
    options := Some(shuffled);
  }
}
