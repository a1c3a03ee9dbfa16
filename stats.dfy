/**
 * Per-fact statistics: a map from fact key to `{correct, total}` counters
 * (the `stats` object of the application, app.js:494-513).
 */
module Stats {
  import opened Keys

  datatype FactStats = FactStats(correct: nat, total: nat)

  /** The record `getQuestionStats` creates for a key it has not seen. */
  const Fresh: FactStats := FactStats(0, 0)

  type StatsMap = map<Key, FactStats>

  /** Every record has at most as many correct answers as answers. */
  predicate Consistent(m: StatsMap) {
    forall k :: k in m ==> m[k].correct <= m[k].total
  }

  /** The record a read of `k` observes: the stored one, or a fresh one. */
  function Lookup(m: StatsMap, k: Key): (s: FactStats)
    ensures k in m ==> s == m[k]
    ensures k !in m ==> s == Fresh
  {
    if k in m then m[k] else Fresh
  }

  /** The side effect of `getQuestionStats(k)`: a missing key receives a fresh record. */
  function Touch(m: StatsMap, k: Key): (r: StatsMap)
    ensures r.Keys == m.Keys + {k}
    ensures forall k' :: k' in m ==> r[k'] == m[k']
    ensures k !in m ==> r[k] == Fresh
    ensures r[k] == Lookup(m, k)
  {
    if k in m then m else m[k := Fresh]
  }

  /** A read changes no lookup and keeps `correct <= total`. */
  lemma TouchKeeps(m: StatsMap, k: Key)
    ensures forall k' :: Lookup(Touch(m, k), k') == Lookup(m, k')
    ensures Consistent(m) ==> Consistent(Touch(m, k))
  {
  }

  /** The side effect of reading the keys `ks` one after the other. */
  function TouchAll(m: StatsMap, ks: seq<Key>): StatsMap
    decreases |ks|
  {
    if ks == [] then m else Touch(TouchAll(m, ks[..|ks| - 1]), ks[|ks| - 1])
  }

  /** Reading keys keeps `correct <= total`. */
  lemma TouchAllKeepsConsistent(m: StatsMap, ks: seq<Key>)
    ensures Consistent(m) ==> Consistent(TouchAll(m, ks))
  {
    TouchAllSpec(m, ks);
  }

  /**
   * Reading keys only adds fresh records for the keys not yet present; every
   * existing record and every lookup stays as it was.
   */
  lemma {:induction false} TouchAllSpec(m: StatsMap, ks: seq<Key>)
    ensures TouchAll(m, ks).Keys == m.Keys + set k | k in ks
    ensures forall k :: k in m ==> TouchAll(m, ks)[k] == m[k]
    ensures forall k :: k in TouchAll(m, ks) && k !in m ==> TouchAll(m, ks)[k] == Fresh
    ensures forall k :: Lookup(TouchAll(m, ks), k) == Lookup(m, k)
    ensures Consistent(m) ==> Consistent(TouchAll(m, ks))
  {
    if ks != [] {
      var init := ks[..|ks| - 1];
      TouchAllSpec(m, init);
      assert (set k | k in ks) == (set k | k in init) + {ks[|ks| - 1]} by {
        assert ks == init + [ks[|ks| - 1]];
      }
    }
  }

  /** One instance of `TouchAllSpec`: reading keys leaves the lookup of `k` unchanged. */
  lemma TouchAllLookup(m: StatsMap, ks: seq<Key>, k: Key)
    ensures Lookup(TouchAll(m, ks), k) == Lookup(m, k)
  {
    TouchAllSpec(m, ks);
  }

  lemma {:induction false} TouchAllConcat(m: StatsMap, a: seq<Key>, b: seq<Key>)
    ensures TouchAll(m, a + b) == TouchAll(TouchAll(m, a), b)
    decreases |b|
  {
    if b == [] {
      assert a + b == a;
    } else {
      var init := b[..|b| - 1];
      assert (a + b)[..|a + b| - 1] == a + init;
      TouchAllConcat(m, a, init);
    }
  }

  /**
   * The new map after `updateQuestionStats(k, isCorrect)`: the record of `k`
   * (fresh if missing) gains one answer, and one correct answer when
   * `isCorrect`; no other key changes.
   */
  function Record(m: StatsMap, k: Key, isCorrect: bool): (r: StatsMap)
    ensures r.Keys == m.Keys + {k}
    ensures r[k].total == Lookup(m, k).total + 1
    ensures r[k].correct == Lookup(m, k).correct + (if isCorrect then 1 else 0)
    ensures forall k' :: k' in m && k' != k ==> r[k'] == m[k']
  {
    var s := Lookup(m, k);
    m[k := FactStats(if isCorrect then s.correct + 1 else s.correct, s.total + 1)]
  }

  /** Recording an answer keeps `0 <= correct <= total` for every key. */
  lemma RecordKeepsConsistent(m: StatsMap, k: Key, isCorrect: bool)
    requires Consistent(m)
    ensures Consistent(Record(m, k, isCorrect))
  {
  }

  /** Repeated answers accumulate: two records add two answers. */
  lemma RecordAccumulates(m: StatsMap, k: Key, a: bool, b: bool)
    ensures Lookup(Record(Record(m, k, a), k, b), k).total == Lookup(m, k).total + 2
    ensures Lookup(Record(Record(m, k, a), k, b), k).correct
         == Lookup(m, k).correct + (if a then 1 else 0) + (if b then 1 else 0)
  {
  }
}
