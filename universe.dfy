/**
 * The fact universe of test mode: every question the selected series and the
 * settings allow, in the order `generateSpacedRepetitionQuestions` pushes them
 * (app.js:219-266).
 */
module FactUniverse {
  import opened Keys
  import opened Questions

  function MulFacts(s: nat): seq<Question> {
    seq(MaxOperand, i requires 0 <= i => MulQuestion(s, i + 1))
  }

  function DivFacts(s: nat): seq<Question> {
    seq(MaxOperand, i requires 0 <= i => DivQuestion(s, i + 1))
  }

  /** What one series contributes (the body of the forEach of app.js:224-249). */
  function SeriesFacts(s: nat, settings: Settings): seq<Question> {
    MulFacts(s) + (if settings.enableDivision then DivFacts(s) else [])
  }

  function AllSeriesFacts(series: seq<nat>, settings: Settings): seq<Question>
    decreases |series|
  {
    if series == [] then []
    else AllSeriesFacts(series[..|series| - 1], settings) + SeriesFacts(series[|series| - 1], settings)
  }

  /** The square-root facts of the squares whose root passes the filter of app.js:256. */
  function SqrtFacts(squares: seq<nat>): seq<Question>
    decreases |squares|
  {
    if squares == [] then []
    else
      var init := SqrtFacts(squares[..|squares| - 1]);
      var sq := squares[|squares| - 1];
      if 1 <= IntRoot(sq) <= MaxOperand then init + [SqrtQuestion(sq)] else init
  }

  function Universe(series: seq<nat>, settings: Settings): seq<Question> {
    AllSeriesFacts(series, settings) + (if settings.enableSqrt then SqrtFacts(PerfectSquares) else [])
  }

  function KeysOf(qs: seq<Question>): (ks: seq<Key>)
    ensures |ks| == |qs|
    ensures forall i :: 0 <= i < |qs| ==> ks[i] == qs[i].key
  {
    seq(|qs|, i requires 0 <= i < |qs| => qs[i].key)
  }

  predicate DistinctKeys(qs: seq<Question>) {
    forall i, j :: 0 <= i < j < |qs| ==> qs[i].key != qs[j].key
  }

  // ---------------------------------------------------------------- the loops of app.js:224-266

  method BuildUniverse(series: seq<nat>, settings: Settings) returns (all: seq<Question>)
    ensures all == Universe(series, settings)
  {
    all := [];
    var k := 0;
    while k < |series|
      invariant 0 <= k <= |series|
      invariant all == AllSeriesFacts(series[..k], settings)
    {
      var s := series[k];
      ghost var before := all;
      var i := 1;
      while i <= MaxOperand
        invariant 1 <= i <= MaxOperand + 1
        invariant all == before + MulFacts(s)[..i - 1]
      {
        all := all + [MulQuestion(s, i)];
        assert MulFacts(s)[..i] == MulFacts(s)[..i - 1] + [MulQuestion(s, i)];
        i := i + 1;
      }
      assert MulFacts(s)[..MaxOperand] == MulFacts(s);
      if settings.enableDivision {
        ghost var afterMul := all;
        i := 1;
        while i <= MaxOperand
          invariant 1 <= i <= MaxOperand + 1
          invariant all == afterMul + DivFacts(s)[..i - 1]
        {
          var dividend := s * i;
          all := all + [Question(Div(dividend, s), i, Division)];
          assert DivFacts(s)[..i] == DivFacts(s)[..i - 1] + [DivQuestion(s, i)];
          i := i + 1;
        }
        assert DivFacts(s)[..MaxOperand] == DivFacts(s);
      }
      assert series[..k + 1][..k] == series[..k];
      k := k + 1;
    }
    assert series[..|series|] == series;
    if settings.enableSqrt {
      ghost var afterSeries := all;
      var perfectSquares := PerfectSquares;
      var j := 0;
      while j < |perfectSquares|
        invariant 0 <= j <= |perfectSquares|
        invariant all == afterSeries + SqrtFacts(perfectSquares[..j])
      {
        var square := perfectSquares[j];
        var root := IntRoot(square);
        if root >= 1 && root <= MaxOperand {
          all := all + [Question(Sqrt(square), root, SquareRoot)];
        }
        assert perfectSquares[..j + 1][..j] == perfectSquares[..j];
        j := j + 1;
      }
      assert perfectSquares[..|perfectSquares|] == perfectSquares;
    }
  }

  // ---------------------------------------------------------------- size

  lemma {:induction false} SqrtFactsAllPass(squares: seq<nat>)
    requires forall i :: 0 <= i < |squares| ==> 1 <= IntRoot(squares[i]) <= MaxOperand
    ensures |SqrtFacts(squares)| == |squares|
    ensures forall i :: 0 <= i < |squares| ==> SqrtFacts(squares)[i] == SqrtQuestion(squares[i])
    decreases |squares|
  {
    if squares != [] {
      SqrtFactsAllPass(squares[..|squares| - 1]);
    }
  }

  /** The twelve square-root facts, once, whatever the series. */
  lemma SqrtFactsAll()
    ensures |SqrtFacts(PerfectSquares)| == 12
    ensures forall i :: 0 <= i < 12 ==> SqrtFacts(PerfectSquares)[i] == SqrtQuestion(PerfectSquares[i])
  {
    forall i | 0 <= i < 12 ensures 1 <= IntRoot(PerfectSquares[i]) <= MaxOperand {
      RootsOfPerfectSquares(i);
    }
    SqrtFactsAllPass(PerfectSquares);
  }

  lemma {:induction false} AllSeriesFactsSize(series: seq<nat>, settings: Settings)
    ensures |AllSeriesFacts(series, settings)| == 12 * |series| * (if settings.enableDivision then 2 else 1)
    decreases |series|
  {
    if series != [] {
      AllSeriesFactsSize(series[..|series| - 1], settings);
    }
  }

  /** |universe| = 12 · |series| · (division ? 2 : 1) + (sqrt ? 12 : 0). */
  lemma UniverseSize(series: seq<nat>, settings: Settings)
    ensures |Universe(series, settings)|
         == 12 * |series| * (if settings.enableDivision then 2 else 1) + (if settings.enableSqrt then 12 else 0)
  {
    AllSeriesFactsSize(series, settings);
    SqrtFactsAll();
  }

  // ---------------------------------------------------------------- contents

  lemma {:induction false} AllSeriesFactsContents(series: seq<nat>, settings: Settings)
    ensures forall q :: q in AllSeriesFacts(series, settings) ==>
              WellFormed(q) && !q.key.Sqrt? && q.key.series in series
              && (q.kind == Multiplication || (settings.enableDivision && q.kind == Division))
    decreases |series|
  {
    if series != [] {
      var init := series[..|series| - 1];
      AllSeriesFactsContents(init, settings);
      forall q | q in AllSeriesFacts(series, settings)
        ensures WellFormed(q) && !q.key.Sqrt? && q.key.series in series
      {
        if q in AllSeriesFacts(init, settings) {
          assert q.key.series in init;
        } else {
          assert q.key.series == series[|series| - 1];
        }
      }
    }
  }

  /**
   * Every fact of the universe is well formed, of an enabled type, and belongs
   * to a selected series unless it is a square root.
   */
  lemma UniverseContents(series: seq<nat>, settings: Settings)
    ensures forall q :: q in Universe(series, settings) ==>
              WellFormed(q) && q.kind in EnabledTypes(settings)
              && (q.key.Sqrt? || q.key.series in series)
  {
    AllSeriesFactsContents(series, settings);
    SqrtFactsAll();
    forall q | q in Universe(series, settings)
      ensures WellFormed(q) && q.kind in EnabledTypes(settings)
    {
      if q !in AllSeriesFacts(series, settings) {
        var i :| 0 <= i < 12 && SqrtFacts(PerfectSquares)[i] == q;
        SqrtQuestionWellFormed(i);
      }
    }
  }

  // ---------------------------------------------------------------- distinct keys

  lemma DistinctKeysConcat(a: seq<Question>, b: seq<Question>)
    requires DistinctKeys(a) && DistinctKeys(b)
    requires forall x, y :: x in a && y in b ==> x.key != y.key
    ensures DistinctKeys(a + b)
  {
    forall i, j | 0 <= i < j < |a + b| ensures (a + b)[i].key != (a + b)[j].key {
      if j >= |a| && i < |a| {
        assert (a + b)[i] in a && (a + b)[j] in b;
      }
    }
  }

  lemma SeriesFactsDistinct(s: nat, settings: Settings)
    requires s >= 1
    ensures DistinctKeys(SeriesFacts(s, settings))
    ensures forall q :: q in SeriesFacts(s, settings) ==> !q.key.Sqrt? && q.key.series == s
  {
    assert DistinctKeys(MulFacts(s));
    forall i, j | 0 <= i < j < MaxOperand ensures DivFacts(s)[i].key != DivFacts(s)[j].key {
      assert s * (i + 1) < s * (j + 1);
    }
    DistinctKeysConcat(MulFacts(s), DivFacts(s));
  }

  lemma {:induction false} AllSeriesFactsDistinct(series: seq<nat>, settings: Settings)
    requires forall i, j :: 0 <= i < j < |series| ==> series[i] != series[j]
    requires forall i :: 0 <= i < |series| ==> series[i] >= 1
    ensures DistinctKeys(AllSeriesFacts(series, settings))
    decreases |series|
  {
    if series != [] {
      var init, last := series[..|series| - 1], series[|series| - 1];
      AllSeriesFactsDistinct(init, settings);
      AllSeriesFactsContents(init, settings);
      SeriesFactsDistinct(last, settings);
      DistinctKeysConcat(AllSeriesFacts(init, settings), SeriesFacts(last, settings));
    }
  }

  lemma SqrtFactsDistinct()
    ensures DistinctKeys(SqrtFacts(PerfectSquares))
    ensures forall q :: q in SqrtFacts(PerfectSquares) ==> q.key.Sqrt?
  {
    SqrtFactsAll();
    var facts := SqrtFacts(PerfectSquares);
    forall i, j | 0 <= i < j < 12 ensures facts[i].key != facts[j].key {
      PerfectSquaresAt(i);
      PerfectSquaresAt(j);
      SquareMonotone(i + 1, j + 1);
    }
  }

  /**
   * With distinct series, each at least 1, no two facts of the universe share a
   * key (keys are what the statistics are stored under).
   */
  lemma UniverseKeysDistinct(series: seq<nat>, settings: Settings)
    requires forall i, j :: 0 <= i < j < |series| ==> series[i] != series[j]
    requires forall i :: 0 <= i < |series| ==> series[i] >= 1
    ensures DistinctKeys(Universe(series, settings))
  {
    AllSeriesFactsDistinct(series, settings);
    AllSeriesFactsContents(series, settings);
    if settings.enableSqrt {
      SqrtFactsDistinct();
      DistinctKeysConcat(AllSeriesFacts(series, settings), SqrtFacts(PerfectSquares));
    }
  }

}
