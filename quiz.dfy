/**
 * The application object `MathTrainingApp` (app.js:4-577) without its DOM
 * work: the statistics map, the settings, and the quiz in progress (question
 * list and index), with the operations that change them.
 */
module Quiz {
  import opened Wrappers
  import opened Keys
  import opened Stats
  import opened Leitner
  import opened Questions
  import opened FactUniverse
  import opened Sampling

  datatype Mode = NoMode | TrainingMode | TestMode

  // ---------------------------------------------------------------- test mode

  /** The weighted list of app.js:269-288: each fact with the weight of its record. */
  function WeightedPool(all: seq<Question>, stats: StatsMap): (pool: seq<Entry<Question>>)
    ensures Items(pool) == all
    ensures forall i :: 0 <= i < |all| ==> pool[i].weight == Weight(Lookup(stats, all[i].key))
    ensures PositiveWeights(pool)
  {
    seq(|all|, i requires 0 <= i < |all| => Entry(all[i], Weight(Lookup(stats, all[i].key))))
  }

  /** The pool's total weight is at least the number of facts, so a non-empty pool has a positive total. */
  lemma WeightedPoolTotal(all: seq<Question>, stats: StatsMap)
    ensures Total(Weights(WeightedPool(all, stats))) >= |all|
  {
    PositiveTotal(WeightedPool(all, stats));
  }

  /** A supply of `Math.random()` results, one per requested question. */
  predicate ValidUnitDraws(us: seq<real>, count: nat) {
    |us| >= count && forall i :: 0 <= i < |us| ==> 0.0 <= us[i] < 1.0
  }

  /** The questions test mode asks, in the order drawn. */
  function TestQuestions(series: seq<nat>, settings: Settings, stats: StatsMap, us: seq<real>, count: nat)
    : seq<Question>
    requires |us| >= count
  {
    Sample(WeightedPool(Universe(series, settings), stats), us, count)
  }

  /**
   * Test mode asks `min(count, |universe|)` questions, every one a fact of the
   * universe: well formed and of an enabled type.
   */
  lemma TestQuestionsSpec(series: seq<nat>, settings: Settings, stats: StatsMap, us: seq<real>, count: nat)
    requires |us| >= count
    ensures var qs := TestQuestions(series, settings, stats, us, count);
            |qs| == Min(count, |Universe(series, settings)|)
            && (forall q :: q in qs ==> q in Universe(series, settings))
            && (forall q :: q in qs ==> WellFormed(q) && q.kind in EnabledTypes(settings))
  {
    var pool := WeightedPool(Universe(series, settings), stats);
    SampleLength(pool, us, count);
    SampleFromPool(pool, us, count);
    UniverseContents(series, settings);
  }

  /** With distinct series, each at least 1, a test never asks the same fact twice. */
  lemma TestQuestionsDistinct(series: seq<nat>, settings: Settings, stats: StatsMap, us: seq<real>, count: nat)
    requires |us| >= count
    requires forall i, j :: 0 <= i < j < |series| ==> series[i] != series[j]
    requires forall i :: 0 <= i < |series| ==> series[i] >= 1
    ensures DistinctKeys(TestQuestions(series, settings, stats, us, count))
  {
    var pool := WeightedPool(Universe(series, settings), stats);
    UniverseKeysDistinct(series, settings);
    var key := (q: Question) => q.key;
    assert DistinctBy(Items(pool), key);
    SampleDistinct(pool, us, count, key);
  }

  /**
   * Every round of a test, on every pool left after the earlier picks, draws
   * below the remaining total weight and so picks the first fact whose running
   * weight reaches the draw.
   */
  lemma TestRoundsLand(series: seq<nat>, settings: Settings, stats: StatsMap, us: seq<real>, count: nat)
    requires ValidUnitDraws(us, count)
    ensures EveryRoundLands(WeightedPool(Universe(series, settings), stats), us, count)
  {
    SampleRoundsLand(WeightedPool(Universe(series, settings), stats), us, count);
  }

  lemma MulFactsOfSeries(s: nat)
    ensures |MulFacts(s)| == 12
    ensures forall q :: q in MulFacts(s) ==> q.kind == Multiplication && q.key.Mul? && q.key.series == s
  {
  }

  lemma SingleSeriesUniverse(s: nat)
    ensures Universe([s], Settings(false, false)) == MulFacts(s)
  {
    var settings := Settings(false, false);
    assert [s][..0] == [];
    assert AllSeriesFacts([s], settings) == [] + SeriesFacts(s, settings);
    assert SeriesFacts(s, settings) == MulFacts(s) + [];
  }

  /**
   * A test over one series with division and square roots off: the universe
   * is exactly s×1 .. s×12, and a test of `count` questions asks
   * `min(count, 12)` distinct multiplication facts of that series (for the
   * 7 series and 5 questions: 5 distinct facts 7×m).
   */
  lemma SingleSeriesExample(s: nat, stats: StatsMap, us: seq<real>, count: nat)
    requires s >= 1 && |us| >= count
    ensures Universe([s], Settings(false, false)) == MulFacts(s)
    ensures var qs := TestQuestions([s], Settings(false, false), stats, us, count);
            |qs| == Min(count, 12) && DistinctKeys(qs)
            && forall q :: q in qs ==> q.kind == Multiplication && q.key.Mul? && q.key.series == s
  {
    var settings := Settings(false, false);
    SingleSeriesUniverse(s);
    TestQuestionsSpec([s], settings, stats, us, count);
    TestQuestionsDistinct([s], settings, stats, us, count);
    MulFactsOfSeries(s);
  }

  // ---------------------------------------------------------------- progression and display

  /** What `showQuestion` shows: the end of the quiz, or a question with its counter and progress. */
  datatype Screen =
    | Finished
    | Showing(question: Question, counter: nat, count: nat, progressPercent: real)

  function ScreenAt(questions: seq<Question>, index: nat): (s: Screen)
    ensures s.Finished? <==> index >= |questions|
    ensures s.Showing? ==>
              s.question == questions[index] && s.counter == index + 1 && s.count == |questions|
              && 1 <= s.counter <= s.count && 0.0 <= s.progressPercent < 100.0
              && s.progressPercent == (index as real) / (|questions| as real) * 100.0
  {
    if index >= |questions| then Finished
    else
      var n := |questions| as real;
      var fraction := (index as real) / n;
      assert fraction * n == index as real;
      Showing(questions[index], index + 1, |questions|, fraction * 100.0)
  }

  /** `selectedAnswer === correctAnswer`. */
  predicate IsCorrect(selectedAnswer: int, correctAnswer: int) {
    selectedAnswer == correctAnswer
  }

  // ---------------------------------------------------------------- statistics screen

  function GridRow(s: nat): seq<Key> {
    seq(11, b requires 0 <= b => Mul(s, b + 2))
  }

  /** The keys of the rows 2 .. s-1 of the statistics screen, row by row. */
  function GridRowsBelow(s: nat): seq<Key>
    decreases s
  {
    if s <= 2 then [] else GridRowsBelow(s - 1) + GridRow(s - 1)
  }

  /** The keys `${s}x${i}` the statistics screen reads, for s and i in 2..12. */
  function GridKeys(): seq<Key> {
    GridRowsBelow(13)
  }

  lemma {:induction false} GridRowsBelowCover(s: nat)
    requires s >= 2
    ensures forall k :: k in GridRowsBelow(s) <==> k.Mul? && 2 <= k.series < s && 2 <= k.operand <= 12
    decreases s
  {
    if s > 2 {
      GridRowsBelowCover(s - 1);
      forall k: Key | k.Mul? && k.series == s - 1 && 2 <= k.operand <= 12 ensures k in GridRow(s - 1) {
        assert GridRow(s - 1)[k.operand - 2] == k;
      }
    }
  }

  /** The screen covers exactly the multiplication facts with series and operand in 2..12. */
  lemma GridKeysCover()
    ensures |GridKeys()| == 121
    ensures forall k :: k in GridKeys() <==> k.Mul? && 2 <= k.series <= 12 && 2 <= k.operand <= 12
  {
    GridRowsBelowCover(13);
    GridRowsBelowSize(13);
  }

  lemma {:induction false} GridRowsBelowSize(s: nat)
    requires s >= 2
    ensures |GridRowsBelow(s)| == 11 * (s - 2)
    decreases s
  {
    if s > 2 { GridRowsBelowSize(s - 1); }
  }

  /** The colours of one row of the statistics screen: column `b` is operand b+2. */
  function StatsRow(stats: StatsMap, s: nat): seq<Band> {
    seq(11, b requires 0 <= b => BandOf(Lookup(stats, Mul(s, b + 2))))
  }

  /** The colours of the statistics screen: row `a` is series a+2. */
  function StatsGrid(stats: StatsMap): seq<seq<Band>> {
    seq(11, a requires 0 <= a => StatsRow(stats, a + 2))
  }

  /** Reading records never changes the colours the screen shows. */
  lemma StatsRowUnread(m: StatsMap, ks: seq<Key>, s: nat)
    ensures StatsRow(TouchAll(m, ks), s) == StatsRow(m, s)
  {
    forall b | 0 <= b < 11 ensures StatsRow(TouchAll(m, ks), s)[b] == StatsRow(m, s)[b] {
      TouchAllLookup(m, ks, Mul(s, b + 2));
    }
  }

  // ---------------------------------------------------------------- the application object

  class MathTrainingApp {
    var currentMode: Mode
    var selectedSeries: seq<nat>
    var currentQuestions: seq<Question>
    var currentQuestionIndex: nat
    var questionCount: nat
    var stats: StatsMap
    var settings: Settings

    /** The statistics never record more correct answers than answers. */
    predicate Valid()
      reads this
    {
      Consistent(stats)
    }

    /**
     * `new MathTrainingApp()` given what storage holds (`None` when nothing is
     * stored); its `init` draws the statistics screen, which reads the grid keys.
     */
    constructor (storedStats: Option<StatsMap>, storedSettings: Option<Settings>)
      ensures currentMode == NoMode && selectedSeries == [] && currentQuestions == []
      ensures currentQuestionIndex == 0 && questionCount == 10
      ensures settings == storedSettings.GetOr(DefaultSettings)
      ensures stats == TouchAll(storedStats.GetOr(map[]), GridKeys())
      ensures Consistent(storedStats.GetOr(map[])) ==> Valid()
    {
      currentMode := NoMode;
      selectedSeries := [];
      currentQuestions := [];
      currentQuestionIndex := 0;
      questionCount := 10;
      stats := storedStats.GetOr(map[]);
      settings := storedSettings.GetOr(DefaultSettings);
      new;
      var _ := UpdateStatistics();
      TouchAllKeepsConsistent(storedStats.GetOr(map[]), GridKeys());
    }

    // ------------------------------------------------------------ statistics

    /** `getQuestionStats(key)`: returns the record, creating a fresh one if the key is missing. */
    method GetQuestionStats(key: Key) returns (s: FactStats)
      modifies this`stats
      ensures s == Lookup(old(stats), key)
      ensures stats == Touch(old(stats), key)
      ensures stats[key] == s
      ensures old(Valid()) ==> Valid()
    {
      if key !in stats {
        stats := stats[key := Fresh];
      }
      s := stats[key];
      TouchKeeps(old(stats), key);
    }

    /** `updateQuestionStats(key, isCorrect)`; saving to storage is not modelled. */
    method UpdateQuestionStats(key: Key, isCorrect: bool)
      modifies this`stats
      ensures stats == Record(old(stats), key, isCorrect)
      ensures old(Valid()) ==> Valid()
    {
      var s := GetQuestionStats(key);
      var total := s.total + 1;
      var correct := if isCorrect then s.correct + 1 else s.correct;
      stats := stats[key := FactStats(correct, total)];
      if Consistent(old(stats)) {
        RecordKeepsConsistent(old(stats), key, isCorrect);
      }
    }

    /**
     * `resetStats()`: empties the map and redraws the statistics screen, which
     * reads the 121 grid keys again; every lookup afterwards sees a fresh record.
     */
    method ResetStats()
      modifies this`stats
      ensures stats == TouchAll(map[], GridKeys())
      ensures stats.Keys == set k | k in GridKeys()
      ensures forall k :: Lookup(stats, k) == Fresh
      ensures Valid()
    {
      stats := map[];
      var _ := UpdateStatistics();
      TouchAllSpec(map[], GridKeys());
    }

    /**
     * `updateStatistics()`: the colour of every grid cell, read through
     * `getQuestionStats`, which adds fresh records for the grid keys not yet present.
     */
    method UpdateStatistics() returns (grid: seq<seq<Band>>)
      modifies this`stats
      ensures grid == StatsGrid(old(stats))
      ensures stats == TouchAll(old(stats), GridKeys())
      ensures old(Valid()) ==> Valid()
    {
      ghost var m0 := stats;
      grid := [];
      var series := 2;
      while series <= 12
        invariant 2 <= series <= 13
        invariant stats == TouchAll(m0, GridRowsBelow(series))
        invariant grid == StatsGrid(m0)[..series - 2]
      {
        var row := UpdateSeriesStatistics(series);
        TouchAllConcat(m0, GridRowsBelow(series), GridRow(series));
        StatsRowUnread(m0, GridRowsBelow(series), series);
        assert row == StatsRow(m0, series) == StatsGrid(m0)[series - 2];
        assert StatsGrid(m0)[..series - 1] == StatsGrid(m0)[..series - 2] + [StatsGrid(m0)[series - 2]];
        grid := grid + [row];
        series := series + 1;
      }
      TouchAllKeepsConsistent(m0, GridKeys());
    }

    /** One series of the statistics screen (the inner loop of app.js:533-571). */
    method UpdateSeriesStatistics(series: nat) returns (row: seq<Band>)
      modifies this`stats
      ensures row == StatsRow(old(stats), series)
      ensures stats == TouchAll(old(stats), GridRow(series))
      ensures old(Valid()) ==> Valid()
    {
      ghost var m0 := stats;
      row := [];
      var i := 2;
      assert GridRow(series)[..0] == [];
      while i <= 12
        invariant 2 <= i <= 13
        invariant stats == TouchAll(m0, GridRow(series)[..i - 2])
        invariant row == StatsRow(m0, series)[..i - 2]
      {
        var key := Mul(series, i);
        TouchAllLookup(m0, GridRow(series)[..i - 2], key);
        var s := GetQuestionStats(key);
        row := row + [BandOf(s)];
        assert StatsRow(m0, series)[..i - 1] == StatsRow(m0, series)[..i - 2] + [BandOf(s)];
        assert GridRow(series)[..i - 1] == GridRow(series)[..i - 2] + [key];
        i := i + 1;
      }
      assert GridRow(series)[..11] == GridRow(series);
      assert StatsRow(m0, series)[..11] == StatsRow(m0, series);
      TouchAllKeepsConsistent(m0, GridRow(series));
    }

    // ------------------------------------------------------------ question lists

    /**
     * `generateSpacedRepetitionQuestions()` with the unit draws `us`: the
     * weighted selection over the universe; reading each fact's record adds
     * fresh records for the facts never seen.
     */
    method GenerateSpacedRepetitionQuestions(us: seq<real>) returns (questions: seq<Question>)
      requires ValidUnitDraws(us, questionCount)
      modifies this`stats
      ensures questions == TestQuestions(selectedSeries, settings, old(stats), us, questionCount)
      ensures stats == TouchAll(old(stats), KeysOf(Universe(selectedSeries, settings)))
      ensures old(Valid()) ==> Valid()
    {
      var all := BuildUniverse(selectedSeries, settings);
      var weightedQuestions := WeighFacts(all);
      questions := SampleLoop(weightedQuestions, us, questionCount);
    }

    /** The `map` of app.js:269-288: each fact with the weight of the record read for it. */
    method WeighFacts(all: seq<Question>) returns (weightedQuestions: seq<Entry<Question>>)
      modifies this`stats
      ensures weightedQuestions == WeightedPool(all, old(stats))
      ensures stats == TouchAll(old(stats), KeysOf(all))
      ensures old(Valid()) ==> Valid()
    {
      ghost var m0 := stats;
      weightedQuestions := [];
      var i := 0;
      while i < |all|
        invariant 0 <= i <= |all|
        invariant stats == TouchAll(m0, KeysOf(all)[..i])
        invariant weightedQuestions == WeightedPool(all, m0)[..i]
      {
        TouchAllLookup(m0, KeysOf(all)[..i], all[i].key);
        var s := GetQuestionStats(all[i].key);
        weightedQuestions := weightedQuestions + [Entry(all[i], Weight(s))];
        assert KeysOf(all)[..i + 1] == KeysOf(all)[..i] + [all[i].key];
        assert (KeysOf(all)[..i] + [all[i].key])[..i] == KeysOf(all)[..i];
        i := i + 1;
      }
      assert KeysOf(all)[..|all|] == KeysOf(all);
      assert WeightedPool(all, m0)[..|all|] == WeightedPool(all, m0);
      TouchAllKeepsConsistent(m0, KeysOf(all));
    }

    /**
     * `generateQuestions()`: test mode selects by weight, any other mode builds
     * `questionCount` training questions; the index restarts at 0.
     */
    method GenerateQuestions(draws: seq<TrainingDraw>, us: seq<real>)
      requires currentMode == TestMode ==> ValidUnitDraws(us, questionCount)
      requires currentMode != TestMode ==>
                 ValidTrainingDraws(draws, |selectedSeries|, |EnabledTypes(settings)|, questionCount)
      modifies this`currentQuestions, this`currentQuestionIndex, this`stats
      ensures currentQuestionIndex == 0
      ensures currentMode == TestMode ==>
                currentQuestions == TestQuestions(selectedSeries, settings, old(stats), us, questionCount)
                && stats == TouchAll(old(stats), KeysOf(Universe(selectedSeries, settings)))
      ensures currentMode != TestMode ==>
                currentQuestions == TrainingDeck(selectedSeries, settings, draws, questionCount)
                && stats == old(stats)
      ensures old(Valid()) ==> Valid()
    {
      currentQuestions := [];
      if currentMode == TestMode {
        currentQuestions := GenerateSpacedRepetitionQuestions(us);
      } else {
        currentQuestions := TrainingQuestions(selectedSeries, settings, draws, questionCount);
      }
      currentQuestionIndex := 0;
    }

    /** `startTraining([series])` up to the first question. */
    method StartTraining(series: nat, draws: seq<TrainingDraw>)
      requires ValidTrainingDraws(draws, 1, |EnabledTypes(settings)|, questionCount)
      modifies this
      ensures currentMode == TrainingMode && selectedSeries == [series]
      ensures settings == old(settings) && questionCount == old(questionCount)
      ensures currentQuestions == TrainingDeck([series], old(settings), draws, old(questionCount))
      ensures currentQuestionIndex == 0 && stats == old(stats)
      ensures old(Valid()) ==> Valid()
    {
      currentMode := TrainingMode;
      selectedSeries := [series];
      GenerateQuestions(draws, []);
    }

    /**
     * `startTest()` with the checked series: with none checked it stops before
     * generating anything (after recording the mode and the empty selection).
     */
    method StartTest(checked: seq<nat>, us: seq<real>) returns (started: bool)
      requires |checked| > 0 ==> ValidUnitDraws(us, questionCount)
      modifies this
      ensures currentMode == TestMode && selectedSeries == checked
      ensures settings == old(settings) && questionCount == old(questionCount)
      ensures started <==> |checked| > 0
      ensures !started ==>
                currentQuestions == old(currentQuestions)
                && currentQuestionIndex == old(currentQuestionIndex) && stats == old(stats)
      ensures started ==>
                currentQuestions == TestQuestions(checked, old(settings), old(stats), us, old(questionCount))
                && currentQuestionIndex == 0
                && stats == TouchAll(old(stats), KeysOf(Universe(checked, old(settings))))
      ensures old(Valid()) ==> Valid()
    {
      currentMode := TestMode;
      selectedSeries := checked;
      if |selectedSeries| == 0 {
        return false;
      }
      GenerateQuestions([], us);
      started := true;
    }

    // ------------------------------------------------------------ answering

    /** What `showQuestion()` shows for the current index. */
    function CurrentScreen(): Screen
      reads this
    {
      ScreenAt(currentQuestions, currentQuestionIndex)
    }

    /** `handleAnswer(selected, correct, key)` up to the delayed advance: records the outcome. */
    method HandleAnswer(selectedAnswer: int, correctAnswer: int, questionKey: Key) returns (isCorrect: bool)
      modifies this`stats
      ensures isCorrect <==> selectedAnswer == correctAnswer
      ensures stats == Record(old(stats), questionKey, isCorrect)
      ensures old(Valid()) ==> Valid()
    {
      isCorrect := IsCorrect(selectedAnswer, correctAnswer);
      UpdateQuestionStats(questionKey, isCorrect);
    }

    /** The delayed callback of `handleAnswer`: the next question (or the end). */
    method Advance()
      modifies this`currentQuestionIndex
      ensures currentQuestionIndex == old(currentQuestionIndex) + 1
    {
      currentQuestionIndex := currentQuestionIndex + 1;
    }

    // ------------------------------------------------------------ settings

    /** The change handlers of app.js:57-65; saving is not modelled. */
    method SetEnableDivision(enabled: bool)
      modifies this`settings
      ensures settings == old(settings).(enableDivision := enabled)
    {
      settings := settings.(enableDivision := enabled);
    }

    method SetEnableSqrt(enabled: bool)
      modifies this`settings
      ensures settings == old(settings).(enableSqrt := enabled)
    {
      settings := settings.(enableSqrt := enabled);
    }

    /** The count selector of app.js:80-86. */
    method SetQuestionCount(count: nat)
      modifies this`questionCount
      ensures questionCount == count
    {
      questionCount := count;
    }
  }
}
