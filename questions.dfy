/**
 * Questions and their construction from one random draw
 * (`generateQuestion`, app.js:311-358), and the question list of training
 * mode (`generateQuestions`, app.js:197-214).
 */
module Questions {
  import opened Wrappers
  import opened Keys

  datatype QuestionType = Multiplication | Division | SquareRoot

  /** A question; its display text is a rendering of the key and is not modelled. */
  datatype Question = Question(key: Key, answer: int, kind: QuestionType)

  datatype Settings = Settings(enableDivision: bool, enableSqrt: bool)

  /** The settings used when none are stored (app.js:479-482). */
  const DefaultSettings: Settings := Settings(true, true)

  /** The operand range of the multiplication and division facts. */
  const MaxOperand: nat := 12

  const PerfectSquares: seq<nat> := [1, 4, 9, 16, 25, 36, 49, 64, 81, 100, 121, 144]

  lemma PerfectSquaresAt(k: nat)
    requires k < |PerfectSquares|
    ensures PerfectSquares[k] == (k + 1) * (k + 1)
  {
  }

  // ---------------------------------------------------------------- square roots

  /** The integer square root, which is what `Math.sqrt` returns on a perfect square. */
  function IntRoot(n: nat): (r: nat)
    ensures r * r <= n < (r + 1) * (r + 1)
  {
    if n == 0 then 0
    else
      var r := IntRoot(n - 1);
      if (r + 1) * (r + 1) <= n then r + 1 else r
  }

  lemma SquareMonotone(a: nat, b: nat)
    requires a < b
    ensures a * a < b * b
  {
    assert a * a <= a * b < b * b;
  }

  lemma IntRootOfSquare(k: nat)
    ensures IntRoot(k * k) == k
  {
    var r := IntRoot(k * k);
    if r < k {
      SquareMonotone(r, k);
      if r + 1 < k { SquareMonotone(r + 1, k); }
    } else if r > k {
      SquareMonotone(k, r);
    }
  }

  /** The root of each listed square is its position plus one. */
  lemma RootsOfPerfectSquares(k: nat)
    requires k < |PerfectSquares|
    ensures IntRoot(PerfectSquares[k]) == k + 1
  {
    PerfectSquaresAt(k);
    IntRootOfSquare(k + 1);
  }

  /**
   * The filter of app.js:339-342 (and app.js:255-256): roots between 1 and 12.
   * `IntRoot` agrees with `Math.sqrt` only on perfect squares (on 150 it gives
   * 12 where `Math.sqrt` gives about 12.25), so this models the source only on
   * lists of perfect squares; the source applies it to `PerfectSquares` alone.
   */
  function ValidSquares(squares: seq<nat>): (r: seq<nat>)
    ensures forall x :: x in r ==> x in squares && 1 <= IntRoot(x) <= MaxOperand
    ensures forall x :: x in squares && 1 <= IntRoot(x) <= MaxOperand ==> x in r
  {
    if squares == [] then []
    else
      var rest := ValidSquares(squares[1..]);
      var root := IntRoot(squares[0]);
      if 1 <= root <= MaxOperand then [squares[0]] + rest else rest
  }

  lemma {:induction false} ValidSquaresSuffix(k: nat)
    requires k <= |PerfectSquares|
    ensures ValidSquares(PerfectSquares[k..]) == PerfectSquares[k..]
    decreases |PerfectSquares| - k
  {
    if k < |PerfectSquares| {
      ValidSquaresSuffix(k + 1);
      RootsOfPerfectSquares(k);
      assert PerfectSquares[k..][1..] == PerfectSquares[k + 1..];
      assert PerfectSquares[k..] == [PerfectSquares[k]] + PerfectSquares[k + 1..];
    }
  }

  /** The filter keeps all twelve squares: the sqrt type never yields no question. */
  lemma AllSquaresValid()
    ensures ValidSquares(PerfectSquares) == PerfectSquares
  {
    ValidSquaresSuffix(0);
    assert PerfectSquares[0..] == PerfectSquares;
  }

  // ---------------------------------------------------------------- single questions

  function MulQuestion(series: nat, m: nat): Question {
    Question(Mul(series, m), series * m, Multiplication)
  }

  function DivQuestion(series: nat, d: nat): Question {
    Question(Div(series * d, series), d, Division)
  }

  function SqrtQuestion(square: nat): Question {
    Question(Sqrt(square), IntRoot(square), SquareRoot)
  }

  /** The arithmetic a question of each kind promises. */
  predicate WellFormed(q: Question) {
    match q.key
    case Mul(s, m) =>
      q.kind == Multiplication && 1 <= m <= MaxOperand && q.answer == s * m
    case Div(d, s) =>
      q.kind == Division && 1 <= q.answer <= MaxOperand && d == s * q.answer
    case Sqrt(sq) =>
      q.kind == SquareRoot && sq in PerfectSquares && 1 <= q.answer <= MaxOperand
      && q.answer * q.answer == sq
  }

  /** The series a multiplication or division question belongs to. */
  predicate OfSeries(q: Question, series: nat) {
    match q.key
    case Mul(s, _) => s == series
    case Div(_, s) => s == series
    case Sqrt(_) => true
  }

  lemma SqrtQuestionWellFormed(k: nat)
    requires k < |PerfectSquares|
    ensures WellFormed(SqrtQuestion(PerfectSquares[k]))
    ensures SqrtQuestion(PerfectSquares[k]).answer == k + 1
  {
    PerfectSquaresAt(k);
    RootsOfPerfectSquares(k);
  }

  /**
   * `generateQuestion(series, type)` when the one `Math.random()` call it makes
   * gives the index `pick = floor(random * 12)`: the multiplier, the divisor,
   * or the position among the valid squares. It never returns no question.
   */
  function GenerateQuestion(series: nat, kind: QuestionType, pick: nat): (r: Option<Question>)
    requires pick < MaxOperand
    ensures r.Some? && WellFormed(r.value) && r.value.kind == kind && OfSeries(r.value, series)
    ensures kind == Multiplication ==> r.value.key == Mul(series, pick + 1)
    ensures kind == Division ==>
              r.value.key == Div(series * (pick + 1), series) && r.value.answer * series == series * (pick + 1)
    ensures kind == SquareRoot ==> r.value.key == Sqrt(PerfectSquares[pick])
  {
    match kind
    case Multiplication => Some(MulQuestion(series, pick + 1))
    case Division => Some(DivQuestion(series, pick + 1))
    case SquareRoot =>
      var valid := ValidSquares(PerfectSquares);
      AllSquaresValid();
      if |valid| > 0 then
        SqrtQuestionWellFormed(pick);
        Some(SqrtQuestion(valid[pick]))
      else None
  }

  // ---------------------------------------------------------------- training mode

  /** The types array of app.js:199-201. */
  function EnabledTypes(settings: Settings): (types: seq<QuestionType>)
    ensures |types| > 0 && types[0] == Multiplication
    ensures Division in types <==> settings.enableDivision
    ensures SquareRoot in types <==> settings.enableSqrt
    ensures forall i, j :: 0 <= i < j < |types| ==> types[i] != types[j]
  {
    [Multiplication]
      + (if settings.enableDivision then [Division] else [])
      + (if settings.enableSqrt then [SquareRoot] else [])
  }

  /** The three `Math.random()` results of one training question, already scaled and floored. */
  datatype TrainingDraw = TrainingDraw(seriesIndex: nat, typeIndex: nat, pick: nat)

  predicate ValidTrainingDraw(d: TrainingDraw, seriesCount: nat, typeCount: nat) {
    d.seriesIndex < seriesCount && d.typeIndex < typeCount && d.pick < MaxOperand
  }

  predicate ValidTrainingDraws(draws: seq<TrainingDraw>, seriesCount: nat, typeCount: nat, count: nat) {
    |draws| >= count
    && forall i :: 0 <= i < |draws| ==> ValidTrainingDraw(draws[i], seriesCount, typeCount)
  }

  /** The question training mode builds from one draw. */
  function TrainingQuestion(series: seq<nat>, settings: Settings, d: TrainingDraw): Question
    requires ValidTrainingDraw(d, |series|, |EnabledTypes(settings)|)
  {
    GenerateQuestion(series[d.seriesIndex], EnabledTypes(settings)[d.typeIndex], d.pick).value
  }

  /**
   * The list training mode builds: one question per draw, `count` in all,
   * each well formed, of an enabled type and of a selected series.
   */
  function TrainingDeck(series: seq<nat>, settings: Settings, draws: seq<TrainingDraw>, count: nat)
    : (deck: seq<Question>)
    requires ValidTrainingDraws(draws, |series|, |EnabledTypes(settings)|, count)
    ensures |deck| == count
    ensures forall i :: 0 <= i < count ==> deck[i] == TrainingQuestion(series, settings, draws[i])
    ensures forall q :: q in deck ==> WellFormed(q) && q.kind in EnabledTypes(settings)
    ensures forall q :: q in deck && !q.key.Sqrt? ==> q.key.series in series
  {
    var deck := seq(count, i requires 0 <= i < count => TrainingQuestion(series, settings, draws[i]));
    assert forall q :: q in deck && !q.key.Sqrt? ==> q.key.series in series by {
      forall q | q in deck && !q.key.Sqrt? ensures q.key.series in series {
        var i :| 0 <= i < count && deck[i] == q;
        assert OfSeries(q, series[draws[i].seriesIndex]);
      }
    }
    deck
  }

  /** The loop of app.js:208-213; every draw yields a question, so none is skipped. */
  method TrainingQuestions(series: seq<nat>, settings: Settings, draws: seq<TrainingDraw>, count: nat)
    returns (questions: seq<Question>)
    requires ValidTrainingDraws(draws, |series|, |EnabledTypes(settings)|, count)
    ensures questions == TrainingDeck(series, settings, draws, count)
  {
    ghost var deck := TrainingDeck(series, settings, draws, count);
    var types := EnabledTypes(settings);
    questions := [];
    var i := 0;
    while i < count
      invariant 0 <= i <= count
      invariant questions == deck[..i]
    {
      var d := draws[i];
      var question := GenerateQuestion(series[d.seriesIndex], types[d.typeIndex], d.pick);
      if question.Some? {
        questions := questions + [question.value];
      }
      assert deck[..i + 1] == deck[..i] + [deck[i]];
      i := i + 1;
    }
    assert deck[..count] == deck;
  }
}
