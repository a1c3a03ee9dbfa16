/**
 * The two classifications of a fact's success rate `correct / total`:
 * the Leitner weight used by test mode (app.js:269-288) and the colour band
 * of the statistics screen (app.js:536-562). The source compares floating-point
 * quotients with decimal thresholds; here each comparison `c / t < p / q` is
 * the exact integer comparison `q * c < p * t`, and the lemmas relate it to the
 * quotient over the reals.
 */
module Leitner {
  import opened Stats

  /** The success rate of an attempted fact, exactly. */
  function Rate(s: FactStats): real
    requires s.total > 0
  {
    (s.correct as real) / (s.total as real)
  }

  /** `correct / total < p / q`, decided on integers. */
  predicate RateBelow(s: FactStats, p: nat, q: nat) {
    q * s.correct < p * s.total
  }

  lemma RateBelowIsExact(s: FactStats, p: nat, q: nat)
    requires s.total > 0 && q > 0
    ensures RateBelow(s, p, q) <==> Rate(s) < (p as real) / (q as real)
  {
    var c, t := s.correct as real, s.total as real;
    var pr, qr := p as real, q as real;
    assert Rate(s) * t == c;
    assert ((p as real) / (q as real)) * qr == pr;
    if RateBelow(s, p, q) {
      assert qr * c < pr * t;
      assert qr * (Rate(s) * t) < qr * (((p as real) / (q as real)) * t);
    } else {
      assert qr * c >= pr * t;
      assert qr * (Rate(s) * t) >= qr * (((p as real) / (q as real)) * t);
    }
  }

  // ---------------------------------------------------------------- Leitner weight

  /** The selection weight of a fact in test mode. */
  function Weight(s: FactStats): (w: nat)
    ensures w == 10 || w == 8 || w == 4 || w == 2 || w == 1
    ensures w > 0
    ensures w == 10 <==> s.total == 0
  {
    if s.total == 0 then 10
    else if RateBelow(s, 1, 2) then 8
    else if RateBelow(s, 4, 5) then 4
    else if RateBelow(s, 19, 20) then 2
    else 1
  }

  /**
   * The weight bands in terms of the success rate: never attempted 10,
   * below 0.5 weight 8, below 0.8 weight 4, below 0.95 weight 2, otherwise 1.
   */
  lemma WeightByRate(s: FactStats)
    requires s.total > 0
    ensures Weight(s) == 8 <==> Rate(s) < 0.5
    ensures Weight(s) == 4 <==> 0.5 <= Rate(s) < 0.8
    ensures Weight(s) == 2 <==> 0.8 <= Rate(s) < 0.95
    ensures Weight(s) == 1 <==> 0.95 <= Rate(s)
  {
    RateBelowIsExact(s, 1, 2);
    RateBelowIsExact(s, 4, 5);
    RateBelowIsExact(s, 19, 20);
  }

  /** A fact answered at least as well as another never weighs more. */
  lemma WeightAntitone(a: FactStats, b: FactStats)
    requires a.total > 0 && b.total > 0
    requires Rate(a) <= Rate(b)
    ensures Weight(b) <= Weight(a)
  {
    WeightByRate(a);
    WeightByRate(b);
  }

  /** Never-attempted facts weigh the most. */
  lemma FreshWeighsMost(s: FactStats)
    ensures Weight(s) <= Weight(Fresh)
  {
  }

  /** The examples: 0 of 0 weighs 10, 10 of 10 weighs 1, 3 of 10 weighs 8. */
  lemma WeightExamples()
    ensures Weight(FactStats(0, 0)) == 10
    ensures Weight(FactStats(10, 10)) == 1
    ensures Weight(FactStats(3, 10)) == 8
  {
  }

  // ---------------------------------------------------------------- colour bands

  datatype Band = Unknown | Danger | WarningOrange | WarningYellow | SuccessLight | Success

  /** The colour of a fact's circle on the statistics screen. */
  function BandOf(s: FactStats): Band {
    if s.total == 0 then Unknown          // success rate -1
    else if RateBelow(s, 1, 2) then Danger
    else if RateBelow(s, 13, 20) then WarningOrange
    else if RateBelow(s, 4, 5) then WarningYellow
    else if RateBelow(s, 9, 10) then SuccessLight
    else Success
  }

  /**
   * Each band in terms of the success rate; together the six conditions cover
   * every record and no two hold at once.
   */
  lemma BandByRate(s: FactStats)
    ensures BandOf(s) == Unknown <==> s.total == 0
    ensures BandOf(s) == Danger <==> s.total > 0 && Rate(s) < 0.5
    ensures BandOf(s) == WarningOrange <==> s.total > 0 && 0.5 <= Rate(s) < 0.65
    ensures BandOf(s) == WarningYellow <==> s.total > 0 && 0.65 <= Rate(s) < 0.8
    ensures BandOf(s) == SuccessLight <==> s.total > 0 && 0.8 <= Rate(s) < 0.9
    ensures BandOf(s) == Success <==> s.total > 0 && 0.9 <= Rate(s)
  {
    if s.total > 0 {
      RateBelowIsExact(s, 1, 2);
      RateBelowIsExact(s, 13, 20);
      RateBelowIsExact(s, 4, 5);
      RateBelowIsExact(s, 9, 10);
    }
  }

  /** The position of a band from worst to best. */
  function Rank(b: Band): nat {
    match b
    case Unknown => 0
    case Danger => 1
    case WarningOrange => 2
    case WarningYellow => 3
    case SuccessLight => 4
    case Success => 5
  }

  /** A better success rate never shows a worse colour. */
  lemma BandMonotone(a: FactStats, b: FactStats)
    requires a.total > 0 && b.total > 0
    requires Rate(a) <= Rate(b)
    ensures 1 <= Rank(BandOf(a)) <= Rank(BandOf(b))
  {
    BandByRate(a);
    BandByRate(b);
  }

  /**
   * The screen and the weighting agree where their thresholds coincide: unknown
   * exactly for weight 10, danger exactly for weight 8.
   */
  lemma BandAgreesWithWeight(s: FactStats)
    ensures BandOf(s) == Unknown <==> Weight(s) == 10
    ensures BandOf(s) == Danger <==> Weight(s) == 8
    ensures BandOf(s) == Success ==> Weight(s) <= 2
  {
  }
}
