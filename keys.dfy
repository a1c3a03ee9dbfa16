/**
 * Fact keys. The application identifies every arithmetic fact by a string that
 * joins the generated questions with the stored statistics:
 *   multiplication  `${series}x${operand}`
 *   division        `${dividend}/${series}`
 *   square root     `√${square}`
 * The model works with the structured `Key`; `KeyText` renders the string the
 * source builds and `ParseKey` reads it back, which shows that distinct keys
 * always produce distinct strings.
 */
module Keys {
  import opened Wrappers

  datatype Key =
    | Mul(series: nat, operand: nat)
    | Div(dividend: nat, series: nat)
    | Sqrt(square: nat)

  // ---------------------------------------------------------------- decimal text

  predicate IsDigit(ch: char) {
    '0' <= ch <= '9'
  }

  predicate AllDigits(s: string) {
    forall i :: 0 <= i < |s| ==> IsDigit(s[i])
  }

  function DigitChar(d: nat): (ch: char)
    requires d < 10
    ensures IsDigit(ch)
  {
    (('0' as int) + d) as char
  }

  function DigitValue(ch: char): nat
    requires IsDigit(ch)
  {
    (ch as int) - ('0' as int)
  }

  /** The decimal text JavaScript's template literals give a non-negative integer. */
  function NatText(n: nat): (s: string)
    ensures |s| > 0 && AllDigits(s)
  {
    if n < 10 then [DigitChar(n)] else NatText(n / 10) + [DigitChar(n % 10)]
  }

  function ParseNat(s: string): nat
    requires AllDigits(s)
  {
    if s == [] then 0 else ParseNat(s[..|s| - 1]) * 10 + DigitValue(s[|s| - 1])
  }

  lemma {:induction false} ParseNatText(n: nat)
    ensures ParseNat(NatText(n)) == n
  {
    if n >= 10 {
      var s := NatText(n);
      assert s[..|s| - 1] == NatText(n / 10);
      ParseNatText(n / 10);
    }
  }

  /** The number of leading decimal digits of `s`. */
  function DigitRun(s: string): (k: nat)
    ensures k <= |s| && AllDigits(s[..k])
    ensures k < |s| ==> !IsDigit(s[k])
  {
    if s == [] || !IsDigit(s[0]) then 0
    else
      var k := 1 + DigitRun(s[1..]);
      assert s[..k] == [s[0]] + s[1..][..k - 1];
      k
  }

  lemma {:induction false} DigitRunPast(a: string, b: string)
    requires AllDigits(a)
    requires b != [] && !IsDigit(b[0])
    ensures DigitRun(a + b) == |a|
  {
    if a == [] {
      assert a + b == b;
    } else {
      assert (a + b)[1..] == a[1..] + b;
      DigitRunPast(a[1..], b);
    }
  }

  // ---------------------------------------------------------------- keys as text

  const SqrtSign: char := '√'

  function KeyText(k: Key): string {
    match k
    case Mul(s, i) => NatText(s) + "x" + NatText(i)
    case Div(d, s) => NatText(d) + "/" + NatText(s)
    case Sqrt(q) => [SqrtSign] + NatText(q)
  }

  /** Reads a key back from its text; `None` for text no key renders to. */
  function ParseKey(t: string): Option<Key> {
    if |t| >= 2 && t[0] == SqrtSign && AllDigits(t[1..]) then
      Some(Sqrt(ParseNat(t[1..])))
    else
      var i := DigitRun(t);
      if 0 < i && i + 1 < |t| && AllDigits(t[i + 1..]) then
        if t[i] == 'x' then Some(Mul(ParseNat(t[..i]), ParseNat(t[i + 1..])))
        else if t[i] == '/' then Some(Div(ParseNat(t[..i]), ParseNat(t[i + 1..])))
        else None
      else None
  }

  lemma ParseBinary(a: nat, sep: char, b: nat)
    requires !IsDigit(sep)
    ensures var t := NatText(a) + [sep] + NatText(b);
            var i := |NatText(a)|;
            DigitRun(t) == i && t[i] == sep && t[..i] == NatText(a) && t[i + 1..] == NatText(b)
            && t[0] != SqrtSign
  {
    var ta, tb := NatText(a), NatText(b);
    var t := ta + [sep] + tb;
    assert t == ta + ([sep] + tb);
    DigitRunPast(ta, [sep] + tb);
    assert t[..|ta|] == ta;
    assert t[|ta| + 1..] == tb;
    assert t[0] == ta[0];
  }

  /** Reading a key's text gives the key back. */
  lemma KeyTextRoundTrip(k: Key)
    ensures ParseKey(KeyText(k)) == Some(k)
  {
    match k
    case Mul(s, i) =>
      ParseBinary(s, 'x', i);
      ParseNatText(s);
      ParseNatText(i);
    case Div(d, s) =>
      ParseBinary(d, '/', s);
      ParseNatText(d);
      ParseNatText(s);
    case Sqrt(q) =>
      var t := KeyText(k);
      assert t[1..] == NatText(q);
      ParseNatText(q);
  }

  /** Distinct facts are stored under distinct strings. */
  lemma KeyTextInjective(a: Key, b: Key)
    ensures KeyText(a) == KeyText(b) <==> a == b
  {
    if KeyText(a) == KeyText(b) {
      KeyTextRoundTrip(a);
      KeyTextRoundTrip(b);
    }
  }
}
