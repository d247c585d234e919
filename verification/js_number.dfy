/** JavaScript numbers as the spectrogram path sees them: a finite value, an
    infinity, or NaN. Overflow to infinity and the sign of zero are not modelled. */
module JsNumbers {

  datatype JsNumber = Finite(v: real) | PosInf | NegInf | NaN

  predicate Positive(a: JsNumber) {
    a.PosInf? || (a.Finite? && a.v > 0.0)
  }

  predicate Negative(a: JsNumber) {
    a.NegInf? || (a.Finite? && a.v < 0.0)
  }

  /** IEEE multiplication; infinity times zero is NaN. */
  function Mul(a: JsNumber, b: JsNumber): JsNumber {
    if a.NaN? || b.NaN? then NaN
    else if a.Finite? && b.Finite? then Finite(a.v * b.v)
    else if a == Finite(0.0) || b == Finite(0.0) then NaN
    else if Positive(a) == Positive(b) then PosInf
    else NegInf
  }

  /** IEEE addition; opposite infinities give NaN. */
  function Add(a: JsNumber, b: JsNumber): JsNumber {
    if a.NaN? || b.NaN? then NaN
    else if a.Finite? && b.Finite? then Finite(a.v + b.v)
    else if a.Finite? then b
    else if b.Finite? then a
    else if a == b then a
    else NaN
  }

  /** IEEE division; 0/0 and infinity/infinity are NaN. */
  function Div(a: JsNumber, b: JsNumber): JsNumber {
    if a.NaN? || b.NaN? then NaN
    else if a.Finite? && b.Finite? then
      if b.v != 0.0 then Finite(a.v / b.v)
      else if a.v == 0.0 then NaN
      else if a.v > 0.0 then PosInf
      else NegInf
    else if a.Finite? then Finite(0.0)
    else if b.Finite? then
      if Positive(a) == (b.v >= 0.0) then PosInf else NegInf
    else NaN
  }

  /** The relational `<`: false whenever NaN is involved. */
  predicate Less(a: JsNumber, b: JsNumber) {
    match (a, b)
    case (Finite(x), Finite(y)) => x < y
    case (NegInf, _) => b.Finite? || b.PosInf?
    case (_, PosInf) => a.Finite? || a.NegInf?
    case _ => false
  }

  /** `Math.log10`: the logarithm of a positive finite value is the
      parameter `log10`; zero gives -Infinity and negatives give NaN. */
  function Log10(a: JsNumber, log10: real -> real): JsNumber {
    match a
    case Finite(x) =>
      if x > 0.0 then Finite(log10(x)) else if x == 0.0 then NegInf else NaN
    case PosInf => PosInf
    case _ => NaN
  }

  /** An element read `a[j]` used in arithmetic: a missing element is
      `undefined`, which becomes NaN. */
  function At(a: seq<JsNumber>, j: int): JsNumber {
    if 0 <= j < |a| then a[j] else NaN
  }

  /** `re*re + im*im`: a power is never negative and never -Infinity. */
  function Power(re: JsNumber, im: JsNumber): (p: JsNumber)
    ensures p.NaN? || p.PosInf? || (p.Finite? && p.v >= 0.0)
    ensures p.Finite? ==> re.Finite? && im.Finite? && p.v == re.v * re.v + im.v * im.v
    ensures (re.NaN? || im.NaN?) ==> p.NaN?
  {
    SquareNonNegative(re);
    SquareNonNegative(im);
    Add(Mul(re, re), Mul(im, im))
  }

  lemma SquareNonNegative(a: JsNumber)
    ensures var s := Mul(a, a); s.NaN? || s.PosInf? || (s.Finite? && s.v >= 0.0)
  {
  }

  /** `!(m < v)`, the test the running maximum leaves alone: `m` is not
      below `v`, or `v` is NaN. */
  predicate NotBelow(m: JsNumber, v: JsNumber) {
    !Less(m, v)
  }

  /** `<` is transitive through a chain `a < b`, `b < c`. */
  lemma LessTransitive(a: JsNumber, b: JsNumber, c: JsNumber)
    requires Less(a, b) && Less(b, c)
    ensures Less(a, c)
  {
  }

  /** Raising the running maximum keeps everything it already dominated
      dominated: if `v` was not above `m` and `m < m'`, it is not above `m'`. */
  lemma NotBelowRaised(m: JsNumber, m': JsNumber, v: JsNumber)
    requires NotBelow(m, v) && Less(m, m') && !m.NaN?
    ensures NotBelow(m', v)
  {
  }
}
