/**
  float64 as the collector uses it: NaN, the infinities, or a number. Numbers are reals, so rounding
  in the arithmetic itself is not modelled; comparisons with NaN are false.
 */
module Floats {
  import opened Options

  datatype Float = NaN | PosInf | NegInf | Fin(r: real)

  predicate Negative(v: Float) {
    v.NegInf? || (v.Fin? && v.r < 0.0)
  }

  /** `a > b`. */
  predicate Greater(a: Float, b: Float) {
    match (a, b)
    case (Fin(x), Fin(y)) => x > y
    case (PosInf, Fin(_)) => true
    case (PosInf, NegInf) => true
    case (Fin(_), NegInf) => true
    case _ => false
  }

  /** The order of the extended reals; nothing compares with NaN. */
  lemma GreaterLaws(a: Float, b: Float, c: Float)
    ensures a.NaN? || b.NaN? ==> !Greater(a, b)
    ensures !a.NaN? && !b.NaN? ==> (Greater(a, b) <==> a != b && !Greater(b, a))
    ensures Greater(a, b) && Greater(b, c) ==> Greater(a, c)
    ensures a.Fin? && b.Fin? ==> (Greater(a, b) <==> a.r > b.r)
    ensures !a.NaN? && a != PosInf ==> Greater(PosInf, a)
    ensures !a.NaN? && a != NegInf ==> Greater(a, NegInf)
  {
  }

  const ZERO := Fin(0.0)
  const HUNDRED := Fin(100.0)

  /** `math.Round`: to the nearest integer, halves away from zero. */
  function Round(x: real): int {
    if x >= 0.0 then (x + 0.5).Floor else -(-x + 0.5).Floor
  }

  /** `math.Round(x*100) / 100`. */
  function Cents(x: real): real {
    Round(x * 100.0) as real / 100.0
  }

  /** `clampPercent` of cpu_mem.go. */
  function ClampPercent(v: Float): Float {
    if !v.Fin? then ZERO
    else if Negative(v) then ZERO
    else if Greater(v, HUNDRED) then HUNDRED
    else Fin(Cents(v.r))
  }

  /** `f64p`: a rounded value, or nothing for one that is not a number. */
  function Optional(v: Float): Option<Float> {
    if v.Fin? then Some(Fin(Cents(v.r))) else None
  }

  /** `round2` of disk_net.go. */
  function Round2(v: Float): Float {
    if !v.Fin? || v.r <= 0.0 then ZERO else Fin(Cents(v.r))
  }

  function NonNeg(v: Float): Float {
    if Negative(v) || v.NaN? then ZERO else v
  }

  function NonNegInt(v: int): int {
    if v < 0 then 0 else v
  }

  lemma CentsNearest(x: real)
    ensures -0.005 <= Cents(x) - x <= 0.005
    ensures x >= 0.0 ==> Cents(x) >= 0.0
    ensures 0.0 <= x <= 100.0 ==> Cents(x) <= 100.0
  {
    var y := x * 100.0;
    assert -0.5 <= Round(y) as real - y <= 0.5;
  }

  /** Rounding again changes nothing. */
  lemma CentsAgain(x: real)
    ensures Cents(Cents(x)) == Cents(x)
  {
    var k := Round(x * 100.0);
    assert Cents(x) * 100.0 == k as real;
    assert Round(k as real) == k;
  }

  /** Rounding gives a multiple of a hundredth; a value between two goes away from zero. */
  lemma CentsIsMultiple(x: real) returns (k: int)
    ensures Cents(x) * 100.0 == k as real
    ensures Cents(x) - x == 0.005 || x - Cents(x) == 0.005 ==> (x >= 0.0 ==> Cents(x) > x) && (x < 0.0 ==> Cents(x) < x)
  {
    k := Round(x * 100.0);
  }

  /**
    A clamped percentage is one and is a fixed point. It is within half a hundredth of a legal input, 0 for
    a number below and 100 for one above, and 0 for what is no number.
   */
  lemma ClampedPercent(v: Float)
    ensures var p := ClampPercent(v);
      && p.Fin? && 0.0 <= p.r <= 100.0 && ClampPercent(p) == p && Optional(p) == Some(p)
      && (v.Fin? && 0.0 <= v.r <= 100.0 ==> -0.005 <= p.r - v.r <= 0.005)
      && (v.Fin? && v.r < 0.0 ==> p.r == 0.0) && (v.Fin? && v.r > 100.0 ==> p.r == 100.0)
      && (!v.Fin? ==> p.r == 0.0)
  {
    if v.Fin? {
      CentsNearest(v.r);
      CentsAgain(v.r);
    }
    assert Cents(0.0) == 0.0 && Cents(100.0) == 100.0;
  }
}
