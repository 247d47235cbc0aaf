/**
 * Rounding helpers of the workspace: JavaScript's Math.round and the
 * toFixedNumber helper that every canvas-to-logical conversion goes through.
 * JavaScript numbers are modelled as exact reals.
 */
module Numbers {
  import opened Options
  import opened RealFacts

  /** Math.round: the nearest integer, halves rounded towards +infinity. */
  function JsRound(x: real): (k: int)
    ensures x - 0.5 < k as real <= x + 0.5
  {
    (x + 0.5).Floor
  }

  function Pow(base: real, exp: nat): (p: real)
    ensures base > 0.0 ==> p > 0.0
    ensures base != 0.0 ==> p != 0.0
  {
    if exp == 0 then 1.0 else base * Pow(base, exp - 1)
  }

  /** `base || 10`: an omitted or falsy (zero) base falls back to ten. */
  function EffectiveBase(base: Option<real>): (b: real)
    ensures b != 0.0
    ensures (base == None || base == Some(0.0)) ==> b == 10.0
    ensures base.Some? && base.value != 0.0 ==> b == base.value
  {
    match base
    case None => 10.0
    case Some(v) => if v == 0.0 then 10.0 else v
  }

  /** toFixedNumber's `pow`: (base || 10) ^ digits. */
  function Multiplier(base: Option<real>, digits: nat): (p: real)
    ensures p != 0.0
  {
    Pow(EffectiveBase(base), digits)
  }

  /**
   * toFixedNumber(num, digits, base): num rounded to `digits` places in
   * `base`. Whatever the base, the result is a whole number of units
   * 1 / pow: the one Math.round picks for num.
   */
  function ToFixedNumber(num: real, digits: nat, base: Option<real>): (r: real)
    ensures r * Multiplier(base, digits) == JsRound(num * Multiplier(base, digits)) as real
  {
    RoundToUnitIsMultiple(num, Multiplier(base, digits));
    RoundToUnit(num, Multiplier(base, digits))
  }

  /** Math.round(num * pow) / pow. */
  function RoundToUnit(num: real, pow: real): real
    requires pow != 0.0
  {
    JsRound(num * pow) as real / pow
  }

  /** toFixedNumber(num, digits) with the base omitted, as the engine calls it. */
  function ToFixed(num: real, digits: nat): real
  {
    RoundToUnit(num, Pow(10.0, digits))
  }

  /** The rounding unit of ToFixed: 10^-digits. */
  function Ulp(digits: nat): (u: real)
    ensures u > 0.0
  {
    1.0 / Pow(10.0, digits)
  }

  /** ToFixed is toFixedNumber with the base omitted, or given as a falsy zero, or given as ten. */
  lemma ToFixedOmitsBase(x: real, d: nat)
    ensures ToFixedNumber(x, d, None) == ToFixed(x, d)
    ensures ToFixedNumber(x, d, Some(0.0)) == ToFixed(x, d)
    ensures ToFixedNumber(x, d, Some(10.0)) == ToFixed(x, d)
  {
    assert EffectiveBase(None) == 10.0;
    assert EffectiveBase(Some(0.0)) == 10.0;
  }

  /** Math.round(num * pow) / pow is a whole multiple of 1/pow. */
  lemma RoundToUnitIsMultiple(x: real, p: real)
    requires p != 0.0
    ensures RoundToUnit(x, p) * p == JsRound(x * p) as real
  {
    var k := JsRound(x * p) as real;
    assert RoundToUnit(x, p) == k / p;
  }

  /** The rounding error is at most half a unit 1/pow. */
  lemma RoundToUnitError(x: real, p: real)
    requires p > 0.0
    ensures -0.5 / p < RoundToUnit(x, p) - x <= 0.5 / p
  {
    var k := JsRound(x * p) as real;
    assert x * p - 0.5 < k <= x * p + 0.5;
    assert RoundToUnit(x, p) - x == (k - x * p) / p;
    DivBounds(k - x * p, 0.5, p);
  }


  /** ToFixed keeps the error below half a unit in the last kept digit. */
  lemma ToFixedError(x: real, d: nat)
    ensures -Ulp(d) / 2.0 < ToFixed(x, d) - x <= Ulp(d) / 2.0
  {
    var p := Pow(10.0, d);
    RoundToUnitError(x, p);
    assert Ulp(d) / 2.0 == 0.5 / p;
  }

  lemma RoundToUnitIdempotent(x: real, p: real)
    requires p > 0.0
    ensures RoundToUnit(RoundToUnit(x, p), p) == RoundToUnit(x, p)
  {
    var r := RoundToUnit(x, p);
    var k := JsRound(x * p);
    RoundToUnitIsMultiple(x, p);
    assert JsRound(k as real) == k;
    assert JsRound(r * p) == k;
    RoundToUnitDef(r, p);
    RoundToUnitDef(x, p);
  }

  lemma RoundToUnitDef(x: real, p: real)
    requires p > 0.0
    ensures RoundToUnit(x, p) == JsRound(x * p) as real / p
  {
  }

  /** Rounding an already rounded number changes nothing. */
  lemma ToFixedIdempotent(x: real, d: nat)
    ensures ToFixed(ToFixed(x, d), d) == ToFixed(x, d)
  {
    RoundToUnitIdempotent(x, Pow(10.0, d));
  }

  /** A power of ten is a whole number. */
  lemma {:induction false} PowTenWhole(d: nat)
    ensures Pow(10.0, d) == Pow(10.0, d).Floor as real
  {
    if d > 0 {
      PowTenWhole(d - 1);
      var n := Pow(10.0, d - 1).Floor;
      assert Pow(10.0, d) == (10 * n) as real;
    }
  }

  /** A whole number passes toFixedNumber unchanged, at any number of digits. */
  lemma ToFixedWhole(k: int, d: nat)
    ensures ToFixed(k as real, d) == k as real
  {
    PowTenWhole(d);
    RoundToUnitWhole(k, Pow(10.0, d).Floor);
  }

  lemma RoundToUnitWhole(k: int, n: int)
    requires n > 0
    ensures RoundToUnit(k as real, n as real) == k as real
  {
    JsRoundWhole(k * n);
    assert k as real * n as real == (k * n) as real;
    MulDivCancel(k as real, n as real);
  }

  /** Math.round keeps a whole number. */
  lemma JsRoundWhole(m: int)
    ensures JsRound(m as real) == m
  {
    var k := JsRound(m as real);
    assert m as real - 0.5 < k as real <= m as real + 0.5;
    assert m - 1 < k <= m;
  }

  lemma RoundToUnitMonotone(x: real, y: real, p: real)
    requires x <= y && p > 0.0
    ensures RoundToUnit(x, p) <= RoundToUnit(y, p)
  {
    MulMonotone(x, y, p);
    var kx := JsRound(x * p);
    var ky := JsRound(y * p);
    assert kx <= ky;
    DivMonotone(kx as real, ky as real, p);
  }

  /** A larger input never rounds to a smaller output. */
  lemma ToFixedMonotone(x: real, y: real, d: nat)
    requires x <= y
    ensures ToFixed(x, d) <= ToFixed(y, d)
  {
    RoundToUnitMonotone(x, y, Pow(10.0, d));
  }
}
