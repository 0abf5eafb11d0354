/** The affine maps between physical values and fixed-width codes,
    idealised over exact reals (the source computes them in binary floating
    point). */
module Quantize {
  import opened Bits

  /** `max(min(x, hi), lo)` */
  function Clamp(x: real, lo: real, hi: real): real
  {
    var m := if hi < x then hi else x;
    if m < lo then lo else m
  }

  /** Python's `int()` of a float: truncation toward zero. */
  function Trunc(r: real): int
  {
    if r >= 0.0 then r.Floor else -((-r).Floor)
  }

  /** `(1 << bits) - 1` as a real. */
  function TopCode(bits: nat): (r: real)
    ensures r >= 0.0
    ensures bits >= 1 ==> r >= 1.0
  {
    assert bits >= 1 ==> Pow2(bits) == 2 * Pow2(bits - 1);
    (Pow2(bits) - 1) as real
  }

  // ---------------------------------------------------------------------------
  // Monotonicity of the field operations

  lemma MulMono(a: real, b: real, m: real)
    requires m >= 0.0 && a <= b
    ensures m * a <= m * b
  {
  }

  lemma DivMono(a: real, b: real, d: real)
    requires d > 0.0 && a <= b
    ensures a / d <= b / d
  {
    assert a / d * d == a && b / d * d == b;
  }

  lemma DivStrict(a: real, b: real, d: real)
    requires d > 0.0 && a < b
    ensures a / d < b / d
  {
    assert a / d * d == a && b / d * d == b;
  }

  // ---------------------------------------------------------------------------
  // The two affine steps

  /** `((c - lo) * top) / (hi - lo)`: `[lo, hi]` onto `[0, top]`, the step
      `_float_to_uint` takes with `offset = lo` and `span = hi - lo`. */
  function Scale(c: real, lo: real, hi: real, top: real): real
    requires lo != hi
  {
    ((c - lo) * top) / (hi - lo)
  }

  /** `(hi - lo) * q / top + lo`: `[0, top]` back onto `[lo, hi]`, the step
      `_uint_to_float` takes with `offset = hi - lo` and `span = top`. */
  function Unscale(q: real, lo: real, hi: real, top: real): real
    requires top != 0.0
  {
    (hi - lo) * q / top + lo
  }

  /** Scaling stays in `[0, top]` and sends the ends to the ends. */
  lemma ScaleBounds(c: real, lo: real, hi: real, top: real)
    requires lo < hi && lo <= c <= hi && top >= 0.0
    ensures 0.0 <= Scale(c, lo, hi, top) <= top
    ensures c == lo ==> Scale(c, lo, hi, top) == 0.0
    ensures c == hi ==> Scale(c, lo, hi, top) == top
  {
    var span := hi - lo;
    MulMono(c - lo, span, top);
    MulMono(0.0, c - lo, top);
    DivMono(top * (c - lo), top * span, span);
    DivMono(0.0, top * (c - lo), span);
    assert top * span / span == top;
    assert c == lo ==> (c - lo) * top == 0.0;
  }

  /** Unscaling stays in `[lo, hi]` and sends the ends to the ends. */
  lemma UnscaleBounds(q: real, lo: real, hi: real, top: real)
    requires top > 0.0 && 0.0 <= q <= top && lo <= hi
    ensures lo <= Unscale(q, lo, hi, top) <= hi
    ensures q == 0.0 ==> Unscale(q, lo, hi, top) == lo
    ensures q == top ==> Unscale(q, lo, hi, top) == hi
  {
    var span := hi - lo;
    MulMono(q, top, span);
    MulMono(0.0, q, span);
    DivMono(span * q, span * top, top);
    DivMono(0.0, span * q, top);
    assert span * top / top == span;
  }

  /** Unscaling undoes scaling. */
  lemma ScaleCancel(x: real, lo: real, hi: real, top: real)
    requires lo < hi && top > 0.0
    ensures (hi - lo) * Scale(x, lo, hi, top) / top == x - lo
  {
    assert (hi - lo) * Scale(x, lo, hi, top) == (x - lo) * top;
  }

  /** Going from `[0, top]` back to a span loses less than one step. */
  lemma ScaleBackStep(span: real, top: real, v: real, q: real)
    requires span > 0.0 && top > 0.0 && q <= v < q + 1.0
    ensures span * q / top <= span * v / top < span * q / top + span / top
  {
    var w := v - q;
    assert span * v / top == span * q / top + span * w / top;
    MulMono(0.0, w, span);
    DivMono(0.0, span * w, top);
    assert span * w < span;
    DivStrict(span * w, span, top);
  }

  /** A code below the scaled value by less than one unscales to at most
      one step (`(hi - lo) / top`) below the value. */
  lemma UnscaleScale(x: real, lo: real, hi: real, top: real, q: real)
    requires lo < hi && top > 0.0 && q <= Scale(x, lo, hi, top) < q + 1.0
    ensures Unscale(q, lo, hi, top) <= x < Unscale(q, lo, hi, top) + (hi - lo) / top
  {
    ScaleCancel(x, lo, hi, top);
    ScaleBackStep(hi - lo, top, Scale(x, lo, hi, top), q);
  }

  // ---------------------------------------------------------------------------
  // `_float_to_uint` and `_uint_to_float`

  /** Truncating a code in `[0, n]` gives an integer in `0 .. n`, and the
      end points exactly. */
  lemma TruncCode(v: real, n: nat)
    requires 0.0 <= v <= n as real
    ensures 0 <= Trunc(v) <= n
    ensures v == n as real ==> Trunc(v) == n
    ensures v == 0.0 ==> Trunc(v) == 0
  {
  }

  /** `_float_to_uint`: clamp `x` to `[xMin, xMax]` and scale it onto the
      codes `0 .. 2^bits - 1`. A zero span raises ZeroDivisionError. */
  function FloatToUint(x: real, xMin: real, xMax: real, bits: nat): (code: int)
    requires xMax != xMin
    ensures xMin < xMax ==> 0 <= code <= Pow2(bits) - 1
  {
    var scaled := Scale(Clamp(x, xMin, xMax), xMin, xMax, TopCode(bits));
    if xMin < xMax then
      ScaleBounds(Clamp(x, xMin, xMax), xMin, xMax, TopCode(bits));
      TruncCode(scaled, Pow2(bits) - 1);
      Trunc(scaled)
    else
      Trunc(scaled)
  }

  /** Quantising lands on a code in `0 .. 2^bits - 1`, with the range's ends
      on the first and last code. */
  lemma FloatToUintRange(x: real, xMin: real, xMax: real, bits: nat)
    requires xMin < xMax
    ensures 0 <= FloatToUint(x, xMin, xMax, bits) <= Pow2(bits) - 1
    ensures x <= xMin ==> FloatToUint(x, xMin, xMax, bits) == 0
    ensures x >= xMax ==> FloatToUint(x, xMin, xMax, bits) == Pow2(bits) - 1
  {
    assert TopCode(bits) == (Pow2(bits) - 1) as real;
    ScaleBounds(Clamp(x, xMin, xMax), xMin, xMax, TopCode(bits));
    assert x <= xMin ==> Clamp(x, xMin, xMax) == xMin;
    assert x >= xMax ==> Clamp(x, xMin, xMax) == xMax;
    TruncCode(Scale(Clamp(x, xMin, xMax), xMin, xMax, TopCode(bits)), Pow2(bits) - 1);
  }

  /** With the bounds swapped the clamp always yields `xMin`, so every value
      quantises to 0. */
  lemma FloatToUintSwapped(x: real, xMin: real, xMax: real, bits: nat)
    requires xMax < xMin
    ensures FloatToUint(x, xMin, xMax, bits) == 0
  {
    assert Clamp(x, xMin, xMax) == xMin;
    assert (xMin - xMin) * TopCode(bits) == 0.0;
  }

  /** `_uint_to_float`: clamp the code to `[0, 2^bits - 1]` and map it back
      onto `[xMin, xMax]`. With `bits == 0` the source divides by zero. */
  function UintToFloat(x: real, xMin: real, xMax: real, bits: nat): (y: real)
    requires bits >= 1
    ensures xMin <= xMax ==> xMin <= y <= xMax
  {
    var code := Clamp(x, 0.0, TopCode(bits));
    if xMin <= xMax then
      UnscaleBounds(code, xMin, xMax, TopCode(bits));
      Unscale(code, xMin, xMax, TopCode(bits))
    else
      Unscale(code, xMin, xMax, TopCode(bits))
  }

  /** Dequantising lands in `[xMin, xMax]`, with the first and last code on
      the range's ends. */
  lemma UintToFloatRange(x: real, xMin: real, xMax: real, bits: nat)
    requires bits >= 1 && xMin <= xMax
    ensures xMin <= UintToFloat(x, xMin, xMax, bits) <= xMax
    ensures x <= 0.0 ==> UintToFloat(x, xMin, xMax, bits) == xMin
    ensures x >= TopCode(bits) ==> UintToFloat(x, xMin, xMax, bits) == xMax
  {
    UnscaleBounds(Clamp(x, 0.0, TopCode(bits)), xMin, xMax, TopCode(bits));
    assert x <= 0.0 ==> Clamp(x, 0.0, TopCode(bits)) == 0.0;
    assert x >= TopCode(bits) ==> Clamp(x, 0.0, TopCode(bits)) == TopCode(bits);
  }

  /** A value quantised and dequantised comes back at most one code step
      below where it was. */
  lemma QuantizeRoundTrip(x: real, xMin: real, xMax: real, bits: nat)
    requires xMin < xMax && bits >= 1 && xMin <= x <= xMax
    ensures var back := UintToFloat(FloatToUint(x, xMin, xMax, bits) as real, xMin, xMax, bits);
            back <= x < back + (xMax - xMin) / TopCode(bits)
  {
    assert Clamp(x, xMin, xMax) == x;
    ScaleBounds(x, xMin, xMax, TopCode(bits));
    FloatToUintRange(x, xMin, xMax, bits);
    assert TopCode(bits) == (Pow2(bits) - 1) as real;
    assert FloatToUint(x, xMin, xMax, bits) == Scale(x, xMin, xMax, TopCode(bits)).Floor;
    assert Clamp(FloatToUint(x, xMin, xMax, bits) as real, 0.0, TopCode(bits)) == FloatToUint(x, xMin, xMax, bits) as real;
    UnscaleScale(x, xMin, xMax, TopCode(bits), FloatToUint(x, xMin, xMax, bits) as real);
  }

  // ---------------------------------------------------------------------------
  // `_linear_mapping`

  /** `_linear_mapping`: a code in `[0, targetMax - targetMin]` onto
      `[valueMin, valueMax]`. Equal targets divide by zero. */
  function LinearMapping(value: real, valueMin: real, valueMax: real, targetMin: real, targetMax: real): (y: real)
    requires targetMax != targetMin
    ensures targetMin < targetMax && valueMin <= valueMax && 0.0 <= value <= targetMax - targetMin ==>
            valueMin <= y <= valueMax
  {
    var width := targetMax - targetMin;
    var y := valueMin + value / width * (valueMax - valueMin);
    if width > 0.0 && valueMin <= valueMax && 0.0 <= value <= width then
      assert value / width * (valueMax - valueMin) == (valueMax - valueMin) * value / width;
      UnscaleBounds(value, valueMin, valueMax, width);
      y
    else
      y
  }

  /** The linear mapping is the unscaling step over the target width. */
  lemma LinearMappingIsUnscale(value: real, valueMin: real, valueMax: real, targetMin: real, targetMax: real)
    requires targetMax != targetMin
    ensures LinearMapping(value, valueMin, valueMax, targetMin, targetMax) ==
            Unscale(value, valueMin, valueMax, targetMax - targetMin)
  {
    var w := targetMax - targetMin;
    assert value / w * (valueMax - valueMin) == (valueMax - valueMin) * value / w;
  }

  /** A code inside the target range maps inside the value range, with the
      first and last code on its ends. */
  lemma LinearMappingRange(value: real, valueMin: real, valueMax: real, targetMin: real, targetMax: real)
    requires targetMin < targetMax && valueMin <= valueMax && 0.0 <= value <= targetMax - targetMin
    ensures valueMin <= LinearMapping(value, valueMin, valueMax, targetMin, targetMax) <= valueMax
    ensures value == 0.0 ==> LinearMapping(value, valueMin, valueMax, targetMin, targetMax) == valueMin
    ensures value == targetMax - targetMin ==> LinearMapping(value, valueMin, valueMax, targetMin, targetMax) == valueMax
  {
    LinearMappingIsUnscale(value, valueMin, valueMax, targetMin, targetMax);
    UnscaleBounds(value, valueMin, valueMax, targetMax - targetMin);
  }

  /** A larger code never maps to a smaller value. */
  lemma LinearMappingMonotone(a: real, b: real, valueMin: real, valueMax: real, targetMin: real, targetMax: real)
    requires targetMin < targetMax && valueMin <= valueMax && a <= b
    ensures LinearMapping(a, valueMin, valueMax, targetMin, targetMax) <= LinearMapping(b, valueMin, valueMax, targetMin, targetMax)
  {
    var width := targetMax - targetMin;
    DivMono(a, b, width);
    MulMono(a / width, b / width, valueMax - valueMin);
    assert a / width * (valueMax - valueMin) <= b / width * (valueMax - valueMin);
  }
}
