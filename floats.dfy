/**
 * The part of f32 arithmetic the viewer relies on, over exact reals:
 * NaN marks a missing cell, the running extrema start at +inf/-inf, and
 * `f32::min`/`f32::max` ignore a NaN operand. Rounding is not modelled.
 */
module Floats {

  /** One cell of a column: a number, or NaN, which the viewer uses for "missing". */
  datatype Cell = Missing | Num(value: real)

  /** An f32 that is never NaN: a finite number or one of the two infinities. */
  datatype Extended = NegInf | Finite(value: real) | PosInf

  /** `f32::min` of two numbers. */
  function Min(a: real, b: real): (r: real)
    ensures r <= a && r <= b
    ensures r == a || r == b
  {
    if b < a then b else a
  }

  /** `f32::max` of two numbers. */
  function Max(a: real, b: real): (r: real)
    ensures r >= a && r >= b
    ensures r == a || r == b
  {
    if b > a then b else a
  }

  /** `f32::min(m, c)`: a NaN cell is ignored, so a missing cell leaves `m` as it is. */
  function MinCell(m: Extended, c: Cell): (r: Extended)
    ensures r == m || (c.Num? && r == Finite(c.value))
    ensures c.Num? && !m.NegInf? ==> r.Finite? && r.value <= c.value
    ensures m.Finite? ==> r.Finite? && r.value <= m.value
  {
    match c
    case Missing => m
    case Num(v) =>
      if m.PosInf? || (m.Finite? && v < m.value) then Finite(v) else m
  }

  /** `f32::max(m, c)`: a NaN cell is ignored. */
  function MaxCell(m: Extended, c: Cell): (r: Extended)
    ensures r == m || (c.Num? && r == Finite(c.value))
    ensures c.Num? && !m.PosInf? ==> r.Finite? && r.value >= c.value
    ensures m.Finite? ==> r.Finite? && r.value >= m.value
  {
    match c
    case Missing => m
    case Num(v) =>
      if m.NegInf? || (m.Finite? && v > m.value) then Finite(v) else m
  }

  /** The running minimum after pushing the cells of `s` in order, starting from +inf. */
  function Lowest(s: seq<Cell>): Extended
  {
    if s == [] then PosInf else MinCell(Lowest(s[..|s| - 1]), s[|s| - 1])
  }

  /** The running maximum after pushing the cells of `s` in order, starting from -inf. */
  function Highest(s: seq<Cell>): Extended
  {
    if s == [] then NegInf else MaxCell(Highest(s[..|s| - 1]), s[|s| - 1])
  }

  /** No cell of `s` holds a number. */
  predicate AllMissing(s: seq<Cell>)
  {
    forall k :: 0 <= k < |s| ==> s[k].Missing?
  }

  /** `x` is one of the numbers in `s` and no number in `s` is smaller. */
  ghost predicate IsLeast(s: seq<Cell>, x: real)
  {
    (exists k :: 0 <= k < |s| && s[k] == Num(x)) &&
    forall k :: 0 <= k < |s| && s[k].Num? ==> x <= s[k].value
  }

  /** `x` is one of the numbers in `s` and no number in `s` is larger. */
  ghost predicate IsGreatest(s: seq<Cell>, x: real)
  {
    (exists k :: 0 <= k < |s| && s[k] == Num(x)) &&
    forall k :: 0 <= k < |s| && s[k].Num? ==> s[k].value <= x
  }

  /** The running minimum is +inf exactly while every cell is missing, and otherwise the least number seen. */
  lemma {:induction false} LowestIsLeast(s: seq<Cell>)
    ensures !Lowest(s).NegInf?
    ensures Lowest(s).PosInf? <==> AllMissing(s)
    ensures Lowest(s).Finite? ==> IsLeast(s, Lowest(s).value)
  {
    if s != [] {
      var p, c := s[..|s| - 1], s[|s| - 1];
      LowestIsLeast(p);
      assert forall k :: 0 <= k < |p| ==> s[k] == p[k];
      if Lowest(s) != Lowest(p) {
        assert s[|s| - 1] == Num(Lowest(s).value);
      } else if Lowest(s).Finite? {
        var k :| 0 <= k < |p| && p[k] == Num(Lowest(p).value);
        assert s[k] == Num(Lowest(s).value);
      }
    }
  }

  /** The running maximum is -inf exactly while every cell is missing, and otherwise the greatest number seen. */
  lemma {:induction false} HighestIsGreatest(s: seq<Cell>)
    ensures !Highest(s).PosInf?
    ensures Highest(s).NegInf? <==> AllMissing(s)
    ensures Highest(s).Finite? ==> IsGreatest(s, Highest(s).value)
  {
    if s != [] {
      var p, c := s[..|s| - 1], s[|s| - 1];
      HighestIsGreatest(p);
      assert forall k :: 0 <= k < |p| ==> s[k] == p[k];
      if Highest(s) != Highest(p) {
        assert s[|s| - 1] == Num(Highest(s).value);
      } else if Highest(s).Finite? {
        var k :| 0 <= k < |p| && p[k] == Num(Highest(p).value);
        assert s[k] == Num(Highest(s).value);
      }
    }
  }

  /** Once one number has been seen, both extrema are finite and ordered. */
  lemma ExtremaOrdered(s: seq<Cell>)
    requires !AllMissing(s)
    ensures Lowest(s).Finite? && Highest(s).Finite?
    ensures Lowest(s).value <= Highest(s).value
  {
    LowestIsLeast(s);
    HighestIsGreatest(s);
    var k :| 0 <= k < |s| && s[k] == Num(Lowest(s).value);
  }

  /** The "grow" key: multiply by `factor`, but never beyond `hi` (`f32::min`). */
  function Increase(v: real, factor: real, hi: real): (r: real)
    ensures r <= hi && r <= v * factor
    ensures r == hi || r == v * factor
  {
    Min(v * factor, hi)
  }

  /** The "shrink" key: divide by `factor`, but never below `lo` (`f32::max`). */
  function Decrease(v: real, factor: real, lo: real): (r: real)
    requires factor > 0.0
    ensures r >= lo && r >= v / factor
    ensures r == lo || r == v / factor
  {
    Max(v / factor, lo)
  }

  /** One press of a grow key or a shrink key. */
  datatype Press = Grow | Shrink

  /** The value after the presses in `ps`, in order. */
  function AfterPresses(v: real, ps: seq<Press>, factor: real, lo: real, hi: real): real
    requires factor > 0.0
  {
    if ps == [] then v
    else
      var w := AfterPresses(v, ps[..|ps| - 1], factor, lo, hi);
      if ps[|ps| - 1] == Grow then Increase(w, factor, hi) else Decrease(w, factor, lo)
  }

  /**
   * A value inside `[lo, hi]` stays inside after one press; a grow press never
   * lowers it, a shrink press never raises it, and a press at a bound towards
   * that bound leaves the value at the bound.
   */
  lemma PressStaysInRange(v: real, factor: real, lo: real, hi: real)
    requires 0.0 < lo <= v <= hi && factor > 1.0
    ensures lo <= Increase(v, factor, hi) <= hi && v <= Increase(v, factor, hi)
    ensures lo <= Decrease(v, factor, lo) <= hi && Decrease(v, factor, lo) <= v
    ensures v == hi ==> Increase(v, factor, hi) == hi
    ensures v == lo ==> Decrease(v, factor, lo) == lo
  {
    assert v * factor - v == v * (factor - 1.0);
    assert v * (factor - 1.0) > 0.0;
    assert v * factor > v;
    QuotientBelow(v, factor);
  }

  lemma QuotientBelow(v: real, factor: real)
    requires v > 0.0 && factor > 1.0
    ensures 0.0 < v / factor < v
  {
    var q := v / factor;
    assert q * factor == v;
    assert q > 0.0;
    assert q * factor - q == q * (factor - 1.0);
    assert q * (factor - 1.0) > 0.0;
  }

  /** No sequence of presses, however long or repeated at a bound, leaves `[lo, hi]`. */
  lemma {:induction false} PressesStayInRange(v: real, ps: seq<Press>, factor: real, lo: real, hi: real)
    requires 0.0 < lo <= v <= hi && factor > 1.0
    ensures lo <= AfterPresses(v, ps, factor, lo, hi) <= hi
  {
    if ps != [] {
      PressesStayInRange(v, ps[..|ps| - 1], factor, lo, hi);
      PressStaysInRange(AfterPresses(v, ps[..|ps| - 1], factor, lo, hi), factor, lo, hi);
    }
  }
}
