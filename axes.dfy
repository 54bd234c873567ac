/**
 * The projection of src/renderer.rs: per axis, a data value `v` is drawn at
 * `v * scale + delta` in normalised device coordinates. The axis operations
 * are stated here as functions on an `Axis` value, with their properties as
 * lemmas; the `Projection` class updates its six fields in place and each of
 * its methods is tied to one of these functions.
 */
module Axes {
  import opened Floats
  import opened Config

  /** One axis of the projection. */
  datatype Axis = Axis(scale: real, delta: real)

  /** The identity axis a new projection starts with. */
  const Identity: Axis := Axis(1.0, 0.0)

  /** Where the axis draws data value `v`. */
  function Place(a: Axis, v: real): real
  {
    v * a.scale + a.delta
  }

  /** Which data value the axis draws at device position `p`. */
  function DataAt(a: Axis, p: real): real
    requires a.scale != 0.0
  {
    (p - a.delta) / a.scale
  }

  /** For an invertible axis, placing and reading back are inverse to each other. */
  lemma PlaceInverse(a: Axis, v: real, p: real)
    requires a.scale != 0.0
    ensures DataAt(a, Place(a, v)) == v
    ensures Place(a, DataAt(a, p)) == p
  {
    assert (v * a.scale + a.delta - a.delta) / a.scale == (v * a.scale) / a.scale;
    var q := (p - a.delta) / a.scale;
    assert q * a.scale == p - a.delta;
  }

  /**
   * `adjust_x`/`adjust_y` (bottom -1, span 2) and `adjust_z` (bottom 0,
   * span 1): a proper range `[lo, hi]` gets the scale `span / (hi - lo)`, a
   * degenerate one keeps the old scale; then `lo` is moved to `bottom`.
   */
  function Fit(a: Axis, lo: real, hi: real, bottom: real, span: real): (r: Axis)
    ensures lo == hi ==> r.scale == a.scale
  {
    var scale := if hi != lo then span / (hi - lo) else a.scale;
    Axis(scale, bottom - lo * scale)
  }

  /** The axis maps `lo` to `bottom` and, for a proper range, `hi` to `bottom + span`. */
  predicate Fits(a: Axis, lo: real, hi: real, bottom: real, span: real)
  {
    Place(a, lo) == bottom && (lo < hi ==> Place(a, hi) == bottom + span)
  }

  /** A fitted axis fits, and a proper range gives it a positive scale. */
  lemma FitFits(a: Axis, lo: real, hi: real, bottom: real, span: real)
    requires lo <= hi && span > 0.0
    ensures Fits(Fit(a, lo, hi, bottom, span), lo, hi, bottom, span)
    ensures lo < hi ==> Fit(a, lo, hi, bottom, span).scale > 0.0
  {
    if lo < hi {
      var s := span / (hi - lo);
      assert s * (hi - lo) == span;
      assert hi * s - lo * s == span;
    }
  }

  /** A proper range has only one fitting axis. */
  lemma FitIsUnique(a: Axis, b: Axis, lo: real, hi: real, bottom: real, span: real)
    requires lo < hi && Fits(a, lo, hi, bottom, span) && Fits(b, lo, hi, bottom, span)
    ensures a == b
  {
    assert (hi - lo) * a.scale == span;
    assert (hi - lo) * b.scale == span;
    assert (hi - lo) * (a.scale - b.scale) == 0.0;
  }

  /** Fitting an axis that already fits changes nothing; so fitting twice is fitting once. */
  lemma FitIdempotent(a: Axis, lo: real, hi: real, bottom: real, span: real)
    requires lo <= hi && span > 0.0
    ensures Fits(a, lo, hi, bottom, span) ==> Fit(a, lo, hi, bottom, span) == a
    ensures Fit(Fit(a, lo, hi, bottom, span), lo, hi, bottom, span) == Fit(a, lo, hi, bottom, span)
  {
    FitFits(a, lo, hi, bottom, span);
    if lo < hi {
      var f := Fit(a, lo, hi, bottom, span);
      FitFits(f, lo, hi, bottom, span);
      FitIsUnique(Fit(f, lo, hi, bottom, span), f, lo, hi, bottom, span);
      if Fits(a, lo, hi, bottom, span) {
        FitIsUnique(f, a, lo, hi, bottom, span);
      }
    }
  }

  /** `move_x`/`move_y`: shift the axis by `shift` device units. */
  function Pan(a: Axis, shift: real): (r: Axis)
    ensures r.scale == a.scale
  {
    Axis(a.scale, a.delta + shift)
  }

  /** How far, in device units, a drag of `d` pixels across a `size`-pixel window pans. */
  function PanShift(d: int, size: nat): real
    requires size > 0
  {
    2.0 * d as real / size as real
  }

  /**
   * Dragging from pixel `p0` through `p1` to `p2` pans as far as dragging
   * from `p0` to `p2`; dragging back to the start undoes the pan.
   */
  lemma DragsCompose(a: Axis, p0: int, p1: int, p2: int, size: nat)
    requires size > 0
    ensures Pan(Pan(a, PanShift(p1 - p0, size)), PanShift(p2 - p1, size)) == Pan(a, PanShift(p2 - p0, size))
    ensures Pan(Pan(a, PanShift(p1 - p0, size)), PanShift(p0 - p1, size)) == a
  {
    var s := size as real;
    assert 2.0 * (p1 - p0) as real / s + 2.0 * (p2 - p1) as real / s == (2.0 * (p1 - p0) as real + 2.0 * (p2 - p1) as real) / s;
    assert 2.0 * (p1 - p0) as real / s + 2.0 * (p0 - p1) as real / s == (2.0 * (p1 - p0) as real + 2.0 * (p0 - p1) as real) / s;
  }

  /** The device x position of pixel column `posx`: column 0 is -1, column `width` is +1. */
  function CursorX(posx: nat, width: nat): real
    requires width > 0
  {
    2.0 * posx as real / width as real - 1.0
  }

  /** The device y position of pixel row `posy`, flipped: row 0 is +1. */
  function CursorY(posy: nat, height: nat): real
    requires height > 0
  {
    -(2.0 * posy as real / height as real - 1.0)
  }

  /**
   * `scroll_x`/`scroll_y`: multiply the scale by `factor` (the scroll base
   * raised to the wheel delta), floored at `SCALE_MIN`, and move the offset
   * so that what is drawn at device position `p` stays there.
   */
  function Zoom(a: Axis, factor: real, p: real): (r: Axis)
    requires a.scale > 0.0
    ensures r.scale == Max(SCALE_MIN, a.scale * factor) && r.scale >= SCALE_MIN
  {
    var scale := Max(SCALE_MIN, a.scale * factor);
    Axis(scale, a.delta + (a.scale - scale) * (p - a.delta) / a.scale)
  }

  /** A zoom keeps the data value under the pointer under the pointer. */
  lemma ZoomKeepsPoint(a: Axis, factor: real, p: real)
    requires a.scale > 0.0
    ensures DataAt(Zoom(a, factor, p), p) == DataAt(a, p)
  {
    var z := Zoom(a, factor, p);
    var s, s2, d := a.scale, z.scale, a.delta;
    var v := (p - d) / s;
    assert (s - s2) * (p - d) / s == (s - s2) * v;
    assert z.delta == d + (s - s2) * v;
    assert p - z.delta == s2 * v by {
      assert p - d == s * v;
    }
    assert DataAt(z, p) == (s2 * v) / s2 == v;
  }

  /** Two axes with the same positive scale that read the same value at one position are equal. */
  lemma SameReadingSameAxis(a: Axis, b: Axis, p: real)
    requires a.scale == b.scale > 0.0 && DataAt(a, p) == DataAt(b, p)
    ensures a == b
  {
    assert (p - a.delta) / a.scale * a.scale == p - a.delta;
    assert (p - b.delta) / b.scale * b.scale == p - b.delta;
  }

  /**
   * Zooming in by `factor` and back out by `1 / factor` at the same pointer
   * position restores the axis, as long as neither zoom hits the floor.
   */
  lemma ZoomUndone(a: Axis, factor: real, p: real)
    requires factor > 0.0 && a.scale >= SCALE_MIN && a.scale * factor >= SCALE_MIN
    ensures Zoom(Zoom(a, factor, p), 1.0 / factor, p) == a
  {
    var b := Zoom(a, factor, p);
    assert b.scale == a.scale * factor;
    assert a.scale * factor * (1.0 / factor) == a.scale;
    var c := Zoom(b, 1.0 / factor, p);
    assert c.scale == a.scale;
    ZoomKeepsPoint(a, factor, p);
    ZoomKeepsPoint(b, 1.0 / factor, p);
    SameReadingSameAxis(c, a, p);
  }

  /** A column-major 4x4 matrix applied to the homogeneous point `(x, y, z, 1)`. */
  function Apply(mat: seq<seq<real>>, x: real, y: real, z: real): seq<real>
    requires |mat| == 4 && forall c :: 0 <= c < 4 ==> |mat[c]| == 4
  {
    [mat[0][0] * x + mat[1][0] * y + mat[2][0] * z + mat[3][0],
     mat[0][1] * x + mat[1][1] * y + mat[2][1] * z + mat[3][1],
     mat[0][2] * x + mat[1][2] * y + mat[2][2] * z + mat[3][2],
     mat[0][3] * x + mat[1][3] * y + mat[2][3] * z + mat[3][3]]
  }

  /** The `Projection` struct: three axes stored as six fields updated in place. */
  class Projection {
    var scaleX: real
    var scaleY: real
    var scaleZ: real
    var deltaX: real
    var deltaY: real
    var deltaZ: real

    function X(): Axis
      reads this`scaleX, this`deltaX
    {
      Axis(scaleX, deltaX)
    }

    function Y(): Axis
      reads this`scaleY, this`deltaY
    {
      Axis(scaleY, deltaY)
    }

    function Z(): Axis
      reads this`scaleZ, this`deltaZ
    {
      Axis(scaleZ, deltaZ)
    }

    /** `Projection::new`: every axis the identity. */
    constructor ()
      ensures X() == Identity && Y() == Identity && Z() == Identity
    {
      scaleX, scaleY, scaleZ := 1.0, 1.0, 1.0;
      deltaX, deltaY, deltaZ := 0.0, 0.0, 0.0;
    }

    /** `adjust_x`: fit x to `[lo, hi]`, `lo` to the left edge and `hi` to the right. */
    method AdjustX(lo: real, hi: real)
      modifies this`scaleX, this`deltaX
      ensures X() == Fit(old(X()), lo, hi, -1.0, 2.0)
    {
      if hi != lo {
        scaleX := 2.0 / (hi - lo);
      }
      deltaX := -1.0 - lo * scaleX;
    }

    /** `adjust_y`: fit y to `[lo, hi]`, `lo` to the bottom edge and `hi` to the top. */
    method AdjustY(lo: real, hi: real)
      modifies this`scaleY, this`deltaY
      ensures Y() == Fit(old(Y()), lo, hi, -1.0, 2.0)
    {
      if hi != lo {
        scaleY := 2.0 / (hi - lo);
      }
      deltaY := -1.0 - lo * scaleY;
    }

    /** `adjust_z`: fit depth to `[lo, hi]`, onto `[0, 1]`. */
    method AdjustZ(lo: real, hi: real)
      modifies this`scaleZ, this`deltaZ
      ensures Z() == Fit(old(Z()), lo, hi, 0.0, 1.0)
    {
      if hi != lo {
        scaleZ := 1.0 / (hi - lo);
      }
      deltaZ := -lo * scaleZ;
    }

    /** `move_x`: pan right by `dx` pixels of a `width`-pixel window. */
    method MoveX(dx: int, width: nat)
      requires width > 0
      modifies this`deltaX
      ensures X() == Pan(old(X()), PanShift(dx, width))
    {
      deltaX := deltaX + 2.0 * dx as real / width as real;
    }

    /** `move_y`: pan by `dy` pixel rows; rows grow downwards, so the offset shrinks. */
    method MoveY(dy: int, height: nat)
      requires height > 0
      modifies this`deltaY
      ensures Y() == Pan(old(Y()), -PanShift(dy, height))
    {
      deltaY := deltaY - 2.0 * dy as real / height as real;
    }

    /** `scroll_x`: zoom x by `factor` around pixel column `posx`. */
    method ScrollX(factor: real, posx: nat, width: nat)
      requires width > 0 && scaleX > 0.0
      modifies this`scaleX, this`deltaX
      ensures X() == Zoom(old(X()), factor, CursorX(posx, width))
    {
      var posxRelative := 2.0 * posx as real / width as real - 1.0;
      var scaleXOld := scaleX;
      scaleX := Max(SCALE_MIN, scaleX * factor);
      deltaX := deltaX + (scaleXOld - scaleX) * (posxRelative - deltaX) / scaleXOld;
    }

    /** `scroll_y`: zoom y by `factor` around pixel row `posy`. */
    method ScrollY(factor: real, posy: nat, height: nat)
      requires height > 0 && scaleY > 0.0
      modifies this`scaleY, this`deltaY
      ensures Y() == Zoom(old(Y()), factor, CursorY(posy, height))
    {
      var posyRelative := -(2.0 * posy as real / height as real - 1.0);
      var scaleYOld := scaleY;
      scaleY := Max(SCALE_MIN, scaleY * factor);
      deltaY := deltaY + (scaleYOld - scaleY) * (posyRelative - deltaY) / scaleYOld;
    }

    /** `get_matrix`: the transform handed to the shader, as four columns (OpenGL's column-major order). */
    function Matrix(): (mat: seq<seq<real>>)
      reads this
      ensures |mat| == 4 && forall c :: 0 <= c < 4 ==> |mat[c]| == 4
    {
      [[scaleX, 0.0, 0.0, 0.0],
       [0.0, scaleY, 0.0, 0.0],
       [0.0, 0.0, scaleZ, 0.0],
       [deltaX, deltaY, deltaZ, 1.0]]
    }

    /** The matrix draws the point `(x, y, z)` where the three axes place its coordinates. */
    lemma MatrixPlaces(x: real, y: real, z: real)
      ensures Apply(Matrix(), x, y, z) == [Place(X(), x), Place(Y(), y), Place(Z(), z), 1.0]
    {
      var mat := Matrix();
      assert mat[0] == [scaleX, 0.0, 0.0, 0.0] && mat[1] == [0.0, scaleY, 0.0, 0.0];
      assert mat[2] == [0.0, 0.0, scaleZ, 0.0] && mat[3] == [deltaX, deltaY, deltaZ, 1.0];
      assert 0.0 * x == 0.0 && 0.0 * y == 0.0 && 0.0 * z == 0.0;
      var r := Apply(mat, x, y, z);
      assert r[0] == scaleX * x + deltaX == Place(X(), x);
      assert r[1] == scaleY * y + deltaY == Place(Y(), y);
      assert r[2] == scaleZ * z + deltaZ == Place(Z(), z);
      assert r[3] == 1.0;
    }
  }
}
