/**
 * How a view label turns a pointer position into a normalized click: the pixmap is centred in
 * the label, the pointer is taken relative to the pixmap's top-left corner, divided by the
 * pixmap size and clamped to [0, 1]. Press and move events compute the same thing.
 */
module ClickNormalization {
  import opened Wrappers
  import opened Volume
  import opened CoordinateMapper

  /** `(outer - inner) // 2`, the margin left by centring the pixmap; Python's `//` rounds down. */
  function CenteringOffset(outer: int, inner: int): (off: int)
    ensures 2 * off <= outer - inner < 2 * off + 2
  {
    // Dafny's `/` is Euclidean; for the positive divisor 2 it rounds down like Python's `//`.
    (outer - inner) / 2
  }

  /** `max(0, min(1, t))`. */
  function Clamp01(t: real): (r: real)
    ensures InUnit(r)
    ensures InUnit(t) ==> r == t
    ensures t < 0.0 ==> r == 0.0
    ensures 1.0 < t ==> r == 1.0
  {
    if 1.0 < t then 1.0 else if t < 0.0 then 0.0 else t
  }

  /**
   * The normalized position a view label emits for a pointer at (px, py), or None when it emits
   * nothing: the label has no pixmap, or the pixmap is empty along either axis.
   */
  function NormalizeClick(hasPixmap: bool, labelWidth: int, labelHeight: int,
                          pixmapWidth: int, pixmapHeight: int, px: real, py: real): (r: Option<Point>)
    ensures r.Some? <==> hasPixmap && pixmapWidth > 0 && pixmapHeight > 0
    ensures r.Some? ==> InUnitSquare(r.value)
    ensures r.Some? ==>
      var left := CenteringOffset(labelWidth, pixmapWidth) as real;
      var top := CenteringOffset(labelHeight, pixmapHeight) as real;
      && (left <= px <= left + pixmapWidth as real ==> r.value.x * pixmapWidth as real == px - left)
      && (px < left ==> r.value.x == 0.0)
      && (left + pixmapWidth as real < px ==> r.value.x == 1.0)
      && (top <= py <= top + pixmapHeight as real ==> r.value.y * pixmapHeight as real == py - top)
      && (py < top ==> r.value.y == 0.0)
      && (top + pixmapHeight as real < py ==> r.value.y == 1.0)
  {
    if hasPixmap && pixmapWidth > 0 && pixmapHeight > 0 then
      var xOffset := CenteringOffset(labelWidth, pixmapWidth);
      var yOffset := CenteringOffset(labelHeight, pixmapHeight);
      Some(Point(PixmapFraction(px, xOffset as real, pixmapWidth as real),
                 PixmapFraction(py, yOffset as real, pixmapHeight as real)))
    else
      None
  }

  /**
   * `max(0, min(1, (pos - offset) / size))`: one coordinate of the pointer relative to a
   * pixmap starting at `offset` and `size` long, clamped to the pixmap.
   */
  function PixmapFraction(pos: real, offset: real, size: real): (r: real)
    requires 0.0 < size
    ensures InUnit(r)
    ensures offset <= pos <= offset + size ==> r * size == pos - offset
    ensures pos < offset ==> r == 0.0
    ensures offset + size < pos ==> r == 1.0
  {
    var adjusted := (pos - offset) / size;
    assert adjusted * size == pos - offset;
    Clamp01(adjusted)
  }

  /** Whatever the label emits selects a voxel inside the volume when the plane shows a valid slice. */
  lemma {:induction false} EmittedClickSelectsVoxelInVolume(
    s: Shape, p: Plane, depth: int,
    hasPixmap: bool, labelWidth: int, labelHeight: int, pixmapWidth: int, pixmapHeight: int, px: real, py: real)
    requires ValidShape(s) && InSlice(s, p, depth)
    requires NormalizeClick(hasPixmap, labelWidth, labelHeight, pixmapWidth, pixmapHeight, px, py).Some?
    ensures var c := NormalizeClick(hasPixmap, labelWidth, labelHeight, pixmapWidth, pixmapHeight, px, py).value;
      InVolume(s, ClickToVoxel(s, p, depth, c.x, c.y))
  {
    var c := NormalizeClick(hasPixmap, labelWidth, labelHeight, pixmapWidth, pixmapHeight, px, py).value;
    ClickToVoxelInVolume(s, p, depth, c.x, c.y);
  }
}
