/**
 * Hand-mode wheel zoom: the zoom factor is scaled by the wheel delta and clamped to
 * [0.1, 5.0], and every cursor position (which doubles as each view's viewport centre) is
 * moved so that the point under the zoom centre stays put.
 */
module Zoom {
  import opened Volume
  import opened CoordinateMapper

  const MinZoom: real := 0.1
  const MaxZoom: real := 5.0
  /** Zoom change per wheel notch. */
  const ZoomSpeed: real := 0.1
  /** Wheel delta of one notch. */
  const WheelNotch: real := 120.0

  /** `max(lo, min(hi, t))`. */
  function ClampReal(t: real, lo: real, hi: real): (r: real)
    requires lo <= hi
    ensures lo <= r <= hi
    ensures lo <= t <= hi ==> r == t
    ensures t < lo ==> r == lo
    ensures hi < t ==> r == hi
  {
    if hi < t then hi else if t < lo then lo else t
  }

  /** The factor a wheel delta multiplies the zoom by before clamping. */
  function WheelScale(delta: int): real {
    1.0 + ZoomSpeed * (delta as real / WheelNotch)
  }

  /** The zoom factor after a hand-mode wheel step. */
  function ZoomAfterWheel(zoom: real, delta: int): (z: real)
    ensures MinZoom <= z <= MaxZoom
    ensures MinZoom <= zoom * WheelScale(delta) <= MaxZoom ==> z == zoom * WheelScale(delta)
    ensures zoom * WheelScale(delta) < MinZoom ==> z == MinZoom
    ensures MaxZoom < zoom * WheelScale(delta) ==> z == MaxZoom
  {
    ClampReal(zoom * WheelScale(delta), MinZoom, MaxZoom)
  }

  /** `(pos * old + centre * (new - old)) / new`, one coordinate of the re-centring. */
  function Recenter(pos: real, centre: real, oldZoom: real, newZoom: real): (r: real)
    requires newZoom > 0.0
    ensures (r - centre) * newZoom == (pos - centre) * oldZoom
    ensures newZoom == oldZoom ==> r == pos
    ensures pos == centre ==> r == centre
  {
    var num := pos * oldZoom + centre * (newZoom - oldZoom);
    assert num / newZoom * newZoom == num;
    num / newZoom
  }

  function RecenterPoint(p: Point, centre: Point, oldZoom: real, newZoom: real): Point
    requires newZoom > 0.0
  {
    Point(Recenter(p.x, centre.x, oldZoom, newZoom), Recenter(p.y, centre.y, oldZoom, newZoom))
  }

  /** Every plane's cursor after a zoom step from oldZoom to newZoom about centre. */
  function RecenterAll(c: map<Plane, Point>, centre: Point, oldZoom: real, newZoom: real): map<Plane, Point>
    requires newZoom > 0.0
  {
    map p | p in c :: RecenterPoint(c[p], centre, oldZoom, newZoom)
  }

  /** A wheel step whose zoom is clamped back to the old zoom leaves every cursor where it was. */
  lemma {:induction false} UnchangedZoomKeepsCursors(c: map<Plane, Point>, centre: Point, zoom: real, delta: int)
    requires MinZoom <= zoom <= MaxZoom
    requires ZoomAfterWheel(zoom, delta) == zoom
    ensures RecenterAll(c, centre, zoom, ZoomAfterWheel(zoom, delta)) == c
  {
    var c' := RecenterAll(c, centre, zoom, zoom);
    forall p | p in c ensures c'[p] == c[p] {
      assert c'[p] == RecenterPoint(c[p], centre, zoom, zoom);
    }
    assert c'.Keys == c.Keys;
  }

  /**
   * Zooming in (or staying) pulls a cursor toward the zoom centre, so a cursor and a centre in
   * the view leave the cursor in the view.
   */
  lemma {:induction false} ZoomInKeepsCursorInView(pos: real, centre: real, oldZoom: real, newZoom: real)
    requires 0.0 < oldZoom <= newZoom
    requires InUnit(pos) && InUnit(centre)
    ensures InUnit(Recenter(pos, centre, oldZoom, newZoom))
    ensures pos <= centre ==> pos <= Recenter(pos, centre, oldZoom, newZoom) <= centre
    ensures centre <= pos ==> centre <= Recenter(pos, centre, oldZoom, newZoom) <= pos
  {
    var r := Recenter(pos, centre, oldZoom, newZoom);
    var w := oldZoom / newZoom;
    assert 0.0 < w <= 1.0;
    assert r == centre + (pos - centre) * w by {
      assert (r - centre) * newZoom == (pos - centre) * oldZoom;
      assert r - centre == (pos - centre) * oldZoom / newZoom;
    }
    if pos <= centre {
      assert (pos - centre) * w >= pos - centre;
    } else {
      assert (pos - centre) * w <= pos - centre;
    }
  }

  /**
   * Zooming out pushes cursors away from the zoom centre, out of the view: one notch down from
   * zoom 1 about the right edge moves a cursor at the left edge to -1/9.
   */
  lemma ZoomOutCanPushCursorOutOfView()
    ensures ZoomAfterWheel(1.0, -120) == 0.9
    ensures Recenter(0.0, 1.0, 1.0, ZoomAfterWheel(1.0, -120)) == -1.0 / 9.0
  {
  }
}
