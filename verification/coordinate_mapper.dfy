/**
 * The coordinate mapping of `update_cursor_position`: a normalized click on one plane becomes a
 * voxel, and a voxel becomes one normalized cursor position per plane. Sagittal and coronal
 * views show the slice axis upside down, so their vertical coordinate is inverted.
 */
module CoordinateMapper {
  import opened Volume

  /** Python's `int()` on a float: rounds toward zero. */
  function Trunc(r: real): (n: int)
    ensures 0.0 <= r ==> n as real <= r < n as real + 1.0
    ensures r < 0.0 ==> n as real - 1.0 < r <= n as real
  {
    if r >= 0.0 then r.Floor else -((-r).Floor)
  }

  /** `int(t * (extent - 1))`: the voxel index under normalized coordinate t along an axis. */
  function ToVoxel(t: real, extent: int): int {
    Trunc(t * (extent - 1) as real)
  }

  /** `k / (extent - 1)`: the normalized coordinate of voxel index k along an axis. */
  function ToNormalized(k: int, extent: int): real
    requires extent >= 2
  {
    k as real / (extent - 1) as real
  }

  /** Distance between voxel centres along an axis, in normalized units. */
  function Step(extent: int): (d: real)
    requires extent >= 2
    ensures 0.0 < d <= 1.0
  {
    1.0 / (extent - 1) as real
  }

  predicate InUnit(t: real) {
    0.0 <= t <= 1.0
  }

  predicate InUnitSquare(p: Point) {
    InUnit(p.x) && InUnit(p.y)
  }

  /** Extent of the volume axis a plane shows horizontally. */
  function HorizontalExtent(s: Shape, p: Plane): int {
    match p
    case Axial => s.x
    case Sagittal => s.y
    case Coronal => s.x
  }

  /** Extent of the volume axis a plane shows vertically. */
  function VerticalExtent(s: Shape, p: Plane): int {
    match p
    case Axial => s.y
    case Sagittal => s.z
    case Coronal => s.z
  }

  /** Both in-plane axes have two voxels or more, so the plane's cursor can be computed. */
  predicate PlaneProjectable(s: Shape, p: Plane) {
    HorizontalExtent(s, p) >= 2 && VerticalExtent(s, p) >= 2
  }

  /**
   * The voxel a click at (x, y) on plane p selects; `depth` is the plane's current slice index
   * and becomes the voxel's coordinate along the plane's slicing axis.
   */
  function ClickToVoxel(s: Shape, p: Plane, depth: int, x: real, y: real): (v: Voxel)
    ensures Depth(v, p) == depth
  {
    match p
    case Axial => Voxel(ToVoxel(x, s.x), ToVoxel(y, s.y), depth)
    case Sagittal => Voxel(depth, ToVoxel(x, s.y), ToVoxel(1.0 - y, s.z))
    case Coronal => Voxel(ToVoxel(x, s.x), depth, ToVoxel(1.0 - y, s.z))
  }

  /** The cursor position plane p shows for voxel v. */
  function Project(s: Shape, v: Voxel, p: Plane): Point
    requires PlaneProjectable(s, p)
  {
    match p
    case Axial => Point(ToNormalized(v.x, s.x), ToNormalized(v.y, s.y))
    case Sagittal => Point(ToNormalized(v.y, s.y), 1.0 - ToNormalized(v.z, s.z))
    case Coronal => Point(ToNormalized(v.x, s.x), 1.0 - ToNormalized(v.z, s.z))
  }

  /** A normalized coordinate in [0, 1] selects a voxel index in [0, extent - 1]. */
  lemma ToVoxelInRange(t: real, extent: int)
    requires InUnit(t) && extent >= 1
    ensures 0 <= ToVoxel(t, extent) <= extent - 1
  {
    var d := (extent - 1) as real;
    assert 0.0 <= t * d <= d by {
      assert t * d <= 1.0 * d;
    }
  }

  /** Voxel indices in range have normalized coordinates in [0, 1]. */
  lemma ToNormalizedInUnit(k: int, extent: int)
    requires extent >= 2 && 0 <= k <= extent - 1
    ensures InUnit(ToNormalized(k, extent))
  {
  }

  /** Normalizing a voxel index and selecting at the result gives the index back. */
  lemma ToVoxelOfNormalized(k: int, extent: int)
    requires extent >= 2 && 0 <= k
    ensures ToVoxel(ToNormalized(k, extent), extent) == k
  {
    var d := (extent - 1) as real;
    assert ToNormalized(k, extent) * d == k as real;
    assert (k as real).Floor == k;
  }

  /** Selecting a voxel and normalizing it moves the coordinate back by less than one voxel. */
  lemma NormalizedOfToVoxel(t: real, extent: int)
    requires InUnit(t) && extent >= 2
    ensures var n := ToNormalized(ToVoxel(t, extent), extent);
      n <= t < n + Step(extent)
  {
    var d := (extent - 1) as real;
    var k := ToVoxel(t, extent);
    assert k as real <= t * d < k as real + 1.0;
    assert ToNormalized(k, extent) == k as real / d;
    assert Step(extent) == 1.0 / d;
    assert k as real / d <= t by {
      assert k as real <= t * d;
    }
    var q := (k as real + 1.0) / d;
    assert q * d == k as real + 1.0;
    assert t * d < q * d;
  }

  /** A click inside the view, on a plane showing a valid slice, selects a voxel inside the volume. */
  lemma {:induction false} ClickToVoxelInVolume(s: Shape, p: Plane, depth: int, x: real, y: real)
    requires ValidShape(s) && InSlice(s, p, depth) && InUnit(x) && InUnit(y)
    ensures InVolume(s, ClickToVoxel(s, p, depth, x, y))
  {
    ToVoxelInRange(x, HorizontalExtent(s, p));
    match p
    case Axial => ToVoxelInRange(y, s.y);
    case Sagittal => ToVoxelInRange(1.0 - y, s.z);
    case Coronal => ToVoxelInRange(1.0 - y, s.z);
  }

  /** The cursor position of a voxel inside the volume lies inside the view. */
  lemma {:induction false} ProjectInUnitSquare(s: Shape, v: Voxel, p: Plane)
    requires InVolume(s, v) && PlaneProjectable(s, p)
    ensures InUnitSquare(Project(s, v, p))
  {
    match p
    case Axial =>
      ToNormalizedInUnit(v.x, s.x);
      ToNormalizedInUnit(v.y, s.y);
    case Sagittal =>
      ToNormalizedInUnit(v.y, s.y);
      ToNormalizedInUnit(v.z, s.z);
    case Coronal =>
      ToNormalizedInUnit(v.x, s.x);
      ToNormalizedInUnit(v.z, s.z);
  }

  /**
   * Round trip: clicking a plane at the cursor position it shows for voxel v, with the plane at
   * its slice through v, selects v again.
   */
  lemma {:induction false} ClickAtProjection(s: Shape, v: Voxel, p: Plane)
    requires InVolume(s, v) && PlaneProjectable(s, p)
    ensures var c := Project(s, v, p);
      ClickToVoxel(s, p, Depth(v, p), c.x, c.y) == v
  {
    match p
    case Axial =>
      ToVoxelOfNormalized(v.x, s.x);
      ToVoxelOfNormalized(v.y, s.y);
    case Sagittal =>
      ToVoxelOfNormalized(v.y, s.y);
      assert 1.0 - (1.0 - ToNormalized(v.z, s.z)) == ToNormalized(v.z, s.z);
      ToVoxelOfNormalized(v.z, s.z);
    case Coronal =>
      ToVoxelOfNormalized(v.x, s.x);
      assert 1.0 - (1.0 - ToNormalized(v.z, s.z)) == ToNormalized(v.z, s.z);
      ToVoxelOfNormalized(v.z, s.z);
  }

  /**
   * The other direction: the cursor a click snaps to lies within one voxel of the click, on
   * both axes of the clicked plane (left of / above the click, except on the inverted vertical
   * axis of sagittal and coronal views, where it lies below).
   */
  lemma {:induction false} ProjectionOfClickWithinOneVoxel(s: Shape, p: Plane, depth: int, x: real, y: real)
    requires PlaneProjectable(s, p) && InUnit(x) && InUnit(y)
    ensures var c := Project(s, ClickToVoxel(s, p, depth, x, y), p);
      && c.x <= x < c.x + Step(HorizontalExtent(s, p))
      && (p == Axial ==> c.y <= y < c.y + Step(VerticalExtent(s, p)))
      && (p != Axial ==> c.y - Step(VerticalExtent(s, p)) < y <= c.y)
  {
    NormalizedOfToVoxel(x, HorizontalExtent(s, p));
    match p
    case Axial => NormalizedOfToVoxel(y, s.y);
    case Sagittal => NormalizedOfToVoxel(1.0 - y, s.z);
    case Coronal => NormalizedOfToVoxel(1.0 - y, s.z);
  }
}
