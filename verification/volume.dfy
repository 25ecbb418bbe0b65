/**
 * The loaded volume, reduced to what the slice state depends on: its shape in numpy order
 * (Z, Y, X), the three viewing planes and the volume axis each plane slices along.
 * Pixel data plays no part in the slice and cursor state and is not modelled.
 */
module Volume {

  /** The three 2D views of the viewer. */
  datatype Plane = Axial | Sagittal | Coronal

  /** The order in which the viewer's loops visit the planes. */
  const Planes: seq<Plane> := [Axial, Sagittal, Coronal]

  /** A normalized position inside a view; (0, 0) is the top-left corner. */
  datatype Point = Point(x: real, y: real)

  /** Shape of `image_data`: z slices of y rows of x columns. */
  datatype Shape = Shape(z: int, y: int, x: int)

  /** A voxel coordinate: column x, row y, slice z. */
  datatype Voxel = Voxel(x: int, y: int, z: int)

  /** A loaded volume has at least one voxel along every axis. */
  predicate ValidShape(s: Shape) {
    s.z >= 1 && s.y >= 1 && s.x >= 1
  }

  /** Every axis has at least two voxels, so that `k / (extent - 1)` is defined on each. */
  predicate Projectable(s: Shape) {
    s.z >= 2 && s.y >= 2 && s.x >= 2
  }

  /** The volume axis a plane's slider runs along: axial 0, sagittal 2, coronal 1. */
  function Axis(p: Plane): nat {
    match p
    case Axial => 0
    case Sagittal => 2
    case Coronal => 1
  }

  /** `shape[axis]`. */
  function Extent(s: Shape, axis: nat): int
    requires axis < 3
  {
    if axis == 0 then s.z else if axis == 1 then s.y else s.x
  }

  /** The largest slice index of a plane: `shape[axis] - 1`. */
  function MaxSlice(s: Shape, p: Plane): (m: int)
    ensures ValidShape(s) ==> m >= 0
  {
    Extent(s, Axis(p)) - 1
  }

  /** A slice index the plane can show. */
  predicate InSlice(s: Shape, p: Plane, k: int) {
    0 <= k <= MaxSlice(s, p)
  }

  /** A voxel inside the volume. */
  predicate InVolume(s: Shape, v: Voxel) {
    0 <= v.x < s.x && 0 <= v.y < s.y && 0 <= v.z < s.z
  }

  /** The coordinate of a voxel along a plane's slicing axis (the plane's slice through it). */
  function Depth(v: Voxel, p: Plane): int {
    match p
    case Axial => v.z
    case Sagittal => v.x
    case Coronal => v.y
  }

  /** Python's `max(0, min(v, hi))`, the clamp applied to every slice index written. */
  function Clamp(v: int, hi: int): (r: int)
    ensures 0 <= hi ==> 0 <= r <= hi
    ensures 0 <= v <= hi ==> r == v
    ensures v < 0 ==> r == 0
    ensures 0 <= hi < v ==> r == hi
  {
    var m := if v < hi then v else hi;
    if m > 0 then m else 0
  }

  /** Each plane slices along a different axis, so the table is a bijection onto {0, 1, 2}. */
  lemma AxisBijective()
    ensures forall p, q :: Axis(p) == Axis(q) ==> p == q
    ensures {Axis(Axial), Axis(Sagittal), Axis(Coronal)} == {0, 1, 2}
  {
    assert Axis(Axial) == 0 && Axis(Coronal) == 1 && Axis(Sagittal) == 2;
  }

  /** A voxel is inside the volume exactly when each plane's slice through it is a valid slice index. */
  lemma {:induction false} InVolumeIffSlicesInRange(s: Shape, v: Voxel)
    ensures InVolume(s, v) <==> forall p :: InSlice(s, p, Depth(v, p))
  {
    if forall p :: InSlice(s, p, Depth(v, p)) {
      assert InSlice(s, Axial, Depth(v, Axial));
      assert InSlice(s, Sagittal, Depth(v, Sagittal));
      assert InSlice(s, Coronal, Depth(v, Coronal));
    }
  }

  /** The viewer's loops visit every plane, exactly once. */
  lemma PlanesListed()
    ensures forall p :: p in Planes
    ensures |Planes| == 3 && Planes[0] != Planes[1] && Planes[1] != Planes[2] && Planes[0] != Planes[2]
  {
    forall p ensures p in Planes {
      match p
      case Axial => assert Planes[0] == p;
      case Sagittal => assert Planes[1] == p;
      case Coronal => assert Planes[2] == p;
    }
  }
}
