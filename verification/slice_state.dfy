/**
 * The slice indices (`current_slices`) and cursor positions (`cursor_position`) as values: one
 * function per way the viewer changes them, and what each change guarantees. The viewer class
 * performs these changes in place and is proved to agree with these functions.
 */
module SliceState {
  import opened Volume
  import opened CoordinateMapper

  /** One integer slice index per plane. */
  type Slices = map<Plane, int>

  /** One normalized cursor position per plane. */
  type Cursors = map<Plane, Point>

  /** The dictionary has an entry for each of the three planes. */
  predicate Total<T>(m: map<Plane, T>) {
    forall p :: p in m
  }

  /** Every plane shows a slice that exists in the volume. */
  predicate SlicesInRange(s: Shape, m: Slices)
    requires Total(m)
  {
    forall p :: InSlice(s, p, m[p])
  }

  /** `update_slice(view, value)`: the clamped write of one plane's index. */
  function WriteClamped(s: Shape, m: Slices, p: Plane, value: int): Slices {
    m[p := Clamp(value, MaxSlice(s, p))]
  }

  /** `(shape[axis] - 1) // 2`, the slice a plane is reset to. */
  function Midpoint(s: Shape, p: Plane): int {
    // MaxSlice is not negative for a loaded volume, where `/` and Python's `//` agree.
    MaxSlice(s, p) / 2
  }

  /** The slice indices after `initialize_views` or `reset_slice_positions`. */
  function Midpoints(s: Shape): Slices {
    map p: Plane :: Midpoint(s, p)
  }

  /** `(k + 1) % (max + 1)`: the next slice of a cine loop over [0, max]. */
  function CineNext(k: int, max: int): (r: int)
    requires max >= 0
    ensures 0 <= r <= max
    ensures -1 <= k < max ==> r == k + 1
    ensures k == max ==> r == 0
  {
    // Dafny's `%` is Euclidean; for a positive divisor it agrees with Python's `%`.
    (k + 1) % (max + 1)
  }

  /** One `cine_scroll` tick: every plane advances to its next slice. */
  function CineTick(s: Shape, m: Slices): Slices
    requires ValidShape(s)
  {
    map p | p in m :: CineNext(m[p], MaxSlice(s, p))
  }

  /** n ticks of cine playback. */
  function CineTicks(s: Shape, m: Slices, n: nat): Slices
    requires ValidShape(s)
  {
    if n == 0 then m else CineTick(s, CineTicks(s, m, n - 1))
  }

  /** The wheel's step direction in pointer mode: up for a positive delta, down otherwise. */
  function WheelDirection(delta: int): int {
    if delta > 0 then 1 else -1
  }

  /** Pointer-mode `wheelEvent`: the focused plane steps one slice, clamped to its range. */
  function WheelStep(s: Shape, m: Slices, focused: Plane, delta: int): Slices
    requires focused in m
  {
    m[focused := Clamp(m[focused] + WheelDirection(delta), MaxSlice(s, focused))]
  }

  /** The slice indices `update_cursor_position` writes for voxel v. */
  function SlicesOf(v: Voxel): Slices {
    map p: Plane :: Depth(v, p)
  }

  /** The focus voxel the slice indices describe: sagittal gives x, coronal y, axial z. */
  function FocusVoxel(m: Slices): Voxel
    requires Total(m)
  {
    Voxel(m[Sagittal], m[Coronal], m[Axial])
  }

  /** The cursor positions `update_cursor_position` writes for voxel v. */
  function CursorsOf(s: Shape, v: Voxel): Cursors
    requires Projectable(s)
  {
    map p: Plane :: Project(s, v, p)
  }

  /**
   * The three views agree: clicking any plane at its own cursor, with that plane at its own
   * slice, selects the same voxel, the one the slice indices describe.
   */
  predicate Synchronized(s: Shape, m: Slices, c: Cursors)
    requires Total(m) && Total(c)
  {
    forall p :: ClickToVoxel(s, p, m[p], c[p].x, c[p].y) == FocusVoxel(m)
  }

  // ---- clamped writes ----

  /** A clamped write puts the plane in range and leaves the other planes alone. */
  lemma WriteClampedInRange(s: Shape, m: Slices, p: Plane, value: int)
    requires ValidShape(s)
    ensures InSlice(s, p, WriteClamped(s, m, p, value)[p])
    ensures forall q :: q != p && q in m ==> WriteClamped(s, m, p, value)[q] == m[q]
    ensures InSlice(s, p, value) ==> WriteClamped(s, m, p, value)[p] == value
  {
  }

  /**
   * The slider echo: writing back the value a clamped write produced changes nothing, so the
   * `setValue` call inside `update_slice` settles after one round.
   */
  lemma {:induction false} WriteClampedEchoIdempotent(s: Shape, m: Slices, p: Plane, value: int)
    requires ValidShape(s)
    ensures var m' := WriteClamped(s, m, p, value);
      WriteClamped(s, m', p, m'[p]) == m'
  {
    var m' := WriteClamped(s, m, p, value);
    WriteClampedInRange(s, m, p, value);
    assert Clamp(m'[p], MaxSlice(s, p)) == m'[p];
  }

  // ---- midpoint reset ----

  /** The midpoint of each plane is a valid slice, at most half a slice below the centre. */
  lemma {:induction false} MidpointsInRange(s: Shape)
    requires ValidShape(s)
    ensures Total(Midpoints(s)) && SlicesInRange(s, Midpoints(s))
    ensures forall p :: 2 * Midpoints(s)[p] <= MaxSlice(s, p) <= 2 * Midpoints(s)[p] + 1
  {
    forall p ensures InSlice(s, p, Midpoints(s)[p]) && 2 * Midpoints(s)[p] <= MaxSlice(s, p) <= 2 * Midpoints(s)[p] + 1 {
      assert Midpoints(s)[p] == MaxSlice(s, p) / 2;
    }
  }

  // ---- cine playback ----

  /** A tick keeps the dictionary total and every index in range. */
  lemma CineTickInRange(s: Shape, m: Slices)
    requires ValidShape(s) && Total(m)
    ensures Total(CineTick(s, m)) && SlicesInRange(s, CineTick(s, m))
  {
  }

  /** Where one plane's cine loop over [0, max] stands after n ticks from slice k. */
  function CineOrbit(k: int, n: nat, max: int): int
    requires max >= 0
  {
    if n == 0 then k else CineNext(CineOrbit(k, n - 1, max), max)
  }

  /** n ticks of the whole state move each plane along its own orbit. */
  lemma {:induction false} CineTicksAt(s: Shape, m: Slices, n: nat)
    requires ValidShape(s) && Total(m)
    ensures Total(CineTicks(s, m, n))
    ensures forall p :: CineTicks(s, m, n)[p] == CineOrbit(m[p], n, MaxSlice(s, p))
  {
    if n > 0 {
      CineTicksAt(s, m, n - 1);
    }
  }

  /** Ticking a then b times is ticking a + b times. */
  lemma {:induction false} CineOrbitAdditive(k: int, a: nat, b: nat, max: int)
    requires max >= 0
    ensures CineOrbit(k, a + b, max) == CineOrbit(CineOrbit(k, a, max), b, max)
  {
    if b > 0 {
      CineOrbitAdditive(k, a, b - 1, max);
    }
  }

  /** Below the last slice, each tick advances by exactly one. */
  lemma {:induction false} CineOrbitClimbs(k: int, j: nat, max: int)
    requires 0 <= k && k + j <= max
    ensures CineOrbit(k, j, max) == k + j
  {
    if j > 0 {
      CineOrbitClimbs(k, j - 1, max);
    }
  }

  /** From any slice in range, `max + 1` ticks bring the plane back to that slice. */
  lemma {:induction false} CineOrbitPeriodic(k: int, max: int)
    requires 0 <= k <= max
    ensures CineOrbit(k, max + 1, max) == k
  {
    CineOrbitClimbs(k, max - k, max);
    assert CineOrbit(k, max - k + 1, max) == 0;
    CineOrbitAdditive(k, max - k + 1, k, max);
    CineOrbitClimbs(0, k, max);
  }

  lemma PeriodsSplit(c: nat, period: nat)
    requires c > 0
    ensures 0 <= (c - 1) * period && c * period == (c - 1) * period + period
  {
  }

  /** Any whole number of periods brings the plane back. */
  lemma {:induction false} CineOrbitPeriods(k: int, c: nat, max: int)
    requires 0 <= k <= max
    ensures CineOrbit(k, c * (max + 1), max) == k
  {
    if c > 0 {
      var period: nat := max + 1;
      PeriodsSplit(c, period);
      var before: nat := (c - 1) * period;
      CineOrbitPeriods(k, c - 1, max);
      CineOrbitAdditive(k, before, period, max);
      CineOrbitPeriodic(k, max);
    }
  }

  /**
   * Cine is periodic per plane: after `max + 1` ticks a plane is back at the slice it started
   * from, whatever the other planes do.
   */
  lemma {:induction false} CineReturns(s: Shape, m: Slices, p: Plane)
    requires ValidShape(s) && Total(m) && SlicesInRange(s, m)
    ensures var n := MaxSlice(s, p) + 1;
      p in CineTicks(s, m, n) && CineTicks(s, m, n)[p] == m[p]
  {
    CineTicksAt(s, m, MaxSlice(s, p) + 1);
    CineOrbitPeriodic(m[p], MaxSlice(s, p));
  }

  /** A plane is back at its starting slice after any whole number of its periods. */
  lemma {:induction false} CineReturnsAfterPeriods(s: Shape, m: Slices, p: Plane, c: nat, n: nat)
    requires ValidShape(s) && Total(m) && SlicesInRange(s, m)
    requires n == c * (MaxSlice(s, p) + 1)
    ensures p in CineTicks(s, m, n) && CineTicks(s, m, n)[p] == m[p]
  {
    var max := MaxSlice(s, p);
    assert InSlice(s, p, m[p]);
    CineOrbitPeriods(m[p], c, max);
    assert CineOrbit(m[p], n, max) == m[p];
    CineTicksAt(s, m, n);
  }

  lemma ProductOfThree(a: nat, b: nat, c: nat)
    ensures 0 <= b * c && 0 <= a * c && 0 <= a * b && 0 <= a * b * c
    ensures a * b * c == (b * c) * a == (a * c) * b == (a * b) * c
  {
  }

  /** After z * y * x ticks every plane is back where it started. */
  lemma {:induction false} CineFullCycle(s: Shape, m: Slices)
    requires ValidShape(s) && Total(m) && SlicesInRange(s, m)
    ensures CineTicks(s, m, s.z * s.y * s.x) == m
  {
    ProductOfThree(s.z, s.y, s.x);
    var n: nat := s.z * s.y * s.x;
    var axialPeriods: nat, sagittalPeriods: nat, coronalPeriods: nat := s.y * s.x, s.z * s.y, s.z * s.x;
    assert n == axialPeriods * s.z && n == sagittalPeriods * s.x && n == coronalPeriods * s.y;
    CineReturnsAfterPeriods(s, m, Axial, axialPeriods, n);
    CineReturnsAfterPeriods(s, m, Sagittal, sagittalPeriods, n);
    CineReturnsAfterPeriods(s, m, Coronal, coronalPeriods, n);
    var m' := CineTicks(s, m, n);
    CineTicksAt(s, m, n);
    forall p ensures m'[p] == m[p] {
      match p
      case Axial =>
      case Sagittal =>
      case Coronal =>
    }
    assert m'.Keys == m.Keys;
  }

  // ---- pointer-mode wheel ----

  /**
   * The wheel moves only the focused plane, by at most one slice in the wheel's direction, and
   * stays in range; it stands still exactly at the end of the range it is moving toward.
   */
  lemma {:induction false} WheelStepMovesFocusedPlaneOnly(s: Shape, m: Slices, focused: Plane, delta: int)
    requires ValidShape(s) && Total(m) && SlicesInRange(s, m)
    ensures var m' := WheelStep(s, m, focused, delta);
      && Total(m') && SlicesInRange(s, m')
      && (forall q :: q != focused ==> m'[q] == m[q])
      && (delta > 0 ==> m[focused] <= m'[focused] <= m[focused] + 1)
      && (delta <= 0 ==> m[focused] - 1 <= m'[focused] <= m[focused])
      && (m'[focused] == m[focused] <==>
            (delta > 0 && m[focused] == MaxSlice(s, focused)) || (delta <= 0 && m[focused] == 0))
  {
    assert InSlice(s, focused, m[focused]);
  }

  // ---- cursor synchronisation ----

  /** The slice indices written for a voxel describe that voxel. */
  lemma FocusVoxelOfSlicesOf(v: Voxel)
    ensures Total(SlicesOf(v)) && FocusVoxel(SlicesOf(v)) == v
  {
  }

  /**
   * Cross-plane consistency: the slice indices and cursor positions written for a voxel inside
   * the volume are synchronized, and every cursor lies inside its view.
   */
  lemma {:induction false} CursorsOfSynchronized(s: Shape, v: Voxel)
    requires Projectable(s) && InVolume(s, v)
    ensures Total(SlicesOf(v)) && Total(CursorsOf(s, v))
    ensures Synchronized(s, SlicesOf(v), CursorsOf(s, v))
    ensures forall p :: InUnitSquare(CursorsOf(s, v)[p])
  {
    forall p
      ensures ClickToVoxel(s, p, SlicesOf(v)[p], CursorsOf(s, v)[p].x, CursorsOf(s, v)[p].y) == v
      ensures InUnitSquare(CursorsOf(s, v)[p])
    {
      ClickAtProjection(s, v, p);
      ProjectInUnitSquare(s, v, p);
    }
  }

  /**
   * `update_slice` writes one index and leaves every cursor as it was, so moving the sagittal
   * slider away from the focus voxel leaves the axial cursor pointing at the old column: the
   * views are no longer synchronized.
   */
  lemma {:induction false} SliderMoveDesynchronizes(s: Shape, v: Voxel, value: int)
    requires Projectable(s) && InVolume(s, v)
    requires InSlice(s, Sagittal, value) && value != v.x
    ensures var m := WriteClamped(s, SlicesOf(v), Sagittal, value);
      Total(m) && !Synchronized(s, m, CursorsOf(s, v))
  {
    var m := WriteClamped(s, SlicesOf(v), Sagittal, value);
    var c := CursorsOf(s, v);
    ClickAtProjection(s, v, Axial);
    assert ClickToVoxel(s, Axial, m[Axial], c[Axial].x, c[Axial].y) == v;
    assert FocusVoxel(m).x == value;
  }
}
