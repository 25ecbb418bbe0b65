/**
 * The viewer window's slice and cursor state, updated in place as the window's event handlers
 * do: `current_slices` and `cursor_position` are dictionaries keyed by plane, `zoom_factor` a
 * number, `pointer_mode` the interaction mode and `image_data` the optional loaded volume, of
 * which only the shape matters here.
 */
module Viewer {
  import opened Wrappers
  import opened Volume
  import opened CoordinateMapper
  import opened SliceState
  import opened Zoom

  class MprViewer {
    var volume: Option<Shape>
    var slices: map<Plane, int>
    var cursor: map<Plane, Point>
    var zoom: real
    var pointerMode: bool
    var cinePlaying: bool

    ghost predicate Valid()
      reads this
    {
      && Total(slices) && Total(cursor)
      && MinZoom <= zoom <= MaxZoom
      && (volume.Some? ==> ValidShape(volume.value))
    }

    /**
     * Every plane shows a slice of the loaded volume. Loading a DICOM series establishes it,
     * and every operation on the slices keeps it.
     */
    ghost predicate SlicesOk()
      reads this
      requires Valid()
    {
      volume.Some? ==> SlicesInRange(volume.value, slices)
    }

    /** The state of a freshly opened window: nothing loaded, slice 0 everywhere, centred cursors. */
    constructor ()
      ensures Valid()
      ensures volume == None
      ensures slices == map[Axial := 0, Sagittal := 0, Coronal := 0]
      ensures cursor == map[Axial := Point(0.5, 0.5), Sagittal := Point(0.5, 0.5), Coronal := Point(0.5, 0.5)]
      ensures zoom == 1.0 && pointerMode && !cinePlaying
    {
      volume := None;
      slices := map[Axial := 0, Sagittal := 0, Coronal := 0];
      cursor := map[Axial := Point(0.5, 0.5), Sagittal := Point(0.5, 0.5), Coronal := Point(0.5, 0.5)];
      zoom := 1.0;
      pointerMode := true;
      cinePlaying := false;
      new;
      forall p ensures p in slices && p in cursor {
        match p
        case Axial =>
        case Sagittal =>
        case Coronal =>
      }
    }

    /** `update_slice`: clamps the value into the plane's range and writes that plane only. */
    method UpdateSlice(view: Plane, value: int)
      requires Valid()
      modifies this`slices
      ensures Valid()
      ensures volume.None? ==> slices == old(slices)
      ensures volume.Some? ==> slices == WriteClamped(volume.value, old(slices), view, value)
      ensures volume.Some? ==> InSlice(volume.value, view, slices[view])
      ensures old(SlicesOk()) ==> SlicesOk()
    {
      if volume.Some? {
        var maxSlice := MaxSlice(volume.value, view);
        slices := slices[view := Clamp(value, maxSlice)];
      }
    }

    /** `initialize_views`: every plane jumps to its middle slice. */
    method InitializeViews()
      requires Valid()
      modifies this`slices
      ensures Valid()
      ensures volume.None? ==> slices == old(slices)
      ensures volume.Some? ==> slices == Midpoints(volume.value) && SlicesInRange(volume.value, slices)
      ensures old(SlicesOk()) ==> SlicesOk()
    {
      if volume.Some? {
        var s := volume.value;
        var i := 0;
        while i < |Planes|
          invariant 0 <= i <= |Planes|
          invariant Total(slices)
          invariant forall p :: slices[p] == if p in Planes[..i] then Midpoint(s, p) else old(slices)[p]
        {
          var view := Planes[i];
          assert Planes[..i + 1] == Planes[..i] + [view];
          slices := slices[view := Midpoint(s, view)];
          i := i + 1;
        }
        PlanesListed();
        assert Planes[..i] == Planes;
        assert slices.Keys == Midpoints(s).Keys;
        MidpointsInRange(s);
      }
    }

    /**
     * Loading a DICOM series: the stacked slices replace the volume (the decoder is not part of
     * this model, only the shape it produces), then the views are initialized.
     */
    method LoadDicomSeries(shape: Shape)
      requires Valid() && ValidShape(shape)
      modifies this`volume, this`slices
      ensures Valid()
      ensures volume == Some(shape)
      ensures slices == Midpoints(shape) && SlicesOk()
    {
      volume := Some(shape);
      InitializeViews();
    }

    /** `reset_slice_positions`: every plane goes to its middle slice through `update_slice`. */
    method ResetSlicePositions()
      requires Valid()
      modifies this`slices
      ensures Valid()
      ensures volume.None? ==> slices == old(slices)
      ensures volume.Some? ==> slices == Midpoints(volume.value) && SlicesInRange(volume.value, slices)
      ensures old(SlicesOk()) ==> SlicesOk()
    {
      if volume.Some? {
        var s := volume.value;
        var i := 0;
        while i < |Planes|
          invariant 0 <= i <= |Planes|
          invariant Valid() && volume == Some(s)
          invariant forall p :: slices[p] == if p in Planes[..i] then Midpoint(s, p) else old(slices)[p]
        {
          var view := Planes[i];
          assert Planes[..i + 1] == Planes[..i] + [view];
          MidpointsInRange(s);
          assert InSlice(s, view, Midpoints(s)[view]);
          UpdateSlice(view, Midpoint(s, view));
          i := i + 1;
        }
        PlanesListed();
        assert Planes[..i] == Planes;
        assert slices.Keys == Midpoints(s).Keys;
        MidpointsInRange(s);
      }
    }

    /** `cine_scroll`, one timer tick: every plane advances cyclically to its next slice. */
    method CineScroll()
      requires Valid()
      modifies this`slices
      ensures Valid()
      ensures volume.None? ==> slices == old(slices)
      ensures volume.Some? ==> slices == CineTick(volume.value, old(slices)) && SlicesInRange(volume.value, slices)
      ensures old(SlicesOk()) ==> SlicesOk()
    {
      if volume.Some? {
        var s := volume.value;
        var i := 0;
        while i < |Planes|
          invariant 0 <= i <= |Planes|
          invariant Valid() && volume == Some(s)
          invariant forall p ::
            slices[p] == if p in Planes[..i] then CineNext(old(slices)[p], MaxSlice(s, p)) else old(slices)[p]
        {
          var view := Planes[i];
          assert Planes[..i + 1] == Planes[..i] + [view];
          PlanesListed();
          assert view !in Planes[..i];
          var currentSlice := slices[view];
          var maxSlice := MaxSlice(s, view);
          var nextSlice := (currentSlice + 1) % (maxSlice + 1);
          UpdateSlice(view, nextSlice);
          i := i + 1;
        }
        PlanesListed();
        assert Planes[..i] == Planes;
        assert slices.Keys == CineTick(s, old(slices)).Keys;
        CineTickInRange(s, old(slices));
      }
    }

    /** `start_cine`: the timer runs only when a volume is loaded. */
    method StartCine()
      modifies this`cinePlaying
      ensures cinePlaying == (old(cinePlaying) || volume.Some?)
    {
      if volume.Some? {
        cinePlaying := true;
      }
    }

    /** `pause_cine`: the timer stops and the slices stay where they are. */
    method PauseCine()
      modifies this`cinePlaying
      ensures !cinePlaying
    {
      cinePlaying := false;
    }

    /** `stop_cine`: the timer stops and every plane returns to its middle slice. */
    method StopCine()
      requires Valid()
      modifies this`cinePlaying, this`slices
      ensures Valid() && !cinePlaying
      ensures volume.None? ==> slices == old(slices)
      ensures volume.Some? ==> slices == Midpoints(volume.value)
      ensures old(SlicesOk()) ==> SlicesOk()
    {
      cinePlaying := false;
      ResetSlicePositions();
    }

    /**
     * `update_cursor_position`: a click at (x, y) on `view` selects a voxel (depth from the
     * view's own slice), all three slice indices move to it and all three cursors are set to its
     * projections. When an axis has a single voxel, the projection divides by zero: `ok` is
     * false and the writes made before the failing division remain.
     */
    method UpdateCursorPosition(view: Plane, x: real, y: real) returns (ok: bool)
      requires Valid()
      modifies this`slices, this`cursor
      ensures Valid()
      ensures volume.None? ==> ok && slices == old(slices) && cursor == old(cursor)
      ensures volume.Some? ==>
        var s := volume.value;
        var v := ClickToVoxel(s, view, old(slices)[view], x, y);
        && slices == SlicesOf(v)
        && (ok <==> Projectable(s))
        && (ok ==> cursor == CursorsOf(s, v))
        && (!ok && s.x >= 2 && s.y >= 2 ==>
              cursor == old(cursor)[view := Point(x, y)][Axial := Project(s, v, Axial)])
        && (!ok && (s.x < 2 || s.y < 2) ==> cursor == old(cursor)[view := Point(x, y)])
      ensures volume.Some? && InUnit(x) && InUnit(y) && InSlice(volume.value, view, old(slices)[view]) ==>
        && SlicesInRange(volume.value, slices)
        && (ok ==> Synchronized(volume.value, slices, cursor) && forall p :: InUnitSquare(cursor[p]))
      ensures InUnit(x) && InUnit(y) && old(SlicesOk()) ==> SlicesOk()
    {
      ok := true;
      if volume.None? {
        return;
      }
      var s := volume.value;
      cursor := cursor[view := Point(x, y)];
      var v := ClickToVoxel(s, view, slices[view], x, y);
      slices := slices[Axial := v.z][Sagittal := v.x][Coronal := v.y];
      assert slices == SlicesOf(v);
      if s.x < 2 || s.y < 2 {
        ok := false;
      } else {
        cursor := cursor[Axial := Project(s, v, Axial)];
        if s.z < 2 {
          ok := false;
        } else {
          cursor := cursor[Sagittal := Project(s, v, Sagittal)][Coronal := Project(s, v, Coronal)];
          assert cursor == CursorsOf(s, v);
        }
      }
      if InUnit(x) && InUnit(y) && InSlice(s, view, old(slices)[view]) {
        ClickToVoxelInVolume(s, view, old(slices)[view], x, y);
        InVolumeIffSlicesInRange(s, v);
        if ok {
          CursorsOfSynchronized(s, v);
        }
      }
    }

    /**
     * `handle_view_click` and the left-button drag of `handle_mouse_move`: in pointer mode the
     * click moves the focus voxel; in hand mode it starts a brightness/contrast drag, which is
     * not part of this model and changes nothing here.
     */
    method HandleViewClick(view: Plane, x: real, y: real) returns (ok: bool)
      requires Valid()
      modifies this`slices, this`cursor
      ensures Valid()
      ensures (volume.None? || !pointerMode) ==> ok && slices == old(slices) && cursor == old(cursor)
      ensures volume.Some? && pointerMode ==>
        var s := volume.value;
        var v := ClickToVoxel(s, view, old(slices)[view], x, y);
        && slices == SlicesOf(v)
        && (ok <==> Projectable(s))
        && (ok ==> cursor == CursorsOf(s, v))
      ensures InUnit(x) && InUnit(y) && old(SlicesOk()) ==> SlicesOk()
      ensures volume.Some? && pointerMode && ok && InUnit(x) && InUnit(y) && old(SlicesOk()) ==>
        Synchronized(volume.value, slices, cursor)
    {
      ok := true;
      if volume.None? {
        return;
      }
      if pointerMode {
        ok := UpdateCursorPosition(view, x, y);
      }
    }

    /**
     * `wheelEvent`: in pointer mode the focused plane steps one slice; in hand mode the zoom
     * factor changes and every cursor is re-centred about the zoom centre.
     */
    method WheelEvent(focused: Plane, delta: int, centre: Point)
      requires Valid()
      modifies this`slices, this`cursor, this`zoom
      ensures Valid()
      ensures volume.None? ==> slices == old(slices) && cursor == old(cursor) && zoom == old(zoom)
      ensures volume.Some? && pointerMode ==>
        && slices == WheelStep(volume.value, old(slices), focused, delta)
        && cursor == old(cursor) && zoom == old(zoom)
      ensures volume.Some? && !pointerMode ==>
        && zoom == ZoomAfterWheel(old(zoom), delta)
        && cursor == RecenterAll(old(cursor), centre, old(zoom), zoom)
        && slices == old(slices)
      ensures old(SlicesOk()) ==> SlicesOk()
    {
      if volume.None? {
        return;
      }
      var s := volume.value;
      if pointerMode {
        var sliceChange := if delta > 0 then 1 else -1;
        var currentSlice := slices[focused];
        var maxSlice := MaxSlice(s, focused);
        var newSlice := Clamp(currentSlice + sliceChange, maxSlice);
        slices := slices[focused := newSlice];
      } else {
        var oldZoom := zoom;
        zoom := zoom * WheelScale(delta);
        zoom := ClampReal(zoom, MinZoom, MaxZoom);
        var i := 0;
        while i < |Planes|
          invariant 0 <= i <= |Planes|
          invariant Total(cursor) && slices == old(slices)
          invariant oldZoom == old(zoom) && zoom == ZoomAfterWheel(oldZoom, delta)
          invariant forall p ::
            cursor[p] == if p in Planes[..i] then RecenterPoint(old(cursor)[p], centre, oldZoom, zoom) else old(cursor)[p]
        {
          var view := Planes[i];
          assert Planes[..i + 1] == Planes[..i] + [view];
          PlanesListed();
          assert view !in Planes[..i];
          var pos := cursor[view];
          var newX := Recenter(pos.x, centre.x, oldZoom, zoom);
          var newY := Recenter(pos.y, centre.y, oldZoom, zoom);
          cursor := cursor[view := Point(newX, newY)];
          i := i + 1;
        }
        PlanesListed();
        assert Planes[..i] == Planes;
        assert cursor.Keys == RecenterAll(old(cursor), centre, oldZoom, zoom).Keys;
      }
    }

    /** `toggle_pointer_hand_mode`: a checked button means hand mode; nothing else is reset. */
    method TogglePointerHandMode(checked: bool)
      modifies this`pointerMode
      ensures pointerMode == !checked
    {
      pointerMode := !checked;
    }

    /** `reset_view`: zoom back to 1, pointer mode, every plane at its middle slice. */
    method ResetView()
      requires Valid()
      modifies this`zoom, this`pointerMode, this`slices
      ensures Valid()
      ensures zoom == 1.0 && pointerMode
      ensures volume.None? ==> slices == old(slices)
      ensures volume.Some? ==> slices == Midpoints(volume.value)
      ensures old(SlicesOk()) ==> SlicesOk()
    {
      zoom := 1.0;
      pointerMode := true;
      ResetSlicePositions();
    }

    /** `reset_all`: `reset_view` followed by a second slice reset, which changes nothing more. */
    method ResetAll()
      requires Valid()
      modifies this`zoom, this`pointerMode, this`slices
      ensures Valid()
      ensures zoom == 1.0 && pointerMode
      ensures volume.None? ==> slices == old(slices)
      ensures volume.Some? ==> slices == Midpoints(volume.value)
      ensures old(SlicesOk()) ==> SlicesOk()
    {
      ResetView();
      ResetSlicePositions();
    }
  }
}
