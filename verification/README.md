# MPR viewer: slice-index and cursor state

A Dafny model of the state behind the three synchronized 2D views (axial, sagittal, coronal) of
the MPR medical-image viewer in `app/MPR.py`. The volume is reduced to its shape `(Z, Y, X)`.
The model covers:

- the plane-to-axis table: axial slices along axis 0, sagittal along axis 2, coronal along axis 1;
- the per-plane slice indices (`current_slices`) and how they change. These are clamped writes
  from the sliders, the midpoint reset, the cyclic cine tick and the pointer-mode wheel step;
- the coordinate mapping of `update_cursor_position`. A normalized click on one plane becomes a
  voxel, and that voxel becomes all three slice indices and all three normalized cursor positions;
- the click normalization of the image labels (pointer position → [0, 1] × [0, 1]);
- the hand-mode wheel zoom: the zoom factor is clamped to [0.1, 5.0] and every cursor is re-centred.

Files:

- `volume.dfy` (module `Volume`): planes, shape, axis table, voxels and the integer clamp.
- `coordinate_mapper.dfy` (`CoordinateMapper`): click → voxel and voxel → cursor as pure functions.
  It carries the round-trip and bounds lemmas.
- `click_normalization.dfy` (`ClickNormalization`): the label's pointer → normalized click.
- `slice_state.dfy` (`SliceState`): each change to `current_slices` as a function on a
  `map<Plane, int>`. It holds the cine periodicity, wheel and synchronisation lemmas.
- `zoom.dfy` (`Zoom`): zoom factor update and cursor re-centring.
- `viewer.dfy` (`Viewer`): class `MprViewer`. The window's event handlers become methods that
  update the fields in place. The slice, cine, wheel and cursor methods are proved equal to the
  functions above. Every method that writes slices keeps `SlicesOk()`: each plane shows a slice
  of the loaded volume. Loading a DICOM series establishes it.
- `wrappers.dfy` (`Wrappers`): `Option`.

Behaviour of the code that a reader might expect to be otherwise:

- The midpoint a plane is reset to is `(extent - 1) // 2`, not `extent // 2`. For a shape
  (10, 20, 30) the axial, coronal and sagittal midpoints are 4, 9 and 14.
- Toggling pointer/hand mode only switches the mode. The reset of zoom, mode and slices is done by
  `reset_view` (toolbar "Reset") and `reset_all`.
- Only `update_cursor_position` makes the three views projections of one voxel.
  `update_slice`, the cine tick and the wheel write slice indices and leave every cursor where it
  was. The lemma `SliderMoveDesynchronizes` shows that a sagittal slider move breaks the
  agreement. A hand-mode zoom moves all three cursors, and zooming out can push them out of
  [0, 1] (`ZoomOutCanPushCursorOutOfView`).
- An axis with a single voxel could have been shown at coordinate 0, but it is not. In that case
  `update_cursor_position` divides by zero after it has already written the slice indices, and in
  some cases part of the cursors. `MprViewer.UpdateCursorPosition` models this as `ok == false`
  together with exactly those partial writes.

## Model

| member | source | states |
|---|---|---|
| Volume.MaxSlice | app/MPR.py:424 | The largest slice index of a plane is `shape[axis] - 1`, never negative for a loaded volume |
| Volume.AxisBijective | app/MPR.py:386 | The plane-to-axis table gives each plane a different axis and covers axes 0, 1 and 2 |
| Volume.Clamp | app/MPR.py:425 | `max(0, min(v, hi))` lies in [0, hi], keeps in-range values, sends low values to 0 and high values to hi |
| Volume.InVolumeIffSlicesInRange | app/MPR.py:287-290 | A voxel is inside the volume exactly when axial = z, sagittal = x and coronal = y are all valid slice indices |
| CoordinateMapper.Trunc | app/MPR.py:275 | `int()` rounds toward zero: below a non-negative argument by less than 1, above a negative one by less than 1 |
| CoordinateMapper.ClickToVoxel | app/MPR.py:274-285 | The clicked plane's own slice index becomes the voxel's coordinate along that plane's axis |
| CoordinateMapper.ToVoxelInRange | app/MPR.py:275-276 | `int(t * (dim - 1))` lies in [0, dim - 1] for t in [0, 1] |
| CoordinateMapper.ToNormalizedInUnit | app/MPR.py:293 | `k / (dim - 1)` lies in [0, 1] for k in [0, dim - 1] |
| CoordinateMapper.ToVoxelOfNormalized | app/MPR.py:275 | Selecting at the normalized coordinate of voxel k selects k again |
| CoordinateMapper.NormalizedOfToVoxel | app/MPR.py:293 | The normalized coordinate of the selected voxel is at most the click and less than one voxel step below it |
| CoordinateMapper.ClickToVoxelInVolume | app/MPR.py:268-285 | A click in [0, 1]², on a plane showing a valid slice, selects a voxel inside the volume, for every extent ≥ 1 |
| CoordinateMapper.ProjectInUnitSquare | app/MPR.py:293-295 | The cursor each plane shows for a voxel inside the volume lies in [0, 1]², with the sagittal and coronal vertical axes inverted |
| CoordinateMapper.ClickAtProjection | app/MPR.py:274-295 | Round trip: clicking a plane at its cursor for voxel v, at its slice through v, selects v |
| CoordinateMapper.ProjectionOfClickWithinOneVoxel | app/MPR.py:274-295 | The cursor a click snaps to is within one voxel step of the click on both axes, on the correct side for inverted axes |
| ClickNormalization.CenteringOffset | app/MPR.py:48-49 | The offset of the centred pixmap is `(label - pixmap) // 2`, rounded down as in Python |
| ClickNormalization.Clamp01 | app/MPR.py:56 | `max(0, min(1, t))` lies in [0, 1], keeps values in [0, 1] and maps values below to 0 and above to 1 |
| ClickNormalization.NormalizeClick | app/MPR.py:48-57 | A position is emitted exactly when there is a pixmap with positive width and height. It lies in [0, 1]² and is the pointer's offset from the pixmap corner divided by the pixmap size, clamped at the edges. mouseMoveEvent (65-74) computes the same |
| ClickNormalization.EmittedClickSelectsVoxelInVolume | app/MPR.py:562-566 | Any position a label emits, handed to the cursor update, selects a voxel inside the volume |
| SliceState.WriteClampedInRange | app/MPR.py:422-427 | `update_slice` puts the plane in range, keeps an in-range value as given and leaves the other planes unchanged |
| SliceState.WriteClampedEchoIdempotent | app/MPR.py:425-426 | Writing back the clamped value (the slider's `setValue` echo) changes nothing |
| SliceState.MidpointsInRange | app/MPR.py:386-388 | Every plane's midpoint `(shape[axis] - 1) // 2` is a valid slice index, the lower middle of the range |
| SliceState.CineNext | app/MPR.py:638 | `(k + 1) % (max + 1)` lies in [0, max], is k + 1 below the last slice and wraps the last slice to 0 |
| SliceState.CineTickInRange | app/MPR.py:633-640 | After a cine tick every plane's index is in range, whatever it was before |
| SliceState.CineTicksAt | app/MPR.py:633-640 | n ticks of the whole state move each plane independently along its own cycle |
| SliceState.CineOrbitClimbs | app/MPR.py:638 | Starting at slice k, j ticks reach k + j as long as that does not pass the last slice |
| SliceState.CineOrbitPeriodic | app/MPR.py:638 | From any slice in range, `max + 1` ticks return the plane to that slice |
| SliceState.CineReturns | app/MPR.py:633-640 | In the full three-plane state, each plane is back at its starting slice after `max + 1` ticks |
| SliceState.CineFullCycle | app/MPR.py:633-640 | After z·y·x ticks the whole slice state is back where it started |
| SliceState.WheelStepMovesFocusedPlaneOnly | app/MPR.py:657-663 | The pointer-mode wheel moves only the focused plane: up by at most 1 for delta > 0, down by at most 1 otherwise (delta = 0 included). It stays in range and stands still exactly at the end it moves toward |
| SliceState.FocusVoxelOfSlicesOf | app/MPR.py:287-290 | The slice indices written for a voxel (axial = z, sagittal = x, coronal = y) describe that voxel |
| SliceState.CursorsOfSynchronized | app/MPR.py:287-295 | Slices and cursors written for a voxel inside the volume are synchronized: each plane decodes to the same voxel, and every cursor lies in [0, 1]² |
| SliceState.SliderMoveDesynchronizes | app/MPR.py:422-427 | Moving the sagittal slice off the focus voxel without touching the cursors leaves the views unsynchronized |
| Zoom.ClampReal | app/MPR.py:686 | `max(lo, min(hi, t))` lies in [lo, hi] and is t when t is in range |
| Zoom.ZoomAfterWheel | app/MPR.py:684-686 | The new zoom factor is always in [0.1, 5.0], and is `zoom * (1 + 0.1 * delta / 120)` whenever that is in range |
| Zoom.Recenter | app/MPR.py:691-692 | Zoom toward centre: the cursor's offset from the centre times the zoom is preserved; an unchanged zoom or a cursor at the centre stays put |
| Zoom.UnchangedZoomKeepsCursors | app/MPR.py:684-693 | A wheel step whose clamped zoom equals the old zoom leaves every cursor unchanged |
| Zoom.ZoomInKeepsCursorInView | app/MPR.py:689-693 | Zooming in moves a cursor toward the zoom centre, so a cursor and a centre in [0, 1] keep the cursor in [0, 1] |
| Zoom.ZoomOutCanPushCursorOutOfView | app/MPR.py:684-693 | One notch of zoom out from 1 about the right edge moves a cursor at the left edge to -1/9, outside the view |
| Viewer.MprViewer.constructor | app/MPR.py:85-95 | A new window has no volume, slice 0 on every plane, centred cursors, zoom 1 and pointer mode |
| Viewer.MprViewer.UpdateSlice | app/MPR.py:422-427 | With a volume, the plane's index becomes the clamped value and the other planes are unchanged; without one, nothing changes. All planes in range stay in range |
| Viewer.MprViewer.InitializeViews | app/MPR.py:383-392 | With a volume, every plane is set to its midpoint, which is in range |
| Viewer.MprViewer.LoadDicomSeries | app/MPR.py:371-381 | After loading, the volume has the new shape and every plane is at its midpoint, so every plane shows a slice of the volume |
| Viewer.MprViewer.ResetSlicePositions | app/MPR.py:642-648 | With a volume, every plane returns to its midpoint through the clamped write |
| Viewer.MprViewer.CineScroll | app/MPR.py:633-640 | One tick is exactly `CineTick` of the previous slices, with every index in range afterwards |
| Viewer.MprViewer.StartCine | app/MPR.py:622-624 | Playback starts only when a volume is loaded |
| Viewer.MprViewer.PauseCine | app/MPR.py:626-627 | Playback stops and the slices are kept |
| Viewer.MprViewer.StopCine | app/MPR.py:629-631 | Playback stops and every plane returns to its midpoint |
| Viewer.MprViewer.UpdateCursorPosition | app/MPR.py:264-298 | Slices become the clicked voxel's coordinates. The call succeeds exactly when every extent is at least 2, and then sets all cursors to the voxel's projections. On failure only the writes before the division remain. A click in [0, 1]² from an in-range state leaves the slices in range and, on success, the views synchronized |
| Viewer.MprViewer.HandleViewClick | app/MPR.py:558-569 | In pointer mode a click performs the cursor update; in hand mode it changes no slice or cursor. A click in [0, 1]² from an in-range state keeps the slices in range and, on success in pointer mode, leaves the views synchronized |
| Viewer.MprViewer.WheelEvent | app/MPR.py:650-696 | In pointer mode the result is the wheel step of the focused plane, with cursors and zoom unchanged. In hand mode the zoom is clamped and all cursors are re-centred, with slices unchanged. All planes in range stay in range |
| Viewer.MprViewer.TogglePointerHandMode | app/MPR.py:590-597 | A checked button selects hand mode; nothing is reset |
| Viewer.MprViewer.ResetView | app/MPR.py:132-149 | Zoom returns to 1, pointer mode is restored and every plane is at its midpoint |
| Viewer.MprViewer.ResetAll | app/MPR.py:705-712 | The result is the same as `reset_view`: the second slice reset changes nothing |

## Left out

- Loading files. DICOM decoding (pydicom) and NIfTI decoding (nibabel) are I/O. `LoadDicomSeries` takes the resulting shape as a parameter.
- NIfTI loading (`load_nifti_file`). It does not call `initialize_views`. Whether its slice indices are clamped afterwards depends on Qt's slider range echo, which is not part of this model.
- Qt widgets. This covers painting, `display_2d_image` (scaling, cropping, crosshair pixels) and the sliders' own range clamping and `valueChanged` signals. The echo of `setValue` is covered only by `WriteClampedEchoIdempotent`.
- Brightness and contrast. This covers `apply_brightness_contrast` (floating-point image work), the hand-mode drag that changes the brightness/contrast sliders, and their reset in `reset_view`/`reset_all`.
- `create_3d_view`: VTK configuration with no logic of its own.
- `rotate_view`: it relies on `np.rot90` and does not clamp the slice indices itself. As after a NIfTI load, clamping then depends on the slider range echo of `update_slice_sliders`.
- The handlers that are never connected: `update_crosshair_position`, `update_other_views` and the `view_mouse_*_event` methods.
- Focus detection (`get_focused_view`, `get_view_under_cursor`) is Qt hit-testing. The focused plane is a parameter of `WheelEvent`.
- The zoom centre is computed from the global pointer position and the widget size. It is a parameter of `WheelEvent`.
- The cine timer. Scheduling is `QTimer`. Only whether it runs is kept (`cinePlaying`), and a tick is a call of `CineScroll`.
- Floating point. Normalized positions and the zoom factor are exact reals. In Python floats, `1 - (1 - a)` and `(k / d) * d` can round, so the round trips hold here exactly and there within one voxel.
- A raised ZeroDivisionError ends the process through the installed exception hook. The model only reports it as `ok == false` with the partial state.
- Volumes with an axis of extent 0 are not modelled. Every shape has at least one voxel per axis.
- `pinned_points`, `is_dragging`, `last_mouse_pos` and `current_view` hold no slice or cursor state.
