# Placement, colour and OBJ export of the HOOD rollout viewer

`utils/show.py` loads a cloth-simulation rollout: cloth vertex positions per frame, cloth faces, and optionally an obstacle. It puts the meshes on a common floor, mutes the cloth colour, and then shows them in a 3D viewer or writes one Wavefront OBJ file per frame. This project models the deterministic part of that script in Dafny:

- **Placement** (`placement.dfy`, `place_meshes`): works in place on `array3<real>` buffers (frames × vertices × coordinates). Axis 1 is up. A `null` obstacle stands for Python's `None`.
  - The floor offset is the minimum up coordinate over all obstacle frames plus cloth frame 0.
  - Without an obstacle, it is the minimum over cloth frame 0 minus 2.
  - Every vertex is lowered by the offset and shifted by `x_shift` on axis 0 and `y_shift` on axis 2.
  - The numpy slice updates are written as `forall` assignment statements.
  - A `None` result models the two exceptions the offset computation can raise before anything is updated: the IndexError of `cloth_pos[0]` on a cloth buffer with no frame, and the ValueError of a minimum taken over no value (a frame or obstacle with no vertex, or an obstacle with no frame). Nothing has changed at that point.
- **Colour** (`color.dfy`, `adjust_color`): a four-entry RGBA array updated in place. The three colour channels are divided by their largest value, multiplied by 0.3 and raised by 0.3. Alpha is kept.
- **Numerals** (`numerals.dfy`): how Python's format specs `d` and `04` render a non-negative `int`.
- **OBJ export** (`obj_export.dfy`, `export_animated_mesh_to_obj_sequence`): builds one text per frame, with nested loops as in the source. Each text holds a `v` line per vertex, then an `f` line per face with 1-based indices. Frame `i` is named `<basename>_<i:04>.obj`. Lines are values of a datatype.
- **Selection** (`selection.dfy`, lines 77-90 of `add_seq`):
  - An obstacle is present exactly when the `obstacle_faces` key is.
  - When the cloth faces are stored per frame, frame 0 is used for the cloth and for the obstacle.
- `mesh.dfy` and `wrappers.dfy` hold the shared vertex, face, `Option` and `Result` types.

Coordinates and colours are exact `real`s standing in for float64.

The model states what the code does:
- `place_meshes` updates the caller's buffers in place and returns the same buffers, and so does `PlaceMeshes`.
- The docstring of `place_meshes` (utils/show.py:25) says the meshes are put onto the floor at level 0. That holds with an obstacle. Without one (utils/show.py:36) the offset is the minimum minus 2, so cloth frame 0's lowest point ends at 2, and `ClothOnlyFloorIsClearance` proves that.
- `adjust_color` divides by the maximum colour channel without a check, so an all-zero colour gives NaN. `AdjustColor` requires a non-zero maximum.

## Model

| member | source | states |
|---|---|---|
| Placement.Min | utils/show.py:34-36 | numpy's `min()` of a non-empty collection is an element of it and no larger than any element |
| Placement.FloorOffset | utils/show.py:33-36 | the offset is defined exactly when every minimum is over at least one value. With an obstacle it is the minimum of all obstacle up coordinates together with cloth frame 0's. Without one it is cloth frame 0's minimum minus 2 |
| Placement.MinimumLowered | utils/show.py:37 | lowering every value by `c` lowers the minimum by exactly `c` |
| Placement.FlattenLowered | utils/show.py:42 | lowering every frame and then joining the frames equals lowering the joined up coordinates (`obstacle_pos[..., 1] -= min_z`) |
| Placement.ClothOnlyFloorIsClearance | utils/show.py:35-37 | without an obstacle, after lowering by the offset, the minimum up coordinate of cloth frame 0 is exactly 2 |
| Placement.PlacementFloor | utils/show.py:33-36 | `min_z` read off the buffers: it exists exactly when cloth frame 0 has a vertex and, if there is an obstacle, the obstacle has a frame and a vertex. With an obstacle it is the minimum over all obstacle up coordinates and cloth frame 0's. Without one, adding 2 gives cloth frame 0's minimum |
| Placement.ObstacleFloorIsZero | utils/show.py:33-42 | with an obstacle, after lowering by the offset, the minimum over all obstacle frames and cloth frame 0 is exactly 0 |
| Placement.Displacement | utils/show.py:37-44 | per axis: axis 1 goes down by the offset and is the only axis that depends on it, axis 0 moves by `x_shift`, axis 2 by `y_shift`, any further axis stays |
| Placement.Translate | utils/show.py:37-44 | every coordinate of every vertex of every frame moves by its axis's displacement. Axis 0 gains `x_shift`, axis 1 loses the offset, axis 2 gains `y_shift`, and any further coordinate stays put |
| Placement.PlaceMeshes | utils/show.py:22-46 | if a minimum would be over no value, the result is `None` and both buffers are unchanged. Otherwise the same two buffers come back (a `null` obstacle stays `null`), and cloth and obstacle move exactly by the displacement computed from the old buffers. Later cloth frames do not enter the offset. Cloth-only: frame 0's lowest up coordinate becomes 2. With an obstacle: the lowest over obstacle frames and cloth frame 0 becomes 0 |
| Color.Peak | utils/show.py:55 | the maximum over the three colour channels is one of them and no smaller than any of them |
| Color.MutedChannel | utils/show.py:55-57 | one channel after dividing by the maximum, scaling and lifting. Undoing the lift, the scale and the division gives the channel back, so no information is lost |
| Color.Muted | utils/show.py:55-57 | the adjusted colour has four entries and keeps alpha |
| Color.ChannelRange | utils/show.py:55-57 | a channel between 0 and the maximum maps into [0.3, 0.6], and maps to 0.6 exactly when it equals the maximum |
| Color.MutedRange | utils/show.py:55-57 | for non-negative channels with a positive maximum, every adjusted colour channel lies in [0.3, 0.6], and it is 0.6 exactly when that channel held the maximum |
| Color.ScaleInvariant | utils/show.py:55 | multiplying the three colour channels by any positive factor does not change the adjusted colour: only the ratios to the maximum matter |
| Color.MutedTwice | utils/show.py:55-57 | an adjusted colour has maximum 0.6. Adjusting it again gives the same colour exactly when its three colour channels were equal, so the adjustment is not idempotent |
| Color.MutedExample | utils/show.py:55-57 | (2, 4, 4, 1) becomes (0.45, 0.6, 0.6, 1) |
| Color.DefaultClothColor | utils/show.py:95-99 | the default cloth colour (0, 0.3, 0.3, opacity) becomes (0.3, 0.6, 0.6, opacity) |
| Color.AdjustColor | utils/show.py:49-58 | in place: the array afterwards is the adjusted old colour (divided by the old maximum, times 0.3, plus 0.3), alpha untouched, and the array returned is the argument itself |
| Numerals.Decimal | utils/show.py:151 | the rendering of an integer is a non-empty digit string that starts with `0` only for 0 itself |
| Numerals.ParseDecimalOfDecimal | utils/show.py:151 | reading back the decimal rendering of `n` gives `n` |
| Numerals.ZeroPadded | utils/show.py:151 | format spec `0<width>`: only digits, at least `width` characters and never shorter than the plain rendering. It is exactly `width` long unless it is the plain rendering |
| Numerals.ZeroPaddedShape | utils/show.py:151 | a padded rendering ends with the plain rendering, and everything before it is `0` |
| Numerals.ZeroPaddedRoundTrip | utils/show.py:151 | zero padding to any width loses nothing: reading back gives the number |
| Numerals.DecimalLength | utils/show.py:151 | the rendering of `n` fits in `k` characters exactly when `n < 10^k` |
| Numerals.PaddedToFour | utils/show.py:151 | with spec `04` the number takes exactly four characters up to 9999. From 10000 on it takes more, and it is the plain rendering, never cut |
| ObjExport.VertexRecord | utils/show.py:154 | a vertex's `v` line holds its three coordinates in order |
| ObjExport.FaceRecord | utils/show.py:156 | a face line's indices are all at least 1 (OBJ is 1-based) |
| ObjExport.FaceRecordRoundTrip | utils/show.py:156 | subtracting one from a face line's indices gives back the 0-based face, and every face line with positive indices is the line of exactly that face |
| ObjExport.FaceRecordInRange | utils/show.py:155-156 | a face valid for `n` vertices yields 1-based indices in 1..n |
| ObjExport.FrameFileName | utils/show.py:151 | a frame's file name starts with the base name and `_`, ends with `.obj`, has only digits in between, and is at least 9 characters longer than the base name |
| ObjExport.FrameIndexOfFileName | utils/show.py:151 | the frame number can be read back from a frame's file name `basename_NNNN.obj` |
| ObjExport.FrameFileNamesDistinct | utils/show.py:150-151 | different frames get different file names, so no frame overwrites another |
| ObjExport.FrameFileNameLength | utils/show.py:151 | a file name is the base name plus 9 characters up to frame 9999, and longer from frame 10000 on |
| ObjExport.FaceSectionShared | utils/show.py:155-156 | the face lines are the same in every frame's text |
| ObjExport.FrameFileUnique | utils/show.py:150-156 | a frame's text is determined by its name, vertices and faces, so the export is deterministic |
| ObjExport.FrameLines | utils/show.py:152-156 | the inner loops: one `v` line per vertex in vertex order, then one `f` line per face in face order with each index plus 1, and nothing else |
| ObjExport.ExportObjSequence | utils/show.py:135-157 | exactly one text per frame, in frame order 0..T−1. Text `i` is named `basename_` + `i` padded to 4 + `.obj`, and holds one `v` line per vertex in vertex order, then one `f` line per face in face order with each index plus 1 |
| Selection.SelectGeometry | utils/show.py:77-90 | the obstacle is present exactly when `obstacle_faces` is, and its positions are then required (else KeyError `obstacle`). Static cloth faces are kept as they are, with obstacle faces passed through. Per-frame cloth faces give frame 0 for the cloth and frame 0 for the obstacle. It fails exactly when obstacle faces come without obstacle positions, when per-frame cloth faces have no frame, or when per-frame cloth faces meet obstacle faces that are not per-frame with at least one frame |
| Selection.FrameZero | utils/show.py:87-90 | the `[0]` of a per-frame face array: frame 0 when there is a frame, otherwise an IndexError |
| Selection.ObstaclePositionsAloneIgnored | utils/show.py:79-85 | obstacle positions without an `obstacle_faces` entry change nothing, and no obstacle is produced |
| Selection.LaterTopologyIgnored | utils/show.py:87-90 | faces of cloth frames after frame 0 do not affect the selection |

## Left out

- The viewer, the headless renderer, the camera, `Meshes` construction, `path.lock_to_node`, scene-node slicing, `renderer.run` and `write_video` (utils/show.py:104-115, 159-192, 206-222). They belong to a rendering library that is not part of this model. The mesh names, opacities, obstacle colour and backface-culling flag set on `Meshes` objects are left out with it.
- `pickle_load`, the `HOOD_PROJECT` path injection and the OmegaConf `Config` merge are I/O and configuration. A rollout is given as a value. Its `pred` and `cloth_faces` entries are fields, so a rollout missing them cannot be expressed.
- Directory creation, opening and writing files, and every `print`. The exporter returns the texts and their names relative to the output directory. The `os.path.join` with the output directory is left out.
- The `.6f` rendering of vertex coordinates. A `v` line is kept as its three real coordinates and an `f` line as its three integers. `write_aitviewer_mesh_to_obj` is not modelled: nothing calls it (its only call is commented out).
- IEEE float64 rounding, NaN and infinities: every coordinate and colour is an exact real.
- The torch `detach().cpu().numpy()` conversion and the matplotlib colormap `cmap(0.)`, which are foreign library calls.
- Placement.PlaceMeshes: requires at least three coordinates per vertex. With none or one, the `[..., 1]` indexing at utils/show.py:34 or 36 raises an IndexError before anything is updated. With exactly two, `cloth_pos[..., 2]` at utils/show.py:39 raises after lines 37-38 have already updated the cloth, and that partly updated state is not modelled. With an obstacle of exactly two coordinates, `obstacle_pos[..., 2]` at utils/show.py:44 raises after the cloth has been fully placed and lines 42-43 have updated the obstacle. That state is not modelled either.
- Placement.PlaceMeshes: requires the obstacle buffer to be a different array from the cloth buffer. The case where the caller passes the same array twice, which the source never does, is not modelled.
- Color.AdjustColor: requires a non-zero maximum. The code divides by it, so an all-zero colour yields NaN rather than an error.
- Color.AdjustColor: handles one RGBA colour. The numpy code would also accept a batch of colours, which the source never passes.
- Selection.SelectGeometry: reports `FaceShapeMismatch` when the cloth faces are per frame and the obstacle faces are not. The code there silently takes the obstacle's first face as a one-dimensional array, which the model does not represent.
- Faces are triples of natural numbers. Negative indices in a numpy face array are not modelled.
