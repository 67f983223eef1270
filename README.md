# PalletPacking — a verified model of the packing engine and its satellites

This project models the core of PalletPacking, a web service that packs a
session's boxes onto a pallet.

## The packing engine

The engine (`Engine`, `CornerHeight`, `RandomPlacement`, `Geometry`,
`Environment`) covers the following steps.

- **Setup.** Setup chooses discrete or continuous mode. The mode is discrete
  when every pallet and box extent is integral. An empty box list is replaced
  by the default items (1,1,1), (2,2,2) and (3,3,3) before that check.
- **Dispatch.** `"random"` selects the random heuristic. Every other
  algorithm selects corner height, in the session's mode.
- **Box loop.** Boxes are handled one at a time, in order, within a budget of
  `min(n, 50)` attempts.
  - A box is packed, or is recorded unpacked and the loop goes on.
  - A box with no feasible placement is recorded unpacked and ends the
    search.
  - Every box beyond the search is recorded unpacked.
  - The results hold one record per box, the packed count, one packing step
    per packed box, and the space's utilization ratio.
- **Fallback.** When the environment cannot be set up, the engine returns a
  fixed fallback result.

The placement environment is an oracle over an opaque state
(`Environment.Oracle`). It provides the following operations:

- reset;
- the next box;
- the bin size;
- the corner list;
- the virtual drop;
- `step`;
- the utilization ratio.

The only property assumed of it is that the ratio lies in [0, 1]. Exceptions
raised inside one box's attempt are outcomes of the oracle (`DropRaised`,
`StepRaised`, no corner list). All of them lead to `Attempt.Faulted`. A run
is specified by a trace: one attempt per processed box, and each attempt is
related to the state it starts from (`Engine.Run`). The engine's run methods
are proved to produce exactly `RunResults` of such a trace.

## Upload validation

Upload validation (`UploadForms`) models the CSV field check of the
configuration form and its pallet-volume check. The CSV reader is abstracted
away: an upload carries its header and rows already split, with reader and
decoding failures marked.

## Box records and the scene

Two components read the environment's placed-box records, and both are
modelled:

- the viewer's box extraction (`TrimeshViewer`, `BoxRecords`);
- the Three.js scene export (`SceneExporter`).

Both normalise the records into (size, lower corner) pairs. A record may be
a dictionary, an object with attributes, or a flat list of six numbers. The
exporter then builds the scene:

- the container wireframe;
- for each box, a geometry, a colour material and a translated mesh object.

## Model

| member | source | states |
|---|---|---|
| Geometry.Orient | packing/packing_engine.py:552-566 | rotation 0 is the identity (its other properties are the lemmas below) |
| Geometry.OrientExtents | packing/packing_engine.py:552-566 | each rotation is a permutation of the box's extents (same multiset) |
| Geometry.OrientationsDistinct | packing/packing_engine.py:518-531 | for a box with three different extents the six rotations give six different boxes |
| Geometry.OrientationsComplete | packing/packing_engine.py:552-566 | every permutation of the extents is produced by some rotation below 6 |
| Geometry.OrientationOf | packing/packing_engine.py:552-566 | names the rotation that produces a given permutation |
| Geometry.Centre | trimesh_visualizer.py:128-133 | the translation of an item is the point equally far from its lower and upper face on each axis |
| Geometry.CentreInside | packing/scene_exporter.py:89-92 | for non-negative extents the centre lies inside the box, midway between opposite faces |
| Environment.FromStep | packing/packing_engine.py:244-275 | an accepted step packs the box and reports the placed box; a refused or failing step leaves it unpacked; the state after the step is kept |
| CornerHeight.SelectCorner | packing/packing_engine.py:210-239 | the selection raises iff some probe raises; a chosen corner is feasible, scores below 1e10, at most every feasible score and strictly below every earlier one; no choice means no feasible corner scores below 1e10 |
| CornerHeight.BestIsUnique | packing/packing_engine.py:236-239 | with the strict comparison there is only one best corner |
| CornerHeight.CornerHeightDeterministic | packing/packing_engine.py:204-275 | one corner-height attempt has exactly one outcome for a given state |
| CornerHeight.AttemptCornerHeight | packing/packing_engine.py:204-290 | no corner list or a raising probe is a fault; no placement iff no feasible corner below the bound; otherwise the best corner's region extents are stepped at (xs, ys) |
| RandomPlacement.RangeLength | packing/packing_engine.py:550-551 | `len(range(int(v)))`: the integer part of a non-negative v, and 0 below 1 |
| RandomPlacement.GridCandidates | packing/packing_engine.py:549-571 | a raising probe is a fault; otherwise the candidates are exactly the feasible (lx, ly, rotation) grid points, with lx and ly ranging over the unrotated extents |
| RandomPlacement.ProbeOrigin | packing/packing_engine.py:551-569 | at one grid origin: a raising orientation is a fault; otherwise each feasible orientation is appended and the search is covered up to the next origin |
| RandomPlacement.ProbeColumn | packing/packing_engine.py:550-569 | for one x origin: a raise is a fault; otherwise the search is covered up to the next x origin |
| RandomPlacement.SampledCandidates | packing/packing_engine.py:514-546 | at most 50 samples per orientation; every candidate is feasible and within [0, bin − extent); no orientation fitting gives no candidates; None only if some in-range probe raised; no candidates although an orientation fits only if some in-range probe was infeasible |
| RandomPlacement.SampleRound | packing/packing_engine.py:518-546 | one round keeps the earlier candidates and appends at most one feasible in-range candidate per orientation; None only if an in-range probe raised; nothing appended although an orientation fits only if an in-range probe was infeasible |
| RandomPlacement.SampleOrientation | packing/packing_engine.py:532-546 | no room iff the orientation is skipped; otherwise a raise, a miss or a hit of a probe at an in-range origin |
| RandomPlacement.AttemptRandom | packing/packing_engine.py:509-579 | a fault, no placement, or the step of an eligible candidate; on an integral bin, a fault iff a probe raises and no placement iff no grid point is feasible; on a continuous bin, no placement when no orientation fits and otherwise only after an infeasible probe, and a fault only after a raising probe or from the step itself |
| Engine.ItemSet | packing/packing_engine.py:63-70 | the box extents in order, or the three default items when there are no boxes |
| Engine.DiscreteModeIff | packing/packing_engine.py:44-76 | discrete iff the pallet and every box extent are integral (the default items are) |
| Engine.Dispatch | packing/packing_engine.py:126-137 | "random" selects random; any other value selects corner height, discrete or continuous by the mode |
| Engine.FallbackCount | packing/packing_engine.py:149 | `min(n, max(1, n div 2))`: at most n, at least 1 for n ≥ 1, equal to n iff n ≤ 1, n div 2 from 2 on |
| Engine.FallbackRecordsShape | packing/packing_engine.py:152-172 | record i is box i's fallback record (packed at (i mod 3, i div 3, 0) below the count, else unpacked with no position), and the packed records number min(count, n) |
| Engine.FallbackRecordList | packing/packing_engine.py:152-172 | the loop builds exactly the fallback records |
| Engine.Fallback | packing/packing_engine.py:144-184 | one record per box, a packed count no larger than the number of records and at least 1 when there are boxes, and no packing steps |
| Engine.FallbackConsistent | packing/packing_engine.py:144-184 | one record per box in order, packed iff a position, packed count equals packed records, packed positions pairwise distinct |
| Engine.TotalVolumeNonNegative | packing/packing_engine.py:175 | boxes with non-negative extents have non-negative total volume |
| Engine.FallbackUtilizationBounded | packing/packing_engine.py:175-177 | fallback utilization is at most 1, and at least 0 for non-negative extents |
| Engine.Budget | packing/packing_engine.py:197 | `min(n, 50)` |
| Engine.RunShape | packing/packing_engine.py:199-300 | a run attempts at most the budget; only its last attempt may find no placement, and it ends early only on one |
| Engine.ReachesRun | packing/packing_engine.py:199-300 | a run's prefix followed by a run from where it ends is a run from the start |
| Engine.StoppedRun | packing/packing_engine.py:199-300 | attempts that went on, then one with no placement within the budget, form a run that ends in the state before that last attempt |
| Engine.FullRun | packing/packing_engine.py:197-199 | attempts that went on for the whole budget form a run |
| Engine.UnpackedRecordsShape | packing/packing_engine.py:305-316 | the boxes after the search are recorded unpacked, one per box, and count no packed box |
| Engine.CountPackedNone | packing/packing_engine.py:320 | a list with no packed record counts zero |
| Engine.TraceRecordsShape | packing/packing_engine.py:246-300 | one record per attempt, built from that box and that attempt |
| Engine.RecordsFaithful | packing/packing_engine.py:246-316 | one record per box in order with its id; packed iff it has a position iff its attempt packed it; packed records carry the placed box's corner and extents, unpacked ones the box's own |
| Engine.CountPackedAppend | packing/packing_engine.py:320 | the packed count of two record lists adds up |
| Engine.RecordsCount | packing/packing_engine.py:305-320 | the unpacked tail adds nothing to the packed count |
| Engine.StepsSound | packing/packing_engine.py:259-265 | every step belongs to a packed box (its index, id, corner and extents), and step indices strictly increase |
| Engine.StepsComplete | packing/packing_engine.py:259-265 | every packed box has a step carrying its index |
| Engine.StepsCount | packing/packing_engine.py:259-265 | there are as many steps as packed records |
| Engine.StepsCountTrace | packing/packing_engine.py:259-265 | the same count, over the attempted boxes only |
| Engine.StrictlyIncreasingBounded | packing/packing_engine.py:265 | strictly increasing step indices below a bound number at most that bound |
| Engine.PackedCountBounded | packing/packing_engine.py:197-199 | a run packs at most `min(n, 50)` boxes |
| Engine.AppendAttempt | packing/packing_engine.py:246-275 | one more attempt adds its record, and a step exactly when it packed |
| Engine.AttemptBox | packing/packing_engine.py:201-290 | the attempt follows the dispatched heuristic's outcome |
| Engine.AttemptNext | packing/packing_engine.py:201-300 | one more attempt extends the trace, its record and step; the loop goes on exactly when it placed or skipped |
| Engine.AttemptBoxes | packing/packing_engine.py:197-300 | the attempted boxes form a complete run from the reset state within the budget, with their records and steps, ending in the run's final state |
| Engine.RecordRemaining | packing/packing_engine.py:305-316 | appends one unpacked record per remaining box, in order |
| Engine.PackingEngine.constructor | packing/packing_engine.py:25-35 | no environment, discrete flag set, empty results |
| Engine.PackingEngine.SetupEnvironment | packing/packing_engine.py:37-117 | unavailable packing fails and changes nothing; otherwise the mode becomes discrete iff it was and the session is integral, and setup succeeds iff the environment can be created |
| Engine.PackingEngine.RunSimulation | packing/packing_engine.py:119-142 | failed setup gives the fallback result; otherwise the result is a run of the dispatched heuristic over the session's boxes |
| Engine.PackingEngine.CreateFallbackResults | packing/packing_engine.py:144-184 | returns the fallback result |
| Engine.PackingEngine.RunCornerHeight | packing/packing_engine.py:186-334 | the result is the results of a run of discrete corner height from the reset state |
| Engine.PackingEngine.RunCornerHeightContinuous | packing/packing_engine.py:337-484 | the same for continuous corner height |
| Engine.PackingEngine.RunRandom | packing/packing_engine.py:486-667 | the same for the random heuristic |
| Engine.PackingEngine.PackSession | packing/packing_engine.py:186-329 | the loop's results are `RunResults` of a run trace, the environment ends in the trace's final state, and the utilization lies in [0, 1] when the ratio does |
| UploadForms.CheckCell | packing/forms.py:110-124 | a cell passes iff it is a number in (0, 100]; 100 itself passes |
| UploadForms.CheckCellsNone | packing/forms.py:110-124 | a row's cells pass iff each of x, y, z passes |
| UploadForms.FirstRowErrorNone | packing/forms.py:101-107 | the rows pass iff none is a reader fault, none is invalid, and there are at most 1000 |
| UploadForms.CheckCellsLocated | packing/forms.py:110-124 | a cell error names the row number and one of x, y, z |
| UploadForms.RowErrorLocated | packing/forms.py:102-124 | a cell error is reported at row i + 2 for the first invalid data row i, after only valid rows |
| UploadForms.CleanCsv | packing/forms.py:67-134 | an accepted upload is returned unchanged; a named file is accepted only with a `.csv` name, at most 5 MiB and decodable content |
| UploadForms.CleanCsvAcceptsValid | packing/forms.py:67-134 | a missing or nameless file is returned as is; a file is accepted iff every rule holds, and then returned unchanged |
| UploadForms.CleanCsvFile | packing/forms.py:67-134 | the row loop with its counter and early rejections computes exactly `CleanCsv` |
| UploadForms.Clean | packing/forms.py:136-151 | the form is rejected only when all three dimensions are present and their product is below 1 |
| UploadForms.CleanPassesDeclaredPallets | packing/forms.py:136-151 | pallets with every dimension at least 1 pass the volume check |
| UploadForms.CleanTruthiness | packing/forms.py:136-151 | for all inputs: a zero or missing dimension switches the check off; with three present non-zero dimensions the form is rejected iff their product is below 1 |
| BoxRecords.ParseRecord | trimesh_visualizer.py:166-232 | a flat record is read iff it holds six numbers, and then as those six numbers, position first or size first |
| BoxRecords.OrChain | trimesh_visualizer.py:172-173 | `a or b or c`: the first truthy value, else the last one |
| BoxRecords.FirstKey | trimesh_visualizer.py:211-223 | the entry of the first key present, whatever its value; none iff no key is present |
| BoxRecords.Tuple3 | trimesh_visualizer.py:235-240 | succeeds iff given a list of exactly three numbers, returning them in order; a wrong length or a non-list is an error |
| BoxRecords.DictRecordKeys | trimesh_visualizer.py:170-177 | a dictionary without a size-like or without a position-like key is unrecognized; it is read only when both `or` chains give truthy values; truthy "size" and "pos" win |
| BoxRecords.BoxClassRecord | trimesh_visualizer.py:188-193 | a record with x, y, z, lx, ly, lz reads as size (x, y, z) at (lx, ly, lz) |
| BoxRecords.PositionFirstRoundTrip | packing/scene_exporter.py:263-276 | a box inside the bin with positive extents, listed position first, reads back as itself |
| BoxRecords.SizeFirstRoundTrip | trimesh_visualizer.py:196-209 | a box listed size first reads back as itself iff its list fails the position-first rule, or size and position coincide |
| BoxRecords.SizeFirstAtOrigin | trimesh_visualizer.py:196-209 | a size-first box touching a wall at 0 is never misread |
| BoxRecords.SixTupleAmbiguity | packing/scene_exporter.py:263-276 | a size-first unit box at (2, 2, 2) is misread as a box of size 2 at (1, 1, 1) |
| BoxRecords.ParseAll | packing/scene_exporter.py:231-299 | one placement per record, in order, or the error of the first unreadable record |
| BoxRecords.ParseRecords | trimesh_visualizer.py:164-232 | the record loop computes exactly `ParseAll` |
| TrimeshViewer.BoxSource | trimesh_visualizer.py:154-162 | the `boxes` attribute, else the getter's result; none iff neither gives a list |
| TrimeshViewer.ExtractBoxes | trimesh_visualizer.py:147-232 | no list is `NoBoxes`; otherwise one (size, pos) per record in order, or the first record's error |
| SceneExporter.NatToString | packing/scene_exporter.py:93 | decimal digits; one digit iff below 10 |
| SceneExporter.NatToStringInjective | packing/scene_exporter.py:93 | distinct indices are written differently |
| SceneExporter.IndexedIdsDistinct | packing/scene_exporter.py:93-123 | ids with the same prefix and different index suffixes differ |
| SceneExporter.ColorSeed | packing/scene_exporter.py:212 | the seed is a valid 32-bit seed |
| SceneExporter.PackColor | packing/scene_exporter.py:218 | the packed colour is below 2^24 |
| SceneExporter.ColorChannels | packing/scene_exporter.py:209-218 | the packed colour is r·65536 + g·256 + b, and shifting and masking recover r, g and b |
| SceneExporter.ColorOf | packing/scene_exporter.py:209-218 | a box's colour is below 2^24 and its channels are the three drawn for its seed |
| SceneExporter.CreateBoxGeometry | packing/scene_exporter.py:172-184 | environment x, y, z become the Three.js width, height and depth, one segment each |
| SceneExporter.CreateWireframe | packing/scene_exporter.py:186-207 | 8 vertices and 12 edges, each joining two different vertices among them |
| SceneExporter.WireframeShape | packing/scene_exporter.py:186-207 | 8 vertices, all corners of the container, bottom four at 0 and top four at the height; 12 edges between indices 0..7; for non-zero extents distinct vertices and axis-parallel edges |
| SceneExporter.TranslationMatrix | packing/scene_exporter.py:124 | identity except slots 12-14, which hold the translation |
| SceneExporter.BoxObjectSpansBox | packing/scene_exporter.py:84-125 | the mesh, centred on its translation with width, height and depth from x, y and z, spans exactly the box from its lower corner; all segment counts are 1; the object refers to its geometry |
| SceneExporter.SceneGeometryIdsDistinct | packing/scene_exporter.py:59-100 | every geometry of a scene has its own id |
| SceneExporter.PackedRows | packing/scene_exporter.py:43 | exactly the packed rows are members, and the result is no longer than the input |
| SceneExporter.PackedRowsAppend | packing/scene_exporter.py:43 | the filter keeps order and multiplicity: one row is kept iff packed, and a concatenation filters part by part |
| SceneExporter.RowPlacements | packing/scene_exporter.py:127-137 | one placement per stored row, or a fault at the first row without a position |
| SceneExporter.SceneBoxes | packing/scene_exporter.py:33-46 | with a `boxes` list, the placements read from the records or the first record's error; `boxes` None cannot be iterated; without the attribute, the placements of the packed stored rows |
| SceneExporter.SceneSizes | packing/scene_exporter.py:29-47 | a scene over k boxes has 1 + k geometries, materials and objects |
| SceneExporter.WebSceneExporter.constructor | packing/scene_exporter.py:15-27 | empty geometry, material and object lists |
| SceneExporter.WebSceneExporter.AddContainer | packing/scene_exporter.py:49-82 | appends the container geometry, material and object; object i keeps referring to geometry i and material i |
| SceneExporter.WebSceneExporter.AddEnvironmentBox | packing/scene_exporter.py:84-125 | appends the box's geometry, material and object |
| SceneExporter.WebSceneExporter.AddDatabaseBox | packing/scene_exporter.py:127-170 | the same from a stored row; a row without a position is a fault and adds nothing |
| SceneExporter.WebSceneExporter.AddBoxes | packing/scene_exporter.py:36-38 | appends entry i for placement i |
| SceneExporter.WebSceneExporter.AddPackedRows | packing/scene_exporter.py:43-45 | appends the stored rows until one has no position |
| SceneExporter.WebSceneExporter.GenerateSceneData | packing/scene_exporter.py:29-47 | the container, then one entry of each kind per box; on a record error only the container |

## Left out

- The internals of the placement environment are left out. This covers the
  height map, the virtual drop, corner generation, `step`, the ratio, and
  `next_box`/`next_den`; they are oracle functions. Placement bounds and
  no-overlap are therefore not proved.
- Assigning the chosen extents to `next_box` before calling `step` with
  `[0, xs, ys]` is folded into one oracle call. The oracle's `step` takes the
  extents and the corner.
- Random choices are modelled as nondeterministic choice: uniform samples,
  the index of the chosen candidate, and the colour generator's draws. The
  colour draws are a given function of the seed.
- Floating-point behaviour is not modelled; extents are reals. NaN cells and
  the int conversion of integral dimensions are left out.
- CSV decoding and parsing are abstracted: rows arrive pre-split, with
  reader and decoding faults marked.
- Django views, the ORM, threading and the rendering of scenes, video and
  trimesh are left out. The viewer is created at the end of setup; that is
  left out too.
- An exception escaping a whole run (from `reset`, the box list or the
  ratio) would give the fallback result; the model does not cover it.
- `RandomPlacement.SampledCandidates`: the continuous sampling uses
  `max(0, bin − extent)` and skips an orientation when that is ≤ 0. The model
  states which orientations are skipped, and what a fault or an empty result
  says about the probes. It does not state how the samples are distributed.
- `BoxRecords.Record`: a flat record holds numbers only. Strings, nested
  objects in flat lists, and attributes outside `__dict__` are left out.
- `SceneExporter.WebSceneExporter`: the scene's fixed metadata block and the
  JSON serialisation are left out.

In these places the model follows the code as written, where a reader might expect otherwise:

- The `step` field of a packing step is the box's index in the session, not
  its ordinal among successful placements.
- Corner height places the corner's free-region extents `(xe − xs, ye − ys,
  ze − zs)` as they are. It does not clip them to the box's extents and tries
  no orientations.
- A refused `step` or an error inside one box's attempt records the box
  unpacked, and the loop continues.
- Rotation 2 unpacks `z, x, y = next_box`, so it gives (y, z, x) of the box;
  rotation 5 gives (z, x, y). A setting of more than 6 orientations repeats
  rotation 5.
