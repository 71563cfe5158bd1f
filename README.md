# WMF (Watershed Modelling Framework), decision and bookkeeping core

WMF's Python layer (`wmf/wmf.py`) wraps two Fortran modules: `cu`, the
basin tools, and `models`, the hydrological engine. The kernels do the
numerics. Around them the Python code has a set of small rules, and this
project models those rules and proves what they guarantee. The rules are:

- **Outlet snapping.** With a stream given, `Basin.__init__` and
  `SimuBasin.__init__` move the requested outlet to the stream vertex at
  the least Euclidean distance, and `np.argmin` keeps the first minimum.
  The model compares squared distances (module `Snapping`).
- **Cell classifiers** (module `CellClasses`).
  - The channel mask `CellCauce` is 1 exactly where the accumulated area
    exceeds the threshold.
  - The HAND terrain class is four masked writes into a zero array.
    `ClassifyHand` keeps the in-place writes on an `array`, and it is
    proved equal to a pointwise class function.
- **Hillslope bookkeeping** (module `Hillslopes`).
  - `Transform_Hills2Basin` spreads each hillslope value over the cells
    that hillslope owns.
  - The mask `Transform_Basin2Hills` hands to the aggregation kernel.
  - The hills-mode element areas, a count of owned cells times `dxp²`.
    When every owner id is in range, the areas sum to the basin area.
- **Rain-station corner padding** (module `RainPadding`). Four stations
  are appended at the DEM corners. Each copies the record of the nearest
  station present at that moment, which includes corners already added.
- **The engine's parameter bank** (module `ModelState`, with module
  `SimuModels` on top). These are the tensors and switches of the
  Fortran `models` module that `SimuBasin.__init__`, `set_speed_type`,
  `set_PhysicVariables`, `set_record`, `set_storage` and `run_shia` read
  and write.
  - `ModelState` holds the bank as a value (`Bank`) and has one
    transition function per method. Each transition takes the `SimuBasin`
    it is called on as a parameter, because the bank is module-global in
    the engine, not a field of that object.
  - `SimuModels.Models` holds the same bank as a class over `array2`
    tensors that are written a row at a time. Each method is proved to
    move `State()` exactly as the matching transition says.
  - A method that raises in Python ends with `ok == false`. `Step` carries
    whatever the method had already written before it raised.
- **Save helpers** (modules `ShapeNames` and `NetSegments`).
  - The `.shp` suffix rule.
  - Attribute field names: the text before the first `[`, stripped and
    cut to ten characters.
  - The split of the vector network at its `-999` sentinel columns into
    line features.

Modelling choices:

- Floating-point values are reals.
- Python's negative row indices are modelled (`PyIndex`).
- numpy's broadcasting of `np.ones((1,N))*var` is modelled as
  `Broadcast`: a scalar or a one-element array fills the row, an array of
  length `N` is copied, and any other length raises. The test
  `type(var) is int or float` is always true, so every non-string value
  takes this branch, and the `np.ndarray` branch after it never runs.
- That branch always makes a `(1,N)` array. On a hills basin given a
  numeric mask, `Transform_Basin2Hills` then indexes its one-dimensional
  `Ma` with the comparison of that array against the mask, which raises
  `IndexError`. So `set_PhysicVariables` with a numeric mask on a hills
  basin always raises and stores nothing, and the model says so
  (`SetPhysicHillsScalarMaskRaises`).
- The names `set_PhysicVariables` actually matches are `capilar` and
  `gravit`, not the `max_capilar`/`Max_gravit` its docstring lists.
  `DocumentedCapacityNamesIgnored` states this.

## Model

| member | source | states |
|---|---|---|
| Snapping.NearestVertex | wmf/wmf.py:125-131 | the index chosen is a vertex, no vertex is strictly closer, and every earlier vertex is strictly farther (the first minimum wins) |
| Snapping.NearestVertexUnique | wmf/wmf.py:128-129 | any index that is a first minimum is the one `argmin` returns |
| Snapping.SnapOutlet | wmf/wmf.py:637-643 | with no stream the outlet is kept. With a stream the result is its nearest vertex, first on ties. An empty stream makes `argmin` raise |
| Snapping.SnapPicksDistanceThree | wmf/wmf.py:125-131 | a worked case: the vertex at distance 3 is picked among distances 5, 3, 8, 10 |
| Snapping.SnapTieTakesFirst | wmf/wmf.py:125-131 | a worked case of a tie: the lowest index among equally near vertices is picked |
| CellClasses.ChannelMask | wmf/wmf.py:227-228 | the mask has one 0/1 entry per cell, and an entry is 1 iff the cell's accumulation exceeds the threshold |
| CellClasses.ChannelMaskAntitone | wmf/wmf.py:227-228 | raising the threshold never adds channel cells |
| CellClasses.HandClass | wmf/wmf.py:287-291 | the last masked write that matches gives the class, and it is always in 1..4 |
| CellClasses.HandClassBands | wmf/wmf.py:287-291 | class 1 iff hand < 5.3; 2 iff 5.3 ≤ hand ≤ 15; 4 iff hand > 15 with slope < 0.076; 3 iff hand > 15 with slope ≥ 0.076 |
| CellClasses.HandClassExamples | wmf/wmf.py:287-291 | worked cases of each band; a mid-height cell is class 2 at every slope |
| CellClasses.MaskedWrite | wmf/wmf.py:288-291 | `a[mask] = v`: masked entries become `v`, all others keep their old value |
| CellClasses.ClassifyHand | wmf/wmf.py:287-291 | the four successive masked writes into a zero array give `HandClass` at every cell |
| Hillslopes.HillsToCells | wmf/wmf.py:336-340 | one value per cell: a cell owned by hillslope `k` in range gets `HillsMap[k-1]`, any other cell keeps 1.0, and every owned hillslope's cells all carry its value |
| Hillslopes.BuildMask | wmf/wmf.py:355-362 | no mask gives all ones; a numeric mask gives 1 where the cell value equals it and 0 elsewhere; an array mask is copied; a mask of any other type leaves zeros |
| Hillslopes.CellCount | wmf/wmf.py:888 | the number of cells one hillslope owns is at most the cell count; `CellCountIsSelectionSize` gives its exact value |
| Hillslopes.CellCountIsSelectionSize | wmf/wmf.py:888 | the count of `hills_own == k` is the size of the set of cells owned by `k` |
| Hillslopes.HillAreas | wmf/wmf.py:888 | `elem_area` has one entry per hillslope, and no entry is negative |
| Hillslopes.HillAreaWithinBasin | wmf/wmf.py:888 | no hillslope's area exceeds the basin area `ncells · dxp²` |
| Hillslopes.HillAreaIsSelectionArea | wmf/wmf.py:888 | `elem_area[i]` is the number of cells owned by hillslope `i+1` times `dxp²` |
| Hillslopes.HillAreasSum | wmf/wmf.py:888 | the areas sum to the area of the cells whose owner is in 1..nhills |
| Hillslopes.HillAreasConserveBasinArea | wmf/wmf.py:888 | when every owner is in 1..nhills the areas sum to `ncells · dxp²` |
| Hillslopes.OwnedCountAll | wmf/wmf.py:888 | when every owner is in range every cell is counted |
| RainPadding.Corner | wmf/wmf.py:725-727 | each padding point lies on a corner of the DEM: its x is `xll` or `xll+ncols·dx`, and its y is `yll` or `yll+nrows·dx` |
| RainPadding.CornersAreDemCorners | wmf/wmf.py:725-727 | the four corners are (xll,yll), (xll,yll+nrows·dx), (xll+ncols·dx,yll+nrows·dx) and (xll+ncols·dx,yll), in that order |
| RainPadding.PadCorners | wmf/wmf.py:725-733 | with at least one station: exactly four stations are appended at the corners in order, the original stations and records are a kept prefix, and each new record copies the record of the nearest station present when it was added. With none, the first `argmin` raises |
| ShapeNames.WithShp | wmf/wmf.py:457-458 | the path ends in `.shp` and starts with the given path, and it is unchanged iff the path already ends in `.shp` |
| ShapeNames.WithShpIdempotent | wmf/wmf.py:525-526 | applying the suffix rule twice equals applying it once |
| ShapeNames.Truncate | wmf/wmf.py:537 | `s[:n]` is a prefix of `s` whose length is the smaller of `n` and the length of `s` |
| ShapeNames.LeadingSpaces | wmf/wmf.py:537 | the leading characters counted are whitespace and the next one is not |
| ShapeNames.TrailingSpaces | wmf/wmf.py:537 | the trailing characters counted are whitespace and the one before them is not |
| ShapeNames.Strip | wmf/wmf.py:537 | `strip()` is a slice of `s` with only whitespace removed around it, and it neither starts nor ends with whitespace |
| ShapeNames.StripUnpadded | wmf/wmf.py:537 | a string without whitespace at either end is its own strip |
| ShapeNames.StripIdempotent | wmf/wmf.py:537 | stripping twice equals stripping once |
| ShapeNames.IndexOf | wmf/wmf.py:537 | `index` is the position of the first occurrence; it raises iff the character does not occur |
| ShapeNames.IndexOfFirst | wmf/wmf.py:537 | a position holding the character with none before it is what `index` returns |
| ShapeNames.FieldName | wmf/wmf.py:537 | a name exists iff the key has a `[`; it has at most ten characters, no `[`, no leading whitespace, and is the stripped text before the first `[`, cut to ten |
| ShapeNames.FieldNameAt | wmf/wmf.py:537 | the name is taken from the text before the first bracket |
| ShapeNames.FieldNameOfKey | wmf/wmf.py:537 | a key `name[unit]` with a short unpadded name is written under that name |
| ShapeNames.FieldNameTruncated | wmf/wmf.py:537 | a longer name is cut to its first ten characters |
| NetSegments.SentinelsSpec | wmf/wmf.py:453 | `np.where(net[0,:] == -999)` lists every sentinel column, each once, in increasing order |
| NetSegments.Segments | wmf/wmf.py:484-486 | one line feature per sentinel, that is, per pair of consecutive cuts |
| NetSegments.ReachLengthKm | wmf/wmf.py:491 | `Long[km]` is the reach's column count times `dx` over 1000: the gap between its two cuts less one, and for the first reach the first sentinel's position less its start |
| NetSegments.SegmentAt | wmf/wmf.py:484-486 | reach `k` is the slice `net[cuts[k]+1 : cuts[k+1]]` with cut 0 at column 0, and the cuts after the first strictly increase |
| NetSegments.BetweenCutsNotSentinel | wmf/wmf.py:484-486 | no column strictly between consecutive cuts is a sentinel |
| NetSegments.SegmentsSentinelFree | wmf/wmf.py:484-486 | no reach written as a line contains a sentinel column |
| NetSegments.FirstStartIsFirstCut | wmf/wmf.py:454-455 | column 0 is a sentinel exactly when it is the first sentinel, so `FirstStart` is 0 exactly then |
| NetSegments.FirstReachEmpty | wmf/wmf.py:484-486 | the first reach is empty exactly when the first sentinel is column 0 or column 1 |
| NetSegments.SegmentsRejoin | wmf/wmf.py:484-486 | the reaches, each followed by its closing sentinel, give back the network from the first reach's start through the last sentinel |
| NetSegments.NoSentinelNoSegments | wmf/wmf.py:484 | a network with no sentinel yields no line feature |
| ModelState.ParseModelType | wmf/wmf.py:664-667 | `cells` and `hills` are the only model types |
| ModelState.Units | wmf/wmf.py:1036-1039 | `N` is `ncells` in cells mode and `nhills` in hills mode |
| ModelState.Broadcast | wmf/wmf.py:948-949 | `np.ones((1,N))*var` succeeds iff `var` is a scalar or has length `N` or 1; a scalar or one-element array fills the row, and a length-`N` array is copied |
| ModelState.PyIndex | wmf/wmf.py:959 | a row index is valid iff `-rows ≤ pos < rows`, and a negative one counts from the end |
| ModelState.Put | wmf/wmf.py:958-969 | replacing one tensor leaves every other tensor and every switch unchanged |
| ModelState.Unloaded | wmf/wmf.py:669-675 | before any basin, no tensor is allocated and the control masks are empty |
| ModelState.Flag | wmf/wmf.py:674-689 | a switch is 1 iff its argument is `si`, and 0 otherwise |
| ModelState.NewSimuBasin | wmf/wmf.py:664-668 | a basin exists iff the model type is `cells` or `hills`, and it keeps the given counts |
| ModelState.AfterInit | wmf/wmf.py:664-689 | every tensor is allocated `N` wide with its row count; coefficients, exponents and capacities are all ones and storage all zeros; `dt` is stored, each switch is 1 iff `si`, and the speed types and masks are kept |
| ModelState.AssignRow | wmf/wmf.py:959 | `tensor[pos] = vec` succeeds iff the index is valid and `vec` broadcasts; then row `pos` is the broadcast and all other rows are kept |
| ModelState.WriteTensor | wmf/wmf.py:958-969 | a row write fails and changes nothing unless the bank is allocated, the row exists and the vector broadcasts; otherwise only that row of that tensor changes |
| ModelState.PhysicTarget | wmf/wmf.py:958-969 | exactly the six names `h_coef`, `h_exp`, `v_coef`, `v_exp`, `capilar`, `gravit` select a tensor; storage is never selected |
| ModelState.DocumentedCapacityNamesIgnored | wmf/wmf.py:966-969 | the docstring's `max_capilar` and `Max_gravit` select nothing |
| ModelState.PhysicVector | wmf/wmf.py:948-956 | a vector exists iff the value broadcasts over the cells and the basin is not a hills basin with a numeric mask; in cells mode it is the broadcast, in hills mode the broadcast aggregated to hillslopes under the built mask |
| ModelState.AfterSetPhysic | wmf/wmf.py:945-969 | a call without a vector raises; a call that raises changes nothing; no switch changes, and no tensor other than the one the name selects |
| ModelState.SetPhysicUnknownName | wmf/wmf.py:958-969 | an unrecognised name writes nothing, and the call raises iff there is no vector to store |
| ModelState.SetPhysicHillsScalarMaskRaises | wmf/wmf.py:355-358 | on a hills basin a numeric mask always makes the call raise, and the bank is unchanged, whatever the name and the value |
| ModelState.SetPhysicWritesOneRow | wmf/wmf.py:958-969 | a recognised name changes only row `pos` of its tensor (row 0 for the capacities), to the broadcast vector |
| ModelState.SetPhysicScalarCells | wmf/wmf.py:948-965 | in cells mode a scalar fills the whole selected row |
| ModelState.SetPhysicKeepsWellFormed | wmf/wmf.py:958-969 | tensor shapes survive `set_PhysicVariables`, and a failed call leaves the bank unchanged |
| ModelState.WriteTensorKeepsWellFormed | wmf/wmf.py:959 | a row write keeps every tensor's shape |
| ModelState.AfterSetStorage | wmf/wmf.py:1036-1053 | `set_storage` succeeds iff the value broadcasts over `N`, the bank is allocated, `pos` is a storage row and the broadcast fits the tensor width; otherwise it raises and the bank is unchanged |
| ModelState.SetStorageWritesOneRow | wmf/wmf.py:1046-1053 | on an allocated bank, a value that broadcasts over `N` becomes storage row `pos` (from the end when negative), and every other row, tensor and switch stays |
| ModelState.SetStorageScalar | wmf/wmf.py:1046-1053 | a scalar fills storage row `pos` and leaves the other rows and tensors unchanged |
| ModelState.SetStorageWrongLength | wmf/wmf.py:1046-1047 | an array of the wrong length raises and writes nothing |
| ModelState.SetStorageKeepsWellFormed | wmf/wmf.py:1053 | tensor shapes survive `set_storage` |
| ModelState.NewControl | wmf/wmf.py:984-1009 | a new mask is `N` zeros when none is given, the given mask when it has `N` entries, and the old mask, unchanged, otherwise |
| ModelState.AfterSetRecord | wmf/wmf.py:984-1009 | `set_record` touches only the two control masks |
| ModelState.SetRecordOutlet | wmf/wmf.py:984-996 | after a normal return the outlet entry is 1; the mask has length `N` when given with `N` entries or absent; the other entries are zeros when absent and the given ones when given |
| ModelState.SetRecordIgnoresWrongLength | wmf/wmf.py:984-996 | a discharge mask of the wrong length is ignored, and only the outlet entry of the old mask is set |
| ModelState.SetRecordHumidity | wmf/wmf.py:998-1009 | the humidity mask is zeros of length `N` when absent, the given one when it has `N` entries, and the old one otherwise |
| ModelState.SetRecordFailsOnlyWhenEmpty | wmf/wmf.py:984-996 | `set_record` raises iff the discharge mask it flags is empty |
| ModelState.CountNonzero | wmf/wmf.py:1102-1109 | the count is at most the length |
| ModelState.CountNonzeroIsCardinality | wmf/wmf.py:1102-1109 | `np.count_nonzero` is the size of the set of nonzero positions |
| ModelState.CountNonzeroPositive | wmf/wmf.py:1102-1109 | a mask with a nonzero entry has a positive count |
| ModelState.ControlCount | wmf/wmf.py:1102-1109 | a count of 0 becomes 1, and any other count is kept |
| ModelState.RecordedControlCountExact | wmf/wmf.py:1102-1105 | after a normal `set_record` the outlet is counted, so `NcontrolQ` is the true count |
| ModelState.SpeedCode | wmf/wmf.py:904-908 | the stored code is 1 or 2; it is `i` when `i` is 1 or 2, and 1 otherwise |
| ModelState.AfterSetSpeedType | wmf/wmf.py:904-908 | the first min(n,3) speed types become their codes and the rest are kept; a list longer than three raises after three writes |
| ModelState.DefaultSpeedTypes | wmf/wmf.py:904 | the default argument `np.ones(3)` sets all three speed types to 1 |
| ModelState.ResultKeys | wmf/wmf.py:1118-1126 | `Qsim`, `Balance` and `Storage` are always returned; `Humedad` iff some humidity control is set; `Sediments` iff sediments are simulated |
| ModelState.AfterRunShia | wmf/wmf.py:1095-1126 | `rain_first_point` is set and the storage is left at the kernel's end state, and nothing else in the bank changes; the kernel gets `N`, both control counts (0 becomes 1) and the interval count |
| ModelState.RunShiaKeepsParameters | wmf/wmf.py:1100-1117 | after a run the bank is still well formed, its storage is the kernel's end state, and the parameter tensors, control masks, speed types and allocation are as before |
| ModelState.RunWithoutHumidityControl | wmf/wmf.py:1106-1123 | with no humidity control point the kernel still gets one, and no humidity series is returned |
| SimuModels.WriteRow | wmf/wmf.py:959 | writing row `i` of an array changes exactly that row of its contents |
| SimuModels.Tensors.constructor | wmf/wmf.py:669-675 | seven distinct fresh arrays of the allocation shapes, ones except storage, which is zeros |
| SimuModels.Models.constructor | wmf/wmf.py:669-675 | the object starts in the unloaded bank state |
| SimuModels.Models.StateWellFormed | wmf/wmf.py:669-675 | a valid object holds a well-formed bank |
| SimuModels.Models.InitSimuBasin | wmf/wmf.py:601-689 | an unknown model type changes nothing; a known one moves the bank exactly as `AfterInit` |
| SimuModels.Models.Allocate | wmf/wmf.py:664-689 | the tensors are reallocated `n` wide and the switches stored, with nothing else changed |
| SimuModels.Models.Reallocate | wmf/wmf.py:669-675 | the seven tensors are replaced by freshly filled ones `n` wide |
| SimuModels.Models.WriteTensorRow | wmf/wmf.py:959 | the in-place row write moves the bank exactly as `WriteTensor` |
| SimuModels.Models.SetPhysicVariables | wmf/wmf.py:945-969 | the in-place method moves the bank exactly as `AfterSetPhysic` |
| SimuModels.Models.SetStorage | wmf/wmf.py:1036-1053 | the in-place method moves the bank exactly as `AfterSetStorage` |
| SimuModels.Models.SetRecord | wmf/wmf.py:984-1009 | the in-place method moves the bank exactly as `AfterSetRecord` |
| SimuModels.Models.SetSpeedType | wmf/wmf.py:904-908 | the loop writes each entry into the speed-type array exactly as `AfterSetSpeedType` |
| SimuModels.Models.RunShia | wmf/wmf.py:1095-1126 | the method writes the kernel's end storage into the storage array, returns the counts the kernel is called with and the result keys, and moves the bank exactly as `AfterRunShia` |
| SimuModels.WriteRows | wmf/wmf.py:1111-1117 | after the loop the array holds exactly the given matrix, row by row |

## Left out

- The Fortran kernels of `cu` and `models`. These include basin tracing and cutting, sub-basin search, Horton ordering, `basin_netxy_find`/`basin_netxy_cut`, `geo_hand` and the rain interpolators. Their outputs (`ncells`, `nhills`, `hills_own`, `acum`, `hand`, the slope, the network array) are inputs of the model.
- `basin_subbasin_map2subbasin`, the cell-to-hillslope aggregation `Transform_Basin2Hills` calls, is the function parameter `agg`. Only the mask built for it is modelled.
- `shia_v1`: its series are not modelled. `RunShia` returns the counts the kernel is called with (not the rain path or the calibration values) and the keys of the dictionary returned.
- ModelState.AfterRunShia, SimuModels.Models.RunShia: the kernel's end storage is a parameter, because the kernel is not modelled. The model assumes the run writes no other part of the bank: no coefficient, exponent, capacity, switch, control mask or speed type.
- String arguments that name a raster or a binary file to read (the `type(var) is str` branches of `set_PhysicVariables` and `set_storage`): these are file I/O.
- GDAL/OGR writing, the `.hdr` files, plotting, and the floating-point formulas of the geomorphology methods. Only the suffix, field-name and network-split helpers of the `Save_*` methods are kept. Of the attribute values of each reach, only `Long[km]` is modelled (`ReachLengthKm`). `Horton` is read from the network's first row, and `Qmed` from the `Qmed` array the kernel returns, so these two are not.
- Delaunay triangulation and the rest of `rain_interpolate_mit` after the padding.
- NaN and floating-point rounding: values are reals.
- numpy's distinction between a `(1,N)` array and one of length `N`.
- ModelState.Broadcast, ModelState.AfterSetStorage, ModelState.PhysicVector: the model requires the value to broadcast over this basin's `N` on its own. numpy broadcasts `np.ones((1,N))*var` and the row write together. The outcomes differ in one case only: `N` is 1, and the value has length `W` ≠ 1, written into a bank another basin allocated `W` wide. There `np.ones((1,1))*var` widens to a `(1,W)` row and the write succeeds, while the model raises.
- `ModelState.SpeedCode`: the speed types are compared as numbers only. A non-numeric entry, which Python compares as unequal to 1 and 2, is not representable.
- ModelState.Flag, ModelState.PhysicTarget, ModelState.PhysicVector, ModelState.Units, ModelState.NewControl, ModelState.AfterSetRecord, ModelState.AfterRunShia, ModelState.ControlCount: several tests compare identities in Python. The string tests are `is 'si'` in the allocation at wmf.py:679-689, `is 'h_coef'` and the other names at 958-969, and `is 'cells'`/`is 'hills'` at 955, 985-1008, 1036-1038 and 1095-1097. `np.count_nonzero(...) is 0` at 1102 and 1106 compares the integer the count returns. The model compares values, which is what these tests do for the interned literals callers pass and for small integers. `SimuBasin.__init__` itself tests the model type with `==` at 664-667.
- ModelState.ResultKeys: `models.sim_sediments is 1` at wmf.py:1124 is an identity test on a value read back from the engine module. The model reads it as `== 1`, which holds when the value comes back as the small Python integer 1. If the engine's module variable comes back as a zero-dimensional numpy array, the test is never true and `Sediments` is never returned. The model does not represent that case.
- `ModelState.AfterSetRecord`, `Hillslopes.BuildMask`: `controlQ <> None` and `mask<>None` (wmf.py:355) on an array are read as "an argument was given". Elementwise comparison semantics are not modelled.
- `models.drena = self.structure`, set in `SimuBasin.__init__`, is not modelled; nothing in the core reads it.
- `ModelState.Unloaded`: the engine's initial bank is the Fortran module's own state, which is not visible. The model starts with no tensors, empty control masks and the given speed types.
- `Basin.__init__` beyond snapping, `set_Geomorphology` beyond the hills-mode `elem_area`, and the `Stream` class, which is a single foreign call. A stream is a given sequence of vertices.
