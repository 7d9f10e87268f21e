# Emio API: calibration, motor bus and device registry in Dafny

This project models three parts of the Emio API (the Python package
`emioapi` that drives the Emio robot's Dynamixel motors and its depth
camera) and proves properties of the model.

- **Position estimation** (`emioapi/_positionestimation.py`):
  - the pinhole back-projection `pixels_to_mm`;
  - the rigid registration `rigid_transform_3D`, where the SVD is an oracle passed in;
  - the nine-anchor reference board built by `PositionEstimation.__init__`;
  - the eight-marker `calibrate` and its id scan over the list `counted`;
  - the single-marker `calibrate_single_marker`, which accumulates nine points per pass and writes their averages;
  - `init_position_estimation`, which rebuilds `R` and `t` from the calibration file;
  - `image_to_3D`.

  Module `Calibration` states each method as a function from the object's state (`points`, `trackers_pos`, `count_calibration_frames`, the calibration file's rows) to the new state and the result, and proves lemmas about these functions. Class `PositionEstimation.Estimator` has the source's fields and runs the source's loops. Each of its methods is proved to leave exactly the state those functions describe.
- **Motor group** (`emioapi/motorgroup.py`):
  - the four-byte little-endian encoding `_valToArray`;
  - the all-or-nothing group read `readMotorsData`;
  - the group write `__writeMotorsData`;
  - `setOperatingMode` and `enableTorque`;
  - the `connected` flag that a failing `open` clears.

  The Dynamixel bus is abstract. A group read is represented by its reply, and the mode read from a motor by a function of its id. The one-byte writes are recorded in the order they are sent.
- **Device registry** (`emioapi/emioapi.py`):
  - the class-level dictionary `_emio_list`, as an object shared by every `EmioApi`, with its keys in insertion order;
  - `listUsedEmioDevices` and `listUnusedEmioDevices`;
  - `connectToEmioDevice`;
  - `disconnect`.

  The device list, the camera list and the results of the motors' and camera's `open` are parameters.

Python's exceptions become `Outcomes.Outcome.Raised`. Examples: the shape `assert` of `rigid_transform_3D`, a missing calibration file, `counted[id]` with an id below -8, numpy shapes that cannot broadcast, `list.index` of an absent name, and a camera index past the end of the list. Python's `int()` truncates toward zero and is modelled as `Geometry.Trunc`. Negative list indices count from the end and are modelled as `Calibration.Slot`.

Behaviour of the code worth noting:
- `calibrate` never changes `R` and `t`, although its docstring says it calculates the rotation matrix and the translation vector. Only `init_position_estimation` sets them.
- A `calibrate` that fails at the depth check (lines 289-292) has already replaced `points` and `trackers_pos`. One that fails on the marker count or the id scan (lines 258-274) returns before touching them.
- A non-aggregating `calibrate_single_marker` resets `points`, `trackers_pos` and the pass counter once only marker 672 is seen (lines 345-348). A pass that then fails leaves them reset.
- `pixels_to_mm` does not check the depth.
- `rigid_transform_3D` checks only that the two clouds have the same size, not that there are at least three points.
- `calibrate` writes one row per marker: eight rows, with no derived midpoints. `init_position_estimation` registers the stored rows against the nine anchors, so rows written by `calibrate` always fail its shape assertion (`Calibration.BoardCalibrationCannotBeLoaded`). Rows written by `calibrate_single_marker` always load (`Calibration.SingleMarkerCalibrationCanBeLoaded`).

## Model

| member | source | states |
|---|---|---|
| Geometry.Trunc | emioapi/_positionestimation.py:284-285 | `int()` of a float truncates toward zero: the result is the floor for non-negative values and the ceiling for negative ones |
| Geometry.PixelsToMm | emioapi/_positionestimation.py:56-84 | the back-projected point has Z = depth, X·fx = (x − ppx)·depth and Y·fy = (y − ppy)·depth |
| Geometry.ProjectAfterPixelsToMm | emioapi/_positionestimation.py:82-84 | for a non-zero depth, projecting the back-projected point with the pinhole model gives the pixel back |
| Geometry.PixelsToMmAfterProject | emioapi/_positionestimation.py:82-84 | projecting a point with non-zero Z and back-projecting it at that depth gives the point back (left inverse) |
| Geometry.ComputeCdg | emioapi/_positionestimation.py:86-106 | the centroid is (0, 0) when m00 = 0, and otherwise the truncated moments ratios |
| Geometry.CenteredHasZeroMean | emioapi/_positionestimation.py:39-43 | a cloud centred on its own mean sums to zero |
| Geometry.MeanTranslated | emioapi/_positionestimation.py:39-40 | moving every point by d moves the mean by d |
| Geometry.NegateLastRowDet | emioapi/_positionestimation.py:48-49 | negating the last row of Vᵗ negates its determinant |
| Geometry.RotationFromSvd | emioapi/_positionestimation.py:45-51 | R = Vᵗᵀ·Uᵀ when that product's determinant is non-negative; otherwise the same product with the last row of Vᵗ negated (`NegateLastRowDet`) |
| Geometry.RigidTransform3D | emioapi/_positionestimation.py:17-54 | raises AssertionError exactly when the clouds differ in size; otherwise, whatever rotation the SVD leads to, R·centroid_A + t = centroid_B |
| Geometry.RigidTransformTranslationInvariant | emioapi/_positionestimation.py:39-53 | moving the image cloud by d leaves R unchanged and changes t to t − R·d |
| Calibration.AbsolutePositions | emioapi/_positionestimation.py:128-139 | nine anchors, all at y = 3.0; anchors 0 and 2 are opposite on the x axis and 1 and 3 on the z axis; anchors 4–7 are the midpoints of (0,1), (1,2), (2,3), (3,0); anchor 8 has x = z = 0 |
| Calibration.OppositeAnchorsSpanDiagonal | emioapi/_positionestimation.py:128-134 | opposite anchors are one board diagonal, sqrt(100² + 100²), apart |
| Calibration.ReferenceCentroid | emioapi/_positionestimation.py:131-139 | the centre anchor is the mean of the nine anchors |
| Calibration.QuadCentre | emioapi/_positionestimation.py:284-285 | a marker's pixel is the truncated mean of its four corners, coordinate by coordinate |
| Calibration.Slot | emioapi/_positionestimation.py:271-274 | `counted[id]` for an id in −8..7 designates one of the eight entries, the one congruent to id modulo 8 (negative ids count from the end) |
| Calibration.ScanIds | emioapi/_positionestimation.py:267-274 | the id scan over `counted`: it raises only IndexError, and only when some id is below −8; when it accepts, every id lies in −8..7. `ScanIdsAccepts` and `ScanAcceptsPermutations` characterise acceptance |
| Calibration.ScanIdsAccepts | emioapi/_positionestimation.py:267-274 | the id scan accepts exactly when every id is at most 7 and indexes `counted`, and no two ids mark the same entry |
| Calibration.ScanAcceptsPermutations | emioapi/_positionestimation.py:258-274 | for eight non-negative ids, the scan accepts exactly the permutations of 0..7 |
| Calibration.RowsOfMeasurements | emioapi/_positionestimation.py:280-297 | the rows built from the recorded pixels and positions are, in detection order, each marker's truncated pixel, its depth and its id |
| Calibration.BoardRecordsOfMarkers | emioapi/_positionestimation.py:297 | each row `calibrate` writes holds its marker's id, its measured depth and its centre pixel, which is already integral so truncation keeps it |
| Calibration.CalibrateStep | emioapi/_positionestimation.py:226-304 | not exactly eight markers: nothing changes and the result is False; a call that does not succeed leaves the file as it was; the pass counter never changes |
| Calibration.CalibrateStepAccepted | emioapi/_positionestimation.py:276-304 | once the ids pass, `points`/`trackers_pos` are replaced before the depth check; the rows are written only when every depth is at least 5 |
| Calibration.CalibrateSucceeds | emioapi/_positionestimation.py:258-304 | success holds exactly when there are 8 markers, every id lies in −8..7 and marks its own entry of `counted`, and every depth is ≥ 5; it then writes 8 rows in detection order with each marker's truncated pixel, its measured depth and its id, and non-negative ids form a permutation of 0..7 |
| Calibration.PassPixels | emioapi/_positionestimation.py:353-402 | the nine pixels of a pass are the four corners, the midpoints of (0,1), (1,2), (2,3), (3,0), and the truncated centre |
| Calibration.SideTracker | emioapi/_positionestimation.py:370-389 | a side's position lies midway in x and y between its corners' positions, with the depth sampled at the side's pixel |
| Calibration.SinglePass | emioapi/_positionestimation.py:349-402 | a successful pass has nine pixels and nine positions |
| Calibration.SinglePassSamples | emioapi/_positionestimation.py:349-402 | a pass fails exactly when one of the nine sampled depths is zero; otherwise each position's depth is its pixel's non-zero sample, corners and centre are back-projected, and sides are midway between their corners |
| Calibration.AddPoints | emioapi/_positionestimation.py:406 | `self.points + temp_points` under numpy broadcasting: nine sums, element by element against nine rows, or against the single row of a one-row array |
| Calibration.AddTrackers | emioapi/_positionestimation.py:407 | `self.trackers_pos + temp_trackers_pos`, the same broadcast sum for positions |
| Calibration.AfterPass | emioapi/_positionestimation.py:404-412 | after the pass: no pass gives False with nothing changed; a sum that cannot broadcast raises ValueError before the positions, the counter or the file change; a completed pass counts one more, keeps nine sums and writes their averages. `AggregatedPassAdds` and `FreshPassWritesRawValues` characterise it |
| Calibration.AverageRecords | emioapi/_positionestimation.py:412 | exactly nine rows are written, all with the marker's id |
| Calibration.SingleMarkerStep | emioapi/_positionestimation.py:306-417 | `calibrate_single_marker` as a function of the session: unless marker 672 alone is seen, nothing changes and the result is False; a call that does not succeed leaves the file as it was. `SingleMarkerStepOutcomes`, `AggregatePassesSum` and `RepeatedPassesKeepRecords` characterise it |
| Calibration.SingleMarkerStepOutcomes | emioapi/_positionestimation.py:335-417 | success holds exactly when only marker 672 is seen, the pass finds every depth and, when aggregating, the sums can be added to. A failure never touches the file and raises only ValueError. An aggregating False changes nothing; a non-aggregating one, once marker 672 alone is seen, leaves the sums reset. Success counts one more pass and writes nine rows with id 672 |
| Calibration.FreshPassWritesRawValues | emioapi/_positionestimation.py:404-412 | a non-aggregated pass writes the pass's own truncated pixels and sampled depths |
| Calibration.AverageOfCopies | emioapi/_positionestimation.py:412 | averaging n copies of a pass gives the pass's own rows |
| Calibration.AggregatedPassAdds | emioapi/_positionestimation.py:404-412 | an aggregated pass over nine-row sums adds the pass row by row, counts one more pass and writes the new averages |
| Calibration.AggregatePassesSum | emioapi/_positionestimation.py:404-412 | after a fresh pass and k aggregated passes over the same input, the sums are k + 1 copies of the pass and the counter is k + 1 |
| Calibration.RepeatedPassesKeepRecords | emioapi/_positionestimation.py:404-417 | a fresh pass followed by any number of aggregated passes over identical input leaves the file with the fresh pass's rows |
| Calibration.LoadedPoints | emioapi/_positionestimation.py:203-204 | one pixel per row of the file, in order, with the row's X and Y |
| Calibration.LoadedTrackers | emioapi/_positionestimation.py:203-211 | one position per row of the file, in order, at the row's depth |
| Calibration.LoadedTrackersProjectToRows | emioapi/_positionestimation.py:203-211 | each loaded position with a non-zero depth projects back onto its row's pixel, so positions and pixels stay paired |
| Calibration.InitTransform | emioapi/_positionestimation.py:200-221 | the transform exists exactly when there are nine rows (AssertionError otherwise) and carries the rows' centroid onto the board centre (0, 3, 0) |
| Calibration.BoardCalibrationCannotBeLoaded | emioapi/_positionestimation.py:297-301 | the eight rows written by a successful `calibrate` make the transform rebuild raise AssertionError |
| Calibration.SingleMarkerCalibrationCanBeLoaded | emioapi/_positionestimation.py:412-416 | the nine rows written by a successful `calibrate_single_marker` can always be loaded |
| PositionEstimation.Locate | emioapi/_positionestimation.py:456-459 | the returned point, raised by 305.5 in y, is R·p + t for the back-projected pixel p; at the principal point, p lies on the optical axis at the given depth |
| PositionEstimation.CalibrationCentroidLocated | emioapi/_positionestimation.py:439-459 | once the transform is rebuilt, the pixel and depth of the rows' centroid map to (0, 3 − 305.5, 0) |
| PositionEstimation.ScanMarkerIds | emioapi/_positionestimation.py:267-274 | the loop over the eight-entry list `counted` returns what the id scan describes |
| PositionEstimation.DepthsAllKnown | emioapi/_positionestimation.py:289-292 | the depth loop returns True exactly when every depth is at least 5 |
| PositionEstimation.Estimator.constructor | emioapi/_positionestimation.py:115-156 | the anchors are the reference board; the lists are empty, the counter is 0, no transform is set, and the parameters come from the configuration or are the defaults |
| PositionEstimation.Estimator.InitPositionEstimation | emioapi/_positionestimation.py:183-224 | a missing file raises FileNotFoundError with the lists emptied and `initialized` false. Otherwise the rows are loaded and `initialized` is set, then the transform is set, or the exception is raised with the transform unchanged |
| PositionEstimation.Estimator.Calibrate | emioapi/_positionestimation.py:226-304 | the new state and result are those of `CalibrateStep`, and `R`, `t`, `initialized` and the parameters do not change |
| PositionEstimation.Estimator.MeasureMarkers | emioapi/_positionestimation.py:280-287 | the measuring loop records each marker's truncated centre pixel and its back-projected position, in detection order |
| PositionEstimation.Estimator.SampleCorners | emioapi/_positionestimation.py:353-361 | the corner loop fails only at a zero depth; otherwise it back-projects every corner at its non-zero depth |
| PositionEstimation.Estimator.SampleSides | emioapi/_positionestimation.py:384-389 | the side loop fails only at a zero depth; otherwise each side keeps its x and y and takes the depth under its own pixel |
| PositionEstimation.Estimator.ExtractMarkerFrame | emioapi/_positionestimation.py:349-402 | the pass over the temporary buffers gives exactly `SinglePass` |
| PositionEstimation.Estimator.CalibrateSingleMarker | emioapi/_positionestimation.py:306-417 | the new state and result are those of `SingleMarkerStep`, and `R`, `t`, `initialized` and the parameters do not change |
| PositionEstimation.Estimator.AddPass | emioapi/_positionestimation.py:404-417 | after a pass, the sums are replaced or added to (points first, then positions, each raising ValueError when they cannot broadcast), one more pass is counted, and the averaged rows are written |
| PositionEstimation.Estimator.ImageTo3D | emioapi/_positionestimation.py:439-459 | raises ValueError exactly while no transform has been rebuilt; otherwise returns R·p + t with y lowered by 305.5 |
| MotorBus.ValToArray | emioapi/motorgroup.py:249-257 | exactly four values, each a byte 0..255 |
| MotorBus.ValToArrayValue | emioapi/motorgroup.py:256-257 | the bytes are little-endian: b0 + 2⁸·b1 + 2¹⁶·b2 + 2²⁴·b3 = val mod 2³² |
| MotorBus.ValToArrayRoundTrip | emioapi/motorgroup.py:249-257 | a value in 0 .. 2³² − 1 is recovered from its bytes |
| MotorBus.ValToArrayOfBytes | emioapi/motorgroup.py:256-257 | any four bytes are the encoding of the value they stand for |
| MotorBus.ValToArrayWraps | emioapi/motorgroup.py:256-257 | values equal modulo 2³² are sent as the same bytes |
| MotorBus.GroupRead | emioapi/motorgroup.py:61-83 | None exactly when the transaction fails or some motor's data is unavailable; otherwise one value per id, in id order |
| MotorBus.WriteParams | emioapi/motorgroup.py:127-129 | one parameter per id, holding the encoding of the value at the same index |
| MotorBus.ModeWrites | emioapi/motorgroup.py:102-106 | the loop over the motor ids: at most one write per id. `ModeWritesExactly` and `ModeWritesNoneWhenSet` characterise it |
| MotorBus.ModeWritesExactly | emioapi/motorgroup.py:102-106 | every mode write targets a listed motor whose mode differs and writes the requested mode at the operating-mode address; every such motor gets one |
| MotorBus.ModeWritesNoneWhenSet | emioapi/motorgroup.py:102-106 | when every motor already has the requested mode, nothing is written |
| MotorBus.TorqueWrites | emioapi/motorgroup.py:233-235 | one torque-enable write per motor, in id order |
| MotorBus.MotorGroup.constructor | emioapi/motorgroup.py:12-15 | a new group starts connected, with nothing written |
| MotorBus.MotorGroup.ReadMotorsData | emioapi/motorgroup.py:61-83 | the loop returns exactly `GroupRead`: all of the data or None, never a partial list |
| MotorBus.MotorGroup.WriteMotorsData | emioapi/motorgroup.py:121-130 | the parameters are cleared, one is added per id, and one packet is sent. Fewer values than ids raise IndexError after the parameters that could be added, and nothing is sent |
| MotorBus.MotorGroup.SetOperatingMode | emioapi/motorgroup.py:86-106 | nothing when not connected; otherwise exactly the mode writes, in order |
| MotorBus.MotorGroup.Open | emioapi/motorgroup.py:215-225 | the group stays connected only if it was connected and neither opening the port nor setting the baud rate raises |
| MotorBus.MotorGroup.EnableTorque | emioapi/motorgroup.py:228-235 | nothing when not connected; otherwise one torque-enable write per motor, in order |
| EmioRegistry.Unused | emioapi/emioapi.py:142 | exactly the listed devices not in use, in list order; a single device is kept exactly when it is not in use |
| EmioRegistry.UnusedConcat | emioapi/emioapi.py:142 | filtering keeps the list's order: the unused devices of a concatenation are those of each part, in order |
| EmioRegistry.UsedUnusedPartition | emioapi/emioapi.py:142-153 | each listed device is listed exactly once, as used or as unused |
| EmioRegistry.FirstUnused | emioapi/emioapi.py:171 | the first unused device is the first listed device not in use |
| EmioRegistry.NothingUsed | emioapi/emioapi.py:142 | with nothing in use, the unused devices are the whole list in its order |
| EmioRegistry.ChooseDevice | emioapi/emioapi.py:170-171 | a given name is kept; without one, the choice is an unused listed device, or None exactly when every listed device is in use |
| EmioRegistry.IndexOf | emioapi/emioapi.py:174 | `list.index` gives the first position of the name, or raises ValueError when it is absent or None |
| EmioRegistry.DefaultDeviceIsFirstUnused | emioapi/emioapi.py:170-174 | without a name, the index used is that of the first listed device not in use |
| EmioRegistry.NoFreeDeviceRaises | emioapi/emioapi.py:170-174 | without a name and with every device in use, the call raises ValueError |
| EmioRegistry.Inserted | emioapi/emioapi.py:183 | registering keeps the keys distinct and adds the name |
| EmioRegistry.Removed | emioapi/emioapi.py:200 | popping removes the name and keeps every other key |
| EmioRegistry.RemovedDistinct | emioapi/emioapi.py:200 | the remaining keys stay distinct |
| EmioRegistry.RemovedIdempotent | emioapi/emioapi.py:200 | popping a name twice is the same as popping it once |
| EmioRegistry.RemovedAbsent | emioapi/emioapi.py:200 | popping an absent name changes nothing |
| EmioRegistry.DeviceTable.constructor | emioapi/emioapi.py:82 | the shared registry `_emio_list = {}` starts empty, with no keys in order and no owners |
| EmioRegistry.DeviceTable.ListUsedEmioDevices | emioapi/emioapi.py:145-153 | exactly the dictionary's keys, each once |
| EmioRegistry.DeviceTable.ListUnusedEmioDevices | emioapi/emioapi.py:134-142 | exactly the listed devices not in the dictionary, in list order (`Unused`, with `UnusedConcat`); together with the used ones they account for the whole list |
| EmioRegistry.DeviceTable.Register | emioapi/emioapi.py:183 | `_emio_list[name] = api`: the name maps to the object, and a new key goes last |
| EmioRegistry.DeviceTable.Pop | emioapi/emioapi.py:200 | `pop(name, None)` removes the entry if present and raises nothing |
| EmioRegistry.EmioApi.constructor | emioapi/emioapi.py:82-85 | a new `EmioApi` shares the given registry and starts with no device index, no motors' port and no camera serial |
| EmioRegistry.EmioApi.ConnectToEmioDevice | emioapi/emioapi.py:160-187 | ValueError exactly when the chosen name is not listed. IndexError exactly when no camera sits at its index. The device is registered only when the motors open; the result is True only when the camera opens too; a camera failure leaves the registration in place; `cameraSerial` changes only on a True result |
| EmioRegistry.EmioApi.Disconnect | emioapi/emioapi.py:190-200 | the motors' port leaves the dictionary, whoever holds it; with no port, nothing changes |

## Left out

- The SVD, the determinant test and the matrix products of `rigid_transform_3D` are floating-point numerics. The decomposition is an oracle, and no property of the rotation is proved. Only the centroids, the centring and the translation are.
- An empty cloud in `rigid_transform_3D`: numpy's mean of nothing is NaN. `Geometry.RigidTransform3D` requires a non-empty cloud when the sizes agree.
- Floating point in general: depths and coordinates are reals, so rounding is not modelled.
- OpenCV: marker detection, `cvtColor`, `threshold`, `fillPoly`, `moments` and the drawing calls. Detected markers are an input sequence of (four corners, id), with "no ids" as the empty sequence. `compute_cdg` takes the moments as input.
- `get_marker_mask` and `get_depth` are not part of this model. The depth under a marker's footprint is a function argument (`Calibration.MarkerDepth`).
- The depth image is a function from (row, column) to depth. numpy's bounds checks and negative indices on it are not modelled.
- CSV and JSON I/O, including header, text encoding and parsing. The calibration file is an object holding its rows, or nothing while it does not exist. The parameter file is read as a map, or is absent.
- The hypotenuse sqrt(100² + 100²)/2 is irrational. It is a constructor argument `h > 0` with h² = 5000.
- Zero focal lengths are excluded by `ValidIntrinsics`. With them, `pixels_to_mm` would divide by zero.
- Logging, `window.set_frame`, `mask_area`, and the `if not self.initialized` branch of `init_position_estimation`, which cannot be reached.
- The temporary numpy arrays of `calibrate_single_marker` are sequences built in the same order. In-place row updates and aliasing of the arrays are not modelled.
- `R` and `t` are one optional transform. Before the first rebuild, the model stores no transform: the (9, 3) zero placeholder is not kept. `image_to_3D` then raises the ValueError that the placeholder's broadcast raises.
- Whether Python prints `int` or `float` in the file is not modelled. Rows hold integer pixels and real depths.
- The Dynamixel SDK: port and packet handlers, the contents of `GroupSyncRead`, and duplicate-id checks inside `GroupSyncWrite.addParam`. A group read is its reply. `GroupSyncWrite` keeps only the added parameters and the sent packets. `read1ByteTxRx` is a function of the motor id that returns the mode.
- `close`, the goal/velocity wrappers around `readMotorsData`/`__writeMotorsData`, `listMotors` and `listCameras` are not modelled. The device and camera lists are parameters, and each call sees the same enumeration.
- `_valToArray` on non-integer values raises TypeError in Python. The model takes integers only.
- `EmioMotors` and `EmioCamera` are not part of this model. Their `open` results are parameters. The motors are assumed to keep the port name they were opened with, and their `device_name` is the name passed to a successful open. The camera's and motors' own state on `close` is not modelled.
- The lock around `disconnect`, and `emioapi/emiocamera.py` with its worker process: concurrency is not modelled.
- MotorBus.MotorGroup.SetOperatingMode: a mode read is a fixed function of the motor id. A read that would see an earlier write in the same call, such as a repeated id, is not modelled.
- PositionEstimation.Estimator.constructor: requires valid intrinsics. In the source, a falsy `cameraintrinsinc` argument is stored as None (line 123), and every later `pixels_to_mm` call (lines 206, 287, 361, 402, 457) then raises AttributeError. That None state and those AttributeErrors are not modelled.
- Geometry.RotationFromSvd: that the resulting R is a proper rotation (determinant +1) is not stated. It would need the product rule for 3×3 determinants and the orthogonality of the SVD factors, and the model treats the decomposition as an oracle.
