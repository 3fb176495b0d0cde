# vdbfusion_ros: the VDBVolumeNode pipeline in Dafny

This project models `vdbfusion::VDBVolumeNode`, the ROS node that fuses a stream of
point-cloud scans into a TSDF volume (OpenVDB through `vdbfusion::VDBVolume`) and exports
the volume as a grid file, a PLY mesh and a `mesh_msgs::MeshGeometryStamped` message.

The node does four things:

- **Range filter** (`PreProcessCloud`). This is two in-place `erase`/`remove_if` passes over
  the scan: points with norm above `max_range` go first, then points with norm below `min_range`.
  `RangeFilter.RemoveIf` is the compaction loop of one pass on an array, and `RangeFilter.PreProcessCloud`
  runs both passes. They are proved against `RangeFiltered`, a single-predicate reference filter.
  The lemmas about it prove four things: the result holds exactly the points with
  `min_range <= norm <= max_range`, counted with multiplicity; it keeps their order; it is empty
  when `min_range > max_range`; and filtering twice changes nothing.
  Norms are compared without a square root: `Geometry.NormGreater` and `Geometry.NormLess` use the
  squared norm, and `NormGreaterMeans` / `NormLessMeans` prove that they agree with a comparison
  against the norm itself.
- **Ingestion** (`Integrate`). The transform lookup is a function argument that stands for the
  transform buffer's state at the time of the call. If the lookup finds nothing, the volume is
  unchanged. If it finds a transform, exactly one integration is added to the volume. Its origin
  is the transform's translation and its weighting returns 1.0 for every input.
  The node's volume is `Volume`: the parameters the volume was created with, plus the ordered list
  of integrations it has received.
- **Export** (`SaveVdbVolume`). It writes `path + "_grid.vdb"`, extracts the mesh, copies the
  vertices and triangles in order into the PLY matrices and into the message, writes
  `path + "_mesh.ply"`, publishes only when there is a vertex, and returns true. File writes and
  the publication are appended to a ghost `trace` of events.
- **Timer arming** (constructor and `TimerCallback`). The periodic timer exists exactly when
  `save_publish_wait_time > 0`. Each tick exports to `save_path`.

Three behaviours of the code are worth noting:

- **Scan frame.** `pcd_out` is default-constructed and is assigned only when `apply_pose` is on,
  yet it is always the cloud that gets converted (src/vdbfusion_ros/VDBVolume_ros.cpp:119-126).
  So with `apply_pose` off, the scan handed to the volume comes from that untouched cloud, not from
  the received one. The model takes it to be empty (see "## Left out");
  `VolumeNode.SensorFrameScanIsEmpty` states this.
- **Range bounds.** Points whose norm equals either bound are kept, because both culls use
  strict comparisons (`RangeFilter.BoundsAreKept`).
- **Locking and failures.** Nothing guards the volume against an export running during an
  integration: the node takes no lock and relies on its callbacks running one at a time.
  The save service always answers true, whatever happens to the file writes.

## Model

| member | source | states |
|---|---|---|
| `Geometry.NormGreaterMeans` | src/vdbfusion_ros/VDBVolume_ros.cpp:57 | the squared-norm test `NormGreater(p, r)` holds exactly when the norm of `p` exceeds `r` (the cull `p.norm() > max_range`) |
| `Geometry.NormLessMeans` | src/vdbfusion_ros/VDBVolume_ros.cpp:60 | the squared-norm test `NormLess(p, r)` holds exactly when the norm of `p` is below `r` (the cull `p.norm() < min_range`) |
| `Geometry.NoNormBetweenInvertedBounds` | src/vdbfusion_ros/VDBVolume_ros.cpp:57-60 | when `lo > hi`, every point is culled by one of the two passes |
| `RangeFilter.RemoveIf` | src/vdbfusion_ros/VDBVolume_ros.cpp:56-58 | one `erase(remove_if(...))` pass: the first `n` array cells become the input points that the cull does not remove, in their original order |
| `RangeFilter.PreProcessCloud` | src/vdbfusion_ros/VDBVolume_ros.cpp:55-62 | after the two passes, the first `n` cells are `RangeFiltered` of the input: exactly the in-range points, in order |
| `RangeFilter.TwoCullsAreRangeFilter` | src/vdbfusion_ros/VDBVolume_ros.cpp:55-62 | the far cull followed by the near cull equals the one-predicate filter `min_range <= norm <= max_range` |
| `RangeFilter.CullOrderIrrelevant` | src/vdbfusion_ros/VDBVolume_ros.cpp:55-62 | running the near cull first gives the same sequence as the source's order |
| `RangeFilter.RangeFilteredCounts` | src/vdbfusion_ros/VDBVolume_ros.cpp:55-62 | each in-range point keeps all of its occurrences and every other point loses all of its occurrences |
| `RangeFilter.RangeFilteredMembers` | src/vdbfusion_ros/VDBVolume_ros.cpp:55-62 | a point is in the output if and only if it is in the input and in range |
| `RangeFilter.RangeFilteredInRange` | src/vdbfusion_ros/VDBVolume_ros.cpp:55-62 | no point outside `[min_range, max_range]` remains |
| `RangeFilter.RangeFilteredIsSubsequence` | src/vdbfusion_ros/VDBVolume_ros.cpp:56-61 | the output is a subsequence of the input: the relative order of the kept points is preserved |
| `RangeFilter.InvertedRangeIsEmpty` | src/vdbfusion_ros/VDBVolume_ros.cpp:57-60 | with `min_range > max_range` the output is empty |
| `RangeFilter.RangeFilterIdempotent` | src/vdbfusion_ros/VDBVolume_ros.cpp:55-62 | applying the filter to its own output changes nothing |
| `RangeFilter.BoundsAreKept` | src/vdbfusion_ros/VDBVolume_ros.cpp:57-60 | a point whose norm equals `min_range` or `max_range` is kept, since both culls are strict |
| `RangeFilter.InRangeMeans` | src/vdbfusion_ros/VDBVolume_ros.cpp:57-60 | surviving both culls is exactly `min_range <= norm <= max_range` |
| `RangeFilter.FilterExample` | src/vdbfusion_ros/VDBVolume_ros.cpp:55-62 | with bounds 1.0 and 10.0, points at norms 0.5, 2.0, 9.9 and 15.0 leave the points at 2.0 and 9.9 |
| `RosMessages.ToUint32` | src/vdbfusion_ros/VDBVolume_ros.cpp:169-171 | storing a signed index in a `uint32` keeps non-negative values and adds 2^32 to negative ones |
| `VolumeNode.SensorFrameScanIsEmpty` | src/vdbfusion_ros/VDBVolume_ros.cpp:118-130 | with `apply_pose` off, the scan given to the volume is empty, because the untouched `pcd_out` is converted |
| `VolumeNode.TransformedScan` | src/vdbfusion_ros/VDBVolume_ros.cpp:123-130 | with `apply_pose` on, the scan is the transformed cloud; with `preprocess` also on, it is the range filter of that cloud: an order-preserving subsequence holding every copy of each in-range point and nothing else |
| `VolumeNode.MessageVerticesCopy` | src/vdbfusion_ros/VDBVolume_ros.cpp:153-162 | the message's vertex list has one point per extracted vertex, with the same coordinates, in the same order |
| `VolumeNode.MessageFacesCopy` | src/vdbfusion_ros/VDBVolume_ros.cpp:165-173 | the message's face list has one index triple per triangle, in the same order; non-negative indices keep their value |
| `VolumeNode.FillVertexData` | src/vdbfusion_ros/VDBVolume_ros.cpp:152-162 | the vertex loop fills the PLY vertex matrix with the vertices unchanged and builds the message's vertex list `MessageVertices` of them |
| `VolumeNode.FillFaceData` | src/vdbfusion_ros/VDBVolume_ros.cpp:164-173 | the triangle loop fills the PLY face matrix with the triangles unchanged and builds the message's face list `MessageFaces` of them |
| `VolumeNode.ExportEventsMeaning` | src/vdbfusion_ros/VDBVolume_ros.cpp:139-187 | an export writes `path_grid.vdb` and then `path_mesh.ply`, always both; it has exactly three effects with a vertex and two without, so it publishes once if and only if the mesh has a vertex; the published message, framed "map", carries every vertex and triangle in order |
| `VolumeNode.VdbVolumeNode.constructor` | src/vdbfusion_ros/VDBVolume_ros.cpp:65-115 | the volume is created empty from voxel size, truncation and space carving; the settings are copied from the parameters; the timer is armed iff `save_publish_wait_time > 0`, with that period |
| `VolumeNode.VdbVolumeNode.Integrate` | src/vdbfusion_ros/VDBVolume_ros.cpp:117-137 | no transform: volume unchanged. Transform found: exactly one integration is appended, nothing else changes, the origin is the translation (x, y, z), the points are `IngestedScan`, and the weight is 1.0 for every input |
| `VolumeNode.VdbVolumeNode.SaveVdbVolume` | src/vdbfusion_ros/VDBVolume_ros.cpp:139-187 | appends exactly the `ExportEvents` of the current volume and its extracted mesh, answers true, and leaves the volume unchanged, so two exports with no scan in between extract the same mesh |
| `VolumeNode.VdbVolumeNode.TimerCallback` | src/vdbfusion_ros/VDBVolume_ros.cpp:189-197 | a tick performs the same export, to the configured `save_path` |

## Left out

- ROS plumbing is not modelled: parameter reading with `getParam`, `subscribe`, `advertiseService`,
  `advertise`, `ros::spin`, `main` and logging. These are transport and I/O. The constructor takes the
  parameter values as a `Config`. What happens when a parameter is missing (the C++ variable stays
  uninitialised) is not modelled.
- The internals of `Transform::lookUpTransform` are not modelled; Transform.hpp is not part of this
  model. Integrate receives the lookup as a function from (stamp, tolerance) to an optional transform.
- `tf2::doTransform` and `VDBVolume::ExtractTriangleMesh` (marching cubes) are external engines.
  They are functions given to the node when it is constructed.
- The TSDF grid inside `VDBVolume`, and how integration changes it, are not modelled. The volume is
  its creation parameters plus the ordered list of integrations it has received, and its grid is
  determined by that list.
- Grid-file and PLY serialisation are not modelled. Writing a file is recorded as an event holding
  the file name and the data handed to the writer.
- `sensor_msgs::convertPointCloud2ToPointCloud` is not part of this model. The model assumes that a
  default-constructed cloud, which has no fields, converts to zero points; if that library call
  fails on a cloud without fields, the `apply_pose`-off path does not integrate an empty scan.
- `pcl2SensorMsgToEigen`: the binary layout of `PointCloud2` and the float32 conversion are not
  modelled. A cloud carries its points already decoded.
- Floating point is not modelled: coordinates and range bounds are reals, so double/float
  rounding in the norm and the comparisons is left out.
- The message stamp from `ros::Time::now()` is a parameter of the export.
- The `ros::TimerEvent` argument of the timer callback is not modelled, and timer scheduling is not
  modelled.
- VolumeNode.VdbVolumeNode.TimerCallback: requires an armed timer, because only the timer created in
  the constructor invokes it.
- VolumeNode.VdbVolumeNode.TimerCallback: its log line at src/vdbfusion_ros/VDBVolume_ros.cpp:191 passes
  a `std::string` to a `%s` format through varargs. That is undefined or only conditionally supported
  in C++, and some compilers make the call abort before the export. The model treats the log line as
  having no effect, so every tick exports.
- Concurrency is not modelled. The node runs its callbacks one at a time and takes no lock.
- Export failures are not modelled: the code never reports one.
