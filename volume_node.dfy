/**
 * vdbfusion::VDBVolumeNode: the ROS node that fuses point-cloud scans into a
 * TSDF volume and exports the volume's grid and surface mesh.
 *
 * The external engines appear through their interfaces only:
 *  - the volume (vdbfusion::VDBVolume) is represented by its creation
 *    parameters and the ordered integrations it has received;
 *  - surface extraction (VDBVolume::ExtractTriangleMesh) and tf2::doTransform
 *    are functions handed to the node when it is built;
 *  - the transform listener's lookUpTransform is the function Integrate is
 *    given, standing for the buffer's state at the time of the call;
 *  - file writes and the mesh publication are events appended to a ghost trace.
 */
module VolumeNode {
  import opened Wrappers
  import opened Geometry
  import opened RosMessages
  import opened RangeFilter

  /** The per-point weighting callback handed to VDBVolume::Integrate. */
  type WeightFunction = real -> real

  /** The node's weighting: 1.0 whatever the input. */
  const UnitWeight: WeightFunction := (_: real) => 1.0

  /** One call of VDBVolume::Integrate: the points, the ray origin and the weighting. */
  datatype Integration = Integration(points: seq<Vec3>, origin: Vec3, weighting: WeightFunction)

  /**
   * vdbfusion::VDBVolume, represented by the parameters it was created with and
   * the integrations it has received, oldest first. The grid these determine
   * is not modelled.
   */
  datatype Volume = Volume(voxelSize: real, sdfTrunc: real, spaceCarving: bool, integrations: seq<Integration>)
  {
    /** VDBVolume::Integrate: fuses one more batch of points into the volume. */
    function Integrate(points: seq<Vec3>, origin: Vec3, weighting: WeightFunction): Volume
    {
      this.(integrations := integrations + [Integration(points, origin, weighting)])
    }
  }

  /** The result of VDBVolume::ExtractTriangleMesh: vertices and index triples. */
  datatype TriangleMesh = TriangleMesh(vertices: seq<Vec3>, triangles: seq<Vec3i>)

  /** The externally visible effects of an export. */
  datatype Event =
    | GridWritten(file: string, grid: Volume)
    | MeshWritten(file: string, vertexRows: seq<Vec3>, faceRows: seq<Vec3i>)
    | MeshPublished(message: MeshGeometryStamped)

  /** The "PointCloud Processing" settings of the node. */
  datatype CloudProcessing = CloudProcessing(preprocess: bool, applyPose: bool, minRange: real, maxRange: real)

  /** The "Triangle Mesh Extraction" settings of the node. */
  datatype MeshExtraction = MeshExtraction(fillHoles: bool, minWeight: real)

  /** ros::Timer created by the node: the period between ticks, in seconds. */
  datatype Timer = Timer(period: real)

  /** The parameters the node reads from the parameter server at start-up. */
  datatype Config = Config(
    voxelSize: real, sdfTrunc: real, spaceCarving: bool,
    pclTopic: string, preprocess: bool, applyPose: bool, minRange: real, maxRange: real,
    fillHoles: bool, minWeight: real,
    savePublishWaitTime: real, savePath: string,
    timestampToleranceNs: int32)

  /**
   * The points Integrate hands to the volume for a scan pcd once the transform
   * t has been found. The cloud converted is pcd_out, which is assigned only
   * when the pose is applied and otherwise stays a default-constructed, empty
   * cloud.
   */
  function IngestedScan(processing: CloudProcessing, doTransform: (PointCloud2, TransformStamped) -> PointCloud2,
                        pcd: PointCloud2, t: TransformStamped): seq<Vec3>
  {
    var pcdOut := if processing.applyPose then doTransform(pcd, t) else EmptyCloud;
    var scan := PointsOf(pcdOut);
    if processing.preprocess then RangeFiltered(scan, processing.minRange, processing.maxRange) else scan
  }

  /** With apply_pose off, the scan handed to the volume has no points at all. */
  lemma SensorFrameScanIsEmpty(processing: CloudProcessing, doTransform: (PointCloud2, TransformStamped) -> PointCloud2,
                               pcd: PointCloud2, t: TransformStamped)
    requires !processing.applyPose
    ensures IngestedScan(processing, doTransform, pcd, t) == []
  {
  }

  /**
   * With apply_pose on, the scan handed to the volume is the transformed cloud,
   * or, with preprocess on, its in-range points in their original order.
   */
  lemma TransformedScan(processing: CloudProcessing, doTransform: (PointCloud2, TransformStamped) -> PointCloud2,
                        pcd: PointCloud2, t: TransformStamped)
    requires processing.applyPose
    ensures var scan, cloud := IngestedScan(processing, doTransform, pcd, t), doTransform(pcd, t).points;
            && (!processing.preprocess ==> scan == cloud)
            && (processing.preprocess ==>
                  scan == RangeFiltered(cloud, processing.minRange, processing.maxRange)
                  && IsSubsequence(scan, cloud)
                  && (forall p :: multiset(scan)[p]
                                  == if InRange(p, processing.minRange, processing.maxRange) then multiset(cloud)[p] else 0)
                  && forall p :: p in scan <==> p in cloud && InRange(p, processing.minRange, processing.maxRange))
  {
    var cloud := doTransform(pcd, t).points;
    if processing.preprocess {
      RangeFilteredIsSubsequence(cloud, processing.minRange, processing.maxRange);
      var scan := RangeFiltered(cloud, processing.minRange, processing.maxRange);
      forall p
        ensures p in scan <==> p in cloud && InRange(p, processing.minRange, processing.maxRange)
        ensures multiset(scan)[p]
                == if InRange(p, processing.minRange, processing.maxRange) then multiset(cloud)[p] else 0
      {
        RangeFilteredMembers(cloud, processing.minRange, processing.maxRange, p);
        RangeFilteredCounts(cloud, processing.minRange, processing.maxRange, p);
      }
    }
  }

  /** The vertex list of the mesh message: one geometry_msgs::Point per vertex. */
  function MessageVertices(vertices: seq<Vec3>): seq<GeoPoint>
  {
    if vertices == [] then []
    else MessageVertices(vertices[..|vertices| - 1]) + [ToGeoPoint(vertices[|vertices| - 1])]
  }

  /** The face list of the mesh message: one index triple per triangle. */
  function MessageFaces(triangles: seq<Vec3i>): seq<TriangleIndices>
  {
    if triangles == [] then []
    else MessageFaces(triangles[..|triangles| - 1]) + [ToTriangleIndices(triangles[|triangles| - 1])]
  }

  /** The vertex list copies every vertex, in order. */
  lemma {:induction false} MessageVerticesCopy(vertices: seq<Vec3>)
    ensures |MessageVertices(vertices)| == |vertices|
    ensures forall k :: 0 <= k < |vertices| ==>
              MessageVertices(vertices)[k] == GeoPoint(vertices[k].x, vertices[k].y, vertices[k].z)
  {
    if vertices != [] {
      MessageVerticesCopy(vertices[..|vertices| - 1]);
    }
  }

  /** The face list copies every triangle's indices, in order; indices that are not negative keep their value. */
  lemma {:induction false} MessageFacesCopy(triangles: seq<Vec3i>)
    ensures |MessageFaces(triangles)| == |triangles|
    ensures forall k :: 0 <= k < |triangles| ==>
              MessageFaces(triangles)[k] == ToTriangleIndices(triangles[k])
    ensures forall k :: 0 <= k < |triangles| && triangles[k].i0 >= 0 && triangles[k].i1 >= 0 && triangles[k].i2 >= 0 ==>
              var f := MessageFaces(triangles)[k];
              f.v0 as int == triangles[k].i0 as int && f.v1 as int == triangles[k].i1 as int
              && f.v2 as int == triangles[k].i2 as int
  {
    if triangles != [] {
      MessageFacesCopy(triangles[..|triangles| - 1]);
    }
  }

  /** The mesh_msgs::MeshGeometryStamped the node fills for a mesh at time now. */
  function MeshMessage(mesh: TriangleMesh, now: Time): MeshGeometryStamped
  {
    MeshGeometryStamped(Header("map", now), "uuid",
                        MeshGeometry(MessageVertices(mesh.vertices), MessageFaces(mesh.triangles)))
  }

  /** The effects of one export to path of a volume grid whose extracted mesh is mesh. */
  ghost function ExportEvents(path: string, grid: Volume, mesh: TriangleMesh, now: Time): seq<Event>
  {
    [GridWritten(path + "_grid.vdb", grid), MeshWritten(path + "_mesh.ply", mesh.vertices, mesh.triangles)]
    + (if |mesh.vertices| > 0 then [MeshPublished(MeshMessage(mesh, now))] else [])
  }

  /**
   * An export always writes the grid file and then the mesh file, and publishes
   * exactly when the mesh has a vertex; the published message carries every
   * vertex and every triangle, in order.
   */
  lemma ExportEventsMeaning(path: string, grid: Volume, mesh: TriangleMesh, now: Time)
    ensures var events := ExportEvents(path, grid, mesh, now);
            && |events| == (if |mesh.vertices| > 0 then 3 else 2)
            && events[0] == GridWritten(path + "_grid.vdb", grid)
            && events[1] == MeshWritten(path + "_mesh.ply", mesh.vertices, mesh.triangles)
            && ((exists k :: 0 <= k < |events| && events[k].MeshPublished?) <==> |mesh.vertices| > 0)
            && forall k :: 0 <= k < |events| && events[k].MeshPublished? ==>
                 var g := events[k].message.meshGeometry;
                 && events[k].message.header.frameId == "map"
                 && |g.vertices| == |mesh.vertices| && |g.faces| == |mesh.triangles|
                 && (forall i :: 0 <= i < |g.vertices| ==> g.vertices[i] == ToGeoPoint(mesh.vertices[i]))
                 && (forall i :: 0 <= i < |g.faces| ==> g.faces[i] == ToTriangleIndices(mesh.triangles[i]))
  {
    var events := ExportEvents(path, grid, mesh, now);
    MessageVerticesCopy(mesh.vertices);
    MessageFacesCopy(mesh.triangles);
    if |mesh.vertices| > 0 {
      assert events[2].MeshPublished?;
    }
  }

  /**
   * The vertex loop of the export: row i of the matrix written to the PLY file
   * and point i of the mesh message both come from vertex i.
   */
  method FillVertexData(vertices: seq<Vec3>) returns (v: array<Vec3>, messageVertices: seq<GeoPoint>)
    ensures fresh(v)
    ensures v[..] == vertices
    ensures messageVertices == MessageVertices(vertices)
  {
    messageVertices := [];
    v := new Vec3[|vertices|];
    var i := 0;
    while i < |vertices|
      invariant 0 <= i <= |vertices|
      invariant v[..i] == vertices[..i]
      invariant messageVertices == MessageVertices(vertices[..i])
    {
      v[i] := vertices[i];
      messageVertices := messageVertices + [ToGeoPoint(vertices[i])];
      assert vertices[..i + 1][..i] == vertices[..i];
      i := i + 1;
    }
    assert v[..] == v[..i] && vertices[..i] == vertices;
  }

  /**
   * The triangle loop of the export: row i of the face matrix written to the
   * PLY file and face i of the mesh message both come from triangle i.
   */
  method FillFaceData(triangles: seq<Vec3i>) returns (f: array<Vec3i>, messageFaces: seq<TriangleIndices>)
    ensures fresh(f)
    ensures f[..] == triangles
    ensures messageFaces == MessageFaces(triangles)
  {
    messageFaces := [];
    f := new Vec3i[|triangles|];
    var i := 0;
    while i < |triangles|
      invariant 0 <= i <= |triangles|
      invariant f[..i] == triangles[..i]
      invariant messageFaces == MessageFaces(triangles[..i])
    {
      f[i] := triangles[i];
      messageFaces := messageFaces + [ToTriangleIndices(triangles[i])];
      assert triangles[..i + 1][..i] == triangles[..i];
      i := i + 1;
    }
    assert f[..] == f[..i] && triangles[..i] == triangles;
  }

  class VdbVolumeNode {
    const processing: CloudProcessing
    const extraction: MeshExtraction
    const timestampTolerance: Duration
    const savePublishWaitTime: real
    const savePath: string
    /** The periodic export timer; None when the node only exports on request. */
    const serviceTimer: Option<Timer>
    const doTransform: (PointCloud2, TransformStamped) -> PointCloud2
    const extractTriangleMesh: (Volume, bool, real) -> TriangleMesh

    var volume: Volume
    /** Files written and messages published, oldest first. */
    ghost var trace: seq<Event>

    /** The mesh an export extracts from the current volume. */
    ghost function CurrentMesh(): TriangleMesh
      reads this
    {
      extractTriangleMesh(volume, extraction.fillHoles, extraction.minWeight)
    }

    /**
     * Builds the node from its parameters. The periodic export timer is armed
     * exactly when save_publish_wait_time is positive, with that period.
     */
    constructor (config: Config,
                 doTransform: (PointCloud2, TransformStamped) -> PointCloud2,
                 extractTriangleMesh: (Volume, bool, real) -> TriangleMesh)
      ensures volume == Volume(config.voxelSize, config.sdfTrunc, config.spaceCarving, [])
      ensures processing == CloudProcessing(config.preprocess, config.applyPose, config.minRange, config.maxRange)
      ensures extraction == MeshExtraction(config.fillHoles, config.minWeight)
      ensures timestampTolerance == Duration(config.timestampToleranceNs as int)
      ensures savePublishWaitTime == config.savePublishWaitTime && savePath == config.savePath
      ensures serviceTimer.Some? <==> config.savePublishWaitTime > 0.0
      ensures serviceTimer.Some? ==> serviceTimer.value.period == config.savePublishWaitTime
      ensures this.doTransform == doTransform && this.extractTriangleMesh == extractTriangleMesh
      ensures trace == []
    {
      volume := Volume(config.voxelSize, config.sdfTrunc, config.spaceCarving, []);
      processing := CloudProcessing(config.preprocess, config.applyPose, config.minRange, config.maxRange);
      extraction := MeshExtraction(config.fillHoles, config.minWeight);
      savePublishWaitTime := config.savePublishWaitTime;
      savePath := config.savePath;
      timestampTolerance := Duration(config.timestampToleranceNs as int);
      this.doTransform := doTransform;
      this.extractTriangleMesh := extractTriangleMesh;
      trace := [];
      if config.savePublishWaitTime > 0.0 {
        serviceTimer := Some(Timer(config.savePublishWaitTime));
      } else {
        serviceTimer := None;
      }
    }

    /**
     * The subscriber callback for one scan. Without a transform within the
     * tolerance the volume is left as it is; with one, exactly one integration
     * is added, with the transform's translation as origin and weight 1.0.
     */
    method Integrate(pcd: PointCloud2, lookUpTransform: (Time, Duration) -> Option<TransformStamped>)
      modifies this`volume
      ensures lookUpTransform(pcd.header.stamp, timestampTolerance).None? ==> volume == old(volume)
      ensures lookUpTransform(pcd.header.stamp, timestampTolerance).Some? ==>
                var t := lookUpTransform(pcd.header.stamp, timestampTolerance).value;
                var origin := Vec3(t.transform.translation.x, t.transform.translation.y, t.transform.translation.z);
                && volume.(integrations := old(volume.integrations)) == old(volume)
                && |volume.integrations| == |old(volume.integrations)| + 1
                && volume.integrations[..|old(volume.integrations)|] == old(volume.integrations)
                && volume.integrations[|old(volume.integrations)|].points == IngestedScan(processing, doTransform, pcd, t)
                && volume.integrations[|old(volume.integrations)|].origin == origin
                && forall w :: volume.integrations[|old(volume.integrations)|].weighting(w) == 1.0
    {
      var pcdOut := EmptyCloud;
      var found := lookUpTransform(pcd.header.stamp, timestampTolerance);
      if found.Some? {
        var transform := found.value;
        if processing.applyPose {
          pcdOut := doTransform(pcd, transform);
        }
        var cloud := PointsOf(pcdOut);
        var scan := new Vec3[|cloud|](i requires 0 <= i < |cloud| => cloud[i]);
        var size := scan.Length;
        assert scan[..size] == cloud;
        if processing.preprocess {
          size := PreProcessCloud(scan, size, processing.minRange, processing.maxRange);
        }
        assert scan[..size] == IngestedScan(processing, doTransform, pcd, transform);
        var translation := transform.transform.translation;
        var origin := Vec3(translation.x, translation.y, translation.z);
        volume := volume.Integrate(scan[..size], origin, UnitWeight);
      }
    }

    /**
     * The save_vdb_volume service: writes path_grid.vdb, extracts the mesh,
     * copies it into the matrices written to path_mesh.ply and into the mesh
     * message, publishes the message when the mesh has a vertex, and answers
     * true. The volume is only read.
     */
    method SaveVdbVolume(path: string, now: Time) returns (ok: bool)
      modifies this`trace
      ensures ok
      ensures trace == old(trace) + ExportEvents(path, volume, CurrentMesh(), now)
    {
      trace := trace + [GridWritten(path + "_grid.vdb", volume)];

      var mesh := extractTriangleMesh(volume, extraction.fillHoles, extraction.minWeight);
      var vertices, triangles := mesh.vertices, mesh.triangles;

      var v, messageVertices := FillVertexData(vertices);
      var f, messageFaces := FillFaceData(triangles);
      trace := trace + [MeshWritten(path + "_mesh.ply", v[..], f[..])];
      assert trace == old(trace) + ExportEvents(path, volume, mesh, now)[..2];

      if |vertices| > 0 {
        var message := MeshGeometryStamped(Header("map", now), "uuid", MeshGeometry(messageVertices, messageFaces));
        assert message == MeshMessage(mesh, now);
        trace := trace + [MeshPublished(message)];
      }
      ok := true;
    }

    /** A tick of the periodic timer: an export to the configured save path. */
    method TimerCallback(now: Time)
      requires serviceTimer.Some?
      modifies this`trace
      ensures trace == old(trace) + ExportEvents(savePath, volume, CurrentMesh(), now)
    {
      var _ := SaveVdbVolume(savePath, now);
    }
  }
}
