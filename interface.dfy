/** The wrapper's bookkeeping around the ORB-SLAM3 engine (`ORBSLAM3Interface`): an IMU FIFO,
    the id → keyframe index, the map → reference-pose table, the last tracked pose and the
    `hasTracked_` flag, and the operations that update and read them. The engine, the atlas
    it exposes and image decoding are inputs: an `EngineStep` with what the engine reported,
    an `Atlas` snapshot as it stands when the operation runs (after the engine call for the
    tracking operations, at the time of the read for the publishing ones), and decode-success
    flags. */
module Interface {
  import opened Rigid
  import opened Snapshot
  import opened Resolution
  import opened KeyOrder

  /** One `sensor_msgs::msg::Imu` as buffered: stamp (nanoseconds), acceleration, angular velocity. */
  datatype ImuSample = ImuSample(stamp: int, acc: Vec, gyr: Vec)

  /** The engine's integer tracking-state codes as named states. */
  datatype TrackingState = NoImagesYet | NotInitialized | Ok | Lost | Unlisted(code: int)

  function CodeOf(s: TrackingState): int
  {
    match s
    case NoImagesYet => 0
    case NotInitialized => 1
    case Ok => 2
    case Lost => 3
    case Unlisted(c) => c
  }

  /** Reading a code never loses it, and only code 2 reads as `Ok`. */
  function StateOfCode(code: int): (s: TrackingState)
    ensures CodeOf(s) == code
    ensures s.Ok? <==> code == 2
    ensures s.Unlisted? <==> !(0 <= code <= 3)
  {
    if code == 0 then NoImagesYet
    else if code == 1 then NotInitialized
    else if code == 2 then Ok
    else if code == 3 then Lost
    else Unlisted(code)
  }

  /** What the engine reports for one frame: `Tcw` from `TrackRGBD`, `GetTrackingState()` and
      `GetLoopClosing()->mergeDetected()`. */
  datatype EngineStep = EngineStep(tcw: Pose, stateCode: int, merge: bool)

  /** Which way a tracking step went; the source reports these on the console and returns
      `true` only for `Tracked`. */
  datatype TrackStatus =
    | DecodeFailedRgb
    | DecodeFailedDepth
    | ImuNotSynced
    | MergeInProgress
    | Tracked
    | TrackingFailed(state: TrackingState)

  /** `geometry_msgs::msg::PoseStamped`: frame id, stamp (nanoseconds) and pose. */
  datatype PoseStamped = PoseStamped(frameId: string, stamp: int, pose: Pose)

  /** `slam_msgs::msg::MapGraph`: the parallel `poses` and `poses_id` sequences. */
  datatype MapGraph = MapGraph(poses: seq<PoseStamped>, posesId: seq<nat>)

  newtype int32 = x: int | -0x8000_0000 <= x < 0x8000_0000

  /** `slam_msgs::msg::KeyFrame`: the requested id and the keyframe's world points. */
  datatype KeyFrameNode = KeyFrameNode(id: int32, wordPts: seq<Vec>)

  /** `slam_msgs::msg::MapData`: header frame id, pose graph and keyframe nodes. */
  datatype MapData = MapData(frameId: string, graph: MapGraph, nodes: seq<KeyFrameNode>)

  /** The part of `nav_msgs::msg::Odometry` that is read: header stamp and pose. */
  datatype Odometry = Odometry(stamp: int, pose: Pose)

  /** `geometry_msgs::msg::TransformStamped`. */
  datatype TransformStamped = TransformStamped(stamp: int, frameId: string, childFrameId: string, transform: Pose)

  /** `rclcpp::Duration::from_seconds(0.5)`, in nanoseconds. */
  const TransformTimeout: int := 500_000_000

  function Min(a: int, b: int): int { if a <= b then a else b }

  /** `std::map<long unsigned int, ...>::find(kFId)` converts the `int` id to the unsigned key. */
  function AsKey(k: int32): nat
  {
    if k >= 0 then k as int else k as int + 0x1_0000_0000_0000_0000
  }

  /** Length of the longest prefix of the FIFO whose stamps are at most `limit`: the samples
      the drain loop collects. */
  function SyncedPrefixLength(buf: seq<ImuSample>, limit: int): (n: nat)
    ensures n <= |buf|
    ensures forall i :: 0 <= i < n ==> buf[i].stamp <= limit
    ensures n < |buf| ==> buf[n].stamp > limit
  {
    if buf == [] || buf[0].stamp > limit then 0
    else 1 + SyncedPrefixLength(buf[1..], limit)
  }

  /** A sample pushed at the back by `handleIMU` does not change what the next drain collects
      once a sample later than `limit` is already waiting. */
  lemma {:induction false} SyncedPrefixUnaffectedByPush(buf: seq<ImuSample>, msg: ImuSample, limit: int)
    requires SyncedPrefixLength(buf, limit) < |buf|
    ensures SyncedPrefixLength(buf + [msg], limit) == SyncedPrefixLength(buf, limit)
  {
    if buf[0].stamp <= limit {
      assert (buf + [msg])[1..] == buf[1..] + [msg];
      SyncedPrefixUnaffectedByPush(buf[1..], msg, limit);
    }
  }

  /** World positions of the points that are not `isBad()`, in the keyframe's order. */
  function ProjectPoints(ref: Pose, pts: seq<MapPoint>): (r: seq<Vec>)
    ensures |r| <= |pts|
    ensures forall v :: v in r ==> exists p :: p in pts && !p.bad && v == Apply(ref, p.pos)
    ensures forall p :: p in pts && !p.bad ==> Apply(ref, p.pos) in r
  {
    if pts == [] then []
    else
      var init, last := pts[..|pts| - 1], pts[|pts| - 1];
      assert pts == init + [last];
      ProjectPoints(ref, init) + (if last.bad then [] else [Apply(ref, last.pos)])
  }

  /** Extending the points by one adds that point's world position unless it is bad. */
  lemma ProjectPointsStep(ref: Pose, pts: seq<MapPoint>, i: nat)
    requires i < |pts|
    ensures ProjectPoints(ref, pts[..i + 1])
         == ProjectPoints(ref, pts[..i]) + (if pts[i].bad then [] else [Apply(ref, pts[i].pos)])
  {
    assert pts[..i + 1][..i] == pts[..i];
  }

  /** Reference poses are known for the map of every keyframe in the index. */
  predicate IndexResolved(allKFs: map<nat, KeyFrame>, refPoses: map<nat, Pose>)
  {
    forall k :: k in allKFs ==> allKFs[k].mapId in refPoses
  }

  /** The node `mapDataToMsg` pushes for a requested id that is in the index. */
  function NodeOf(id: int32, allKFs: map<nat, KeyFrame>, refPoses: map<nat, Pose>): KeyFrameNode
    requires AsKey(id) in allKFs && IndexResolved(allKFs, refPoses)
  {
    var kf := allKFs[AsKey(id)];
    KeyFrameNode(id, ProjectPoints(refPoses[kf.mapId], kf.points))
  }

  /** The nodes for the requested ids: one per id present in the index, in request order,
      absent ids skipped. */
  function NodesFor(ids: seq<int32>, allKFs: map<nat, KeyFrame>, refPoses: map<nat, Pose>): (r: seq<KeyFrameNode>)
    requires IndexResolved(allKFs, refPoses)
    ensures |r| <= |ids|
    ensures forall n :: n in r ==> n.id in ids && AsKey(n.id) in allKFs && n == NodeOf(n.id, allKFs, refPoses)
    ensures forall i :: 0 <= i < |ids| && AsKey(ids[i]) in allKFs ==> NodeOf(ids[i], allKFs, refPoses) in r
  {
    if ids == [] then []
    else
      var init, last := ids[..|ids| - 1], ids[|ids| - 1];
      assert ids == init + [last];
      NodesFor(init, allKFs, refPoses)
        + (if AsKey(last) in allKFs then [NodeOf(last, allKFs, refPoses)] else [])
  }

  /** Every entry of the index is filed under its own keyframe id, as `makeKFIdPair` files them. */
  predicate KeyedById(allKFs: map<nat, KeyFrame>)
  {
    forall k :: k in allKFs ==> allKFs[k].id == k
  }

  /** When every entry is filed under its own id, the ids read off the entries at the given
      keys are the keys themselves. */
  lemma PushedIdsAreKeys(allKFs: map<nat, KeyFrame>, keys: seq<nat>, ids: seq<nat>)
    requires |ids| == |keys|
    requires forall i :: 0 <= i < |keys| ==> keys[i] in allKFs && ids[i] == allKFs[keys[i]].id
    ensures KeyedById(allKFs) ==> ids == keys
  {
  }

  /** Every keyframe of the list is in the index and its indexed map has a reference pose. */
  predicate KeyFramesIndexed(kfs: seq<KeyFrame>, allKFs: map<nat, KeyFrame>, refPoses: map<nat, Pose>)
  {
    forall kf :: kf in kfs ==> kf.id in allKFs && allKFs[kf.id].mapId in refPoses
  }

  /** The good points of the listed keyframes, each projected with the reference pose of the
      map that the index (not the keyframe itself) names for it. */
  function CloudOf(kfs: seq<KeyFrame>, allKFs: map<nat, KeyFrame>, refPoses: map<nat, Pose>): (r: seq<Vec>)
    requires KeyFramesIndexed(kfs, allKFs, refPoses)
    ensures forall kf, p :: kf in kfs && p in kf.points && !p.bad ==>
      Apply(refPoses[allKFs[kf.id].mapId], p.pos) in r
    ensures forall v :: v in r ==> exists kf, p :: (kf in kfs && p in kf.points && !p.bad
                                                    && v == Apply(refPoses[allKFs[kf.id].mapId], p.pos))
  {
    if kfs == [] then []
    else
      var init, last := kfs[..|kfs| - 1], kfs[|kfs| - 1];
      assert kfs == init + [last];
      CloudOf(init, allKFs, refPoses) + ProjectPoints(refPoses[allKFs[last.id].mapId], last.points)
  }

  /** A keyframe's pose in the world frame, stamped as the pose graph carries it. */
  function GraphEntry(frame: string, refPoses: map<nat, Pose>, kf: KeyFrame): PoseStamped
    requires kf.mapId in refPoses
  {
    PoseStamped(frame, kf.stamp, Compose(refPoses[kf.mapId], kf.pose))
  }

  /** What the read side needs of the tables: every indexed keyframe's map has a reference
      pose, every entry is filed under its own id, and the current map's keyframes are indexed
      and have reference poses for the map they name and for the map the index names. */
  predicate ReadyToPublish(atlas: Atlas, allKFs: map<nat, KeyFrame>, refPoses: map<nat, Pose>)
  {
    && IndexResolved(allKFs, refPoses)
    && KeyedById(allKFs)
    && KeyFramesIndexed(atlas.current.keyFrames, allKFs, refPoses)
    && forall kf :: kf in atlas.current.keyFrames ==> kf.mapId in refPoses
  }

  /** For a well-formed snapshot whose current map is one of its maps, the tables that
      `calculateReferencePoses` builds serve every read that `getOptimizedPoseGraph`,
      `mapDataToMsg` and `getCurrentMapPoints` make. */
  lemma ResolvedTablesReadyToPublish(atlas: Atlas, robotX: real, robotY: real)
    requires Resolvable(atlas) && WellFormed(atlas) && atlas.current in atlas.maps
    ensures ReadyToPublish(atlas, KeyFrameIndex(atlas), ReferencePoses(atlas, robotX, robotY))
  {
    var s, idx, t := VisitOrder(atlas), KeyFrameIndex(atlas), ReferencePoses(atlas, robotX, robotY);
    IndexEntriesBelongToMaps(s);
    ReferencePosesCover(atlas, robotX, robotY);
    SortKeepsMaps(atlas.maps);
    forall k | k in idx ensures idx[k].mapId in t {
      var m :| m in s && idx[k] in m.keyFrames;
      assert m in atlas.maps;
    }
    forall kf | kf in atlas.current.keyFrames ensures kf.id in idx && kf.mapId in t {
      assert kf in Flatten(s);
      assert kf.id in Ids(Flatten(s));
    }
  }

  class OrbSlam3Interface {
    const robotX: real
    const robotY: real
    const globalFrame: string
    const odomFrame: string

    /** `imuBuf_`: the inertial FIFO, front first. */
    var imuBuf: seq<ImuSample>
    /** `allKFs_`: keyframe id → keyframe. */
    var allKFs: map<nat, KeyFrame>
    /** `mapReferencePoses_`: map id → reference pose. */
    var mapReferencePoses: map<nat, Pose>
    /** `latestTrackedPose_`. */
    var latestTrackedPose: Pose
    /** `hasTracked_`. */
    var hasTracked: bool
    /** Whether `orbAtlas_` has been set; only `trackRGBDi` sets it, and every read of the
        atlas (`GetAllMaps`, `GetCurrentMap`, `GetAllKeyFrames`) goes through it. */
    var atlasRead: bool

    /** Engine startup is not modelled; the state starts empty. */
    constructor (robotX: real, robotY: real, globalFrame: string, odomFrame: string)
      ensures this.robotX == robotX && this.robotY == robotY
      ensures this.globalFrame == globalFrame && this.odomFrame == odomFrame
      ensures imuBuf == [] && allKFs == map[] && mapReferencePoses == map[] && !hasTracked && !atlasRead
    {
      this.robotX, this.robotY := robotX, robotY;
      this.globalFrame, this.odomFrame := globalFrame, odomFrame;
      imuBuf := [];
      allKFs := map[];
      mapReferencePoses := map[];
      latestTrackedPose := Identity;
      hasTracked := false;
      atlasRead := false;
    }

    /** What tracking publishes: left alone by every step that does not track. */
    ghost function Published(): (Pose, bool, map<nat, Pose>, map<nat, KeyFrame>)
      reads this
    {
      (latestTrackedPose, hasTracked, mapReferencePoses, allKFs)
    }

    /** `makeKFIdPair`: flattens the keyframes of every listed map into an id-keyed index. */
    static method MakeKFIdPair(mapsList: seq<SlamMap>) returns (idx: map<nat, KeyFrame>)
      ensures idx == IndexOf(Flatten(mapsList))
      ensures idx.Keys == Ids(Flatten(mapsList))
      ensures forall k :: k in idx ==> idx[k].id == k
    {
      idx := map[];
      var i := 0;
      while i < |mapsList|
        invariant i <= |mapsList|
        invariant idx == IndexOf(Flatten(mapsList[..i]))
      {
        var kfs := mapsList[i].keyFrames;
        ghost var done := Flatten(mapsList[..i]);
        var j := 0;
        assert done + kfs[..j] == done;
        while j < |kfs|
          invariant j <= |kfs|
          invariant idx == IndexOf(done + kfs[..j])
        {
          assert done + kfs[..j + 1] == (done + kfs[..j]) + [kfs[j]];
          IndexOfPush(done + kfs[..j], kfs[j]);
          idx := idx[kfs[j].id := kfs[j]];
          j := j + 1;
        }
        assert kfs[..j] == kfs;
        FlattenPush(mapsList, i);
        i := i + 1;
      }
      assert mapsList[..i] == mapsList;
      IndexEntriesBelongToMaps(mapsList);
    }

    /** `calculateReferencePoses`: clears the table, sorts the maps by init keyframe id,
        rebuilds `allKFs_` from them and resolves every map in that order. The new state is a
        function of the snapshot alone, so a second call on the same snapshot changes nothing. */
    method CalculateReferencePoses(atlas: Atlas)
      requires atlasRead && Resolvable(atlas)
      modifies this`mapReferencePoses, this`allKFs
      ensures mapReferencePoses == ReferencePoses(atlas, robotX, robotY)
      ensures allKFs == KeyFrameIndex(atlas) && KeyedById(allKFs)
      ensures WellFormed(atlas) && atlas.current in atlas.maps ==> ReadyToPublish(atlas, allKFs, mapReferencePoses)
    {
      mapReferencePoses := map[];
      var mapsList := SortByInitId(atlas.maps);
      allKFs := MakeKFIdPair(mapsList);
      assert mapsList == VisitOrder(atlas) && allKFs == KeyFrameIndex(atlas);
      ghost var offset := Offset(robotX, robotY);
      var c := 0;
      while c < |mapsList|
        invariant c <= |mapsList|
        invariant allKFs == KeyFrameIndex(atlas)
        invariant mapReferencePoses == ResolvePrefix(mapsList, allKFs, offset, c)
      {
        ResolveStep(mapsList, allKFs, offset, c);
        if mapsList[c].initKFid == 0 {
          var poseWithoutOffset := mapsList[c].origin.pose;
          var poseOffset := Offset(robotX, robotY);
          mapReferencePoses := mapReferencePoses[mapsList[c].id := Compose(poseOffset, poseWithoutOffset)];
        } else {
          var parentKF := allKFs[mapsList[c].initKFid - 1];
          mapReferencePoses := mapReferencePoses[mapsList[c].id := Compose(mapReferencePoses[parentKF.mapId], parentKF.pose)];
        }
        c := c + 1;
      }
      if WellFormed(atlas) && atlas.current in atlas.maps {
        ResolvedTablesReadyToPublish(atlas, robotX, robotY);
      }
    }

    /** `correctTrackedPose`: the engine's pose, carried into the world frame by the current
        map's reference pose. */
    method CorrectTrackedPose(atlas: Atlas, tcw: Pose)
      requires atlasRead && atlas.current.id in mapReferencePoses
      modifies this`latestTrackedPose
      ensures latestTrackedPose == Compose(mapReferencePoses[atlas.current.id], tcw)
      ensures forall p :: Apply(latestTrackedPose, p) == Apply(mapReferencePoses[atlas.current.id], Apply(tcw, p))
    {
      latestTrackedPose := Compose(mapReferencePoses[atlas.current.id], tcw);
      forall p ensures Apply(latestTrackedPose, p) == Apply(mapReferencePoses[atlas.current.id], Apply(tcw, p)) {
        ApplyCompose(mapReferencePoses[atlas.current.id], tcw, p);
      }
    }

    /** `handleIMU`: appends at the back of the FIFO. */
    method HandleImu(msg: ImuSample)
      modifies this`imuBuf
      ensures imuBuf == old(imuBuf) + [msg]
    {
      imuBuf := imuBuf + [msg];
    }

    /** The drain loop of `trackRGBDi`: pops from the front while the front sample is not
        later than `limit`, collecting in FIFO order. */
    method DrainImu(limit: int) returns (vImuMeas: seq<ImuSample>)
      modifies this`imuBuf
      ensures |vImuMeas| == SyncedPrefixLength(old(imuBuf), limit)
      ensures vImuMeas == old(imuBuf)[..|vImuMeas|]
      ensures imuBuf == old(imuBuf)[|vImuMeas|..]
    {
      vImuMeas := [];
      if imuBuf != [] {
        while imuBuf != [] && imuBuf[0].stamp <= limit
          invariant |vImuMeas| <= |old(imuBuf)|
          invariant vImuMeas == old(imuBuf)[..|vImuMeas|]
          invariant imuBuf == old(imuBuf)[|vImuMeas|..]
          invariant SyncedPrefixLength(old(imuBuf), limit) == |vImuMeas| + SyncedPrefixLength(imuBuf, limit)
          decreases |imuBuf|
        {
          vImuMeas := vImuMeas + [imuBuf[0]];
          imuBuf := imuBuf[1..];
        }
      }
    }

    /** What follows the engine call in both tracking paths: merge gating, then dispatch on
        the tracking state. `markTracked` is whether the path sets `hasTracked_`. */
    method HandleEngineStep(engine: EngineStep, atlas: Atlas, markTracked: bool) returns (status: TrackStatus)
      requires !engine.merge && engine.stateCode == 2 ==> atlasRead && Resolvable(atlas) && atlas.current in atlas.maps
      modifies this`allKFs, this`mapReferencePoses, this`latestTrackedPose, this`hasTracked
      ensures engine.merge ==> status == MergeInProgress && Published() == old(Published())
      ensures !engine.merge && engine.stateCode == 2 ==>
        && status == Tracked
        && mapReferencePoses == ReferencePoses(atlas, robotX, robotY)
        && allKFs == KeyFrameIndex(atlas)
        && atlas.current.id in mapReferencePoses
        && latestTrackedPose == Compose(mapReferencePoses[atlas.current.id], engine.tcw)
        && hasTracked == (old(hasTracked) || markTracked)
        && (WellFormed(atlas) ==> ReadyToPublish(atlas, allKFs, mapReferencePoses))
      ensures !engine.merge && engine.stateCode != 2 ==>
        status == TrackingFailed(StateOfCode(engine.stateCode)) && Published() == old(Published())
    {
      if engine.merge {
        return MergeInProgress;
      }
      var state := StateOfCode(engine.stateCode);
      if state == Ok {
        CalculateReferencePoses(atlas);
        ReferencePosesCover(atlas, robotX, robotY);
        CorrectTrackedPose(atlas, engine.tcw);
        if markTracked {
          hasTracked := true;
        }
        status := Tracked;
      } else {
        status := TrackingFailed(state);
      }
    }

    /** `trackRGBDi`: decode both images, drain the IMU FIFO up to the earlier image stamp,
        call the engine only if samples remain in the FIFO, then gate and dispatch. `engineInput`
        is what the engine was handed and `tcw` is the `Tcw` out-parameter. */
    method TrackRGBDi(rgbDecodes: bool, depthDecodes: bool, rgbStamp: int, depthStamp: int,
                      engine: EngineStep, atlas: Atlas, tcwIn: Pose)
      returns (ok: bool, status: TrackStatus, engineCalled: bool, engineInput: seq<ImuSample>, tcw: Pose)
      requires rgbDecodes && depthDecodes
        && SyncedPrefixLength(imuBuf, Min(rgbStamp, depthStamp)) < |imuBuf|
        && !engine.merge && engine.stateCode == 2
        ==> Resolvable(atlas) && atlas.current in atlas.maps
      modifies this`imuBuf, this`allKFs, this`mapReferencePoses, this`latestTrackedPose, this`hasTracked, this`atlasRead
      ensures atlasRead
      ensures ok <==> status == Tracked
      ensures !rgbDecodes ==> status == DecodeFailedRgb
      ensures rgbDecodes && !depthDecodes ==> status == DecodeFailedDepth
      ensures !(rgbDecodes && depthDecodes) ==>
        !engineCalled && imuBuf == old(imuBuf) && Published() == old(Published()) && tcw == tcwIn
      ensures rgbDecodes && depthDecodes ==>
        var n := SyncedPrefixLength(old(imuBuf), Min(rgbStamp, depthStamp));
        && imuBuf == old(imuBuf)[n..]
        && (engineCalled <==> n < |old(imuBuf)|)
        && (engineCalled ==> engineInput == old(imuBuf)[..n] && tcw == engine.tcw)
        && (!engineCalled ==> status == ImuNotSynced && Published() == old(Published()) && tcw == tcwIn)
      ensures engineCalled && engine.merge ==> status == MergeInProgress && Published() == old(Published())
      ensures engineCalled && !engine.merge && engine.stateCode == 2 ==>
        && status == Tracked && hasTracked
        && mapReferencePoses == ReferencePoses(atlas, robotX, robotY)
        && allKFs == KeyFrameIndex(atlas)
        && atlas.current.id in mapReferencePoses
        && latestTrackedPose == Compose(mapReferencePoses[atlas.current.id], engine.tcw)
        && (WellFormed(atlas) ==> ReadyToPublish(atlas, allKFs, mapReferencePoses))
      ensures engineCalled && !engine.merge && engine.stateCode != 2 ==>
        status == TrackingFailed(StateOfCode(engine.stateCode)) && Published() == old(Published())
    {
      atlasRead := true;
      engineCalled, engineInput, tcw := false, [], tcwIn;
      if !rgbDecodes {
        return false, DecodeFailedRgb, engineCalled, engineInput, tcw;
      }
      if !depthDecodes {
        return false, DecodeFailedDepth, engineCalled, engineInput, tcw;
      }
      var vImuMeas := DrainImu(Min(rgbStamp, depthStamp));
      if |imuBuf| > 0 {
        engineCalled, engineInput, tcw := true, vImuMeas, engine.tcw;
        status := HandleEngineStep(engine, atlas, true);
        ok := status == Tracked;
        return;
      }
      return false, ImuNotSynced, engineCalled, engineInput, tcw;
    }

    /** `trackRGBD`: the same without inertial data, and it never sets `hasTracked_`. */
    method TrackRGBD(rgbDecodes: bool, depthDecodes: bool, engine: EngineStep, atlas: Atlas, tcwIn: Pose)
      returns (ok: bool, status: TrackStatus, engineCalled: bool, tcw: Pose)
      requires rgbDecodes && depthDecodes && !engine.merge && engine.stateCode == 2
        ==> atlasRead && Resolvable(atlas) && atlas.current in atlas.maps
      modifies this`allKFs, this`mapReferencePoses, this`latestTrackedPose, this`hasTracked
      ensures ok <==> status == Tracked
      ensures hasTracked == old(hasTracked)
      ensures engineCalled <==> rgbDecodes && depthDecodes
      ensures tcw == if engineCalled then engine.tcw else tcwIn
      ensures !rgbDecodes ==> status == DecodeFailedRgb
      ensures rgbDecodes && !depthDecodes ==> status == DecodeFailedDepth
      ensures !engineCalled ==> Published() == old(Published())
      ensures engineCalled && engine.merge ==> status == MergeInProgress && Published() == old(Published())
      ensures engineCalled && !engine.merge && engine.stateCode == 2 ==>
        && status == Tracked
        && mapReferencePoses == ReferencePoses(atlas, robotX, robotY)
        && allKFs == KeyFrameIndex(atlas)
        && atlas.current.id in mapReferencePoses
        && latestTrackedPose == Compose(mapReferencePoses[atlas.current.id], engine.tcw)
        && (WellFormed(atlas) ==> ReadyToPublish(atlas, allKFs, mapReferencePoses))
      ensures engineCalled && !engine.merge && engine.stateCode != 2 ==>
        status == TrackingFailed(StateOfCode(engine.stateCode)) && Published() == old(Published())
    {
      engineCalled, tcw := false, tcwIn;
      if !rgbDecodes {
        return false, DecodeFailedRgb, engineCalled, tcw;
      }
      if !depthDecodes {
        return false, DecodeFailedDepth, engineCalled, tcw;
      }
      engineCalled, tcw := true, engine.tcw;
      status := HandleEngineStep(engine, atlas, false);
      ok := status == Tracked;
    }

    /** The appended entries are one per keyframe of the current map, in the engine's order. */
    ghost predicate AppendsCurrentMap(prior: MapGraph, g: MapGraph, kfs: seq<KeyFrame>)
      reads this
    {
      && (forall kf :: kf in kfs ==> kf.mapId in mapReferencePoses)
      && |prior.poses| <= |g.poses| && |prior.posesId| <= |g.posesId|
      && g.poses[..|prior.poses|] == prior.poses && g.posesId[..|prior.posesId|] == prior.posesId
      && var poses, ids := g.poses[|prior.poses|..], g.posesId[|prior.posesId|..];
         && |poses| == |kfs| && |ids| == |kfs|
         && forall i :: 0 <= i < |kfs| ==>
              ids[i] == kfs[i].id && poses[i] == GraphEntry(globalFrame, mapReferencePoses, kfs[i])
    }

    /** The appended entries are one per indexed keyframe, in ascending key order; when every
        entry is filed under its own id, the pushed ids are exactly the keys, ascending. */
    ghost predicate AppendsAllKeyFrames(prior: MapGraph, g: MapGraph)
      reads this
    {
      && IndexResolved(allKFs, mapReferencePoses)
      && |prior.poses| <= |g.poses| && |prior.posesId| <= |g.posesId|
      && g.poses[..|prior.poses|] == prior.poses && g.posesId[..|prior.posesId|] == prior.posesId
      && var poses, ids, keys := g.poses[|prior.poses|..], g.posesId[|prior.posesId|..], KeysInOrder(allKFs.Keys);
         && |poses| == |keys| && |ids| == |keys|
         && (forall i :: 0 <= i < |keys| ==>
              && keys[i] in allKFs && ids[i] == allKFs[keys[i]].id
              && poses[i] == GraphEntry(globalFrame, mapReferencePoses, allKFs[keys[i]]))
         && (KeyedById(allKFs) ==>
              && (forall i, j :: 0 <= i < j < |ids| ==> ids[i] < ids[j])
              && (forall k :: k in allKFs <==> k in ids))
    }

    /** `getOptimizedPoseGraph`: pushes a world pose and an id per keyframe, either for every
        keyframe of `allKFs_` in ascending id order or for the current map's keyframes. */
    method GetOptimizedPoseGraph(graph: MapGraph, currentMapKFOnly: bool, atlas: Atlas) returns (g: MapGraph)
      requires currentMapKFOnly ==> atlasRead && forall kf :: kf in atlas.current.keyFrames ==> kf.mapId in mapReferencePoses
      requires !currentMapKFOnly ==> IndexResolved(allKFs, mapReferencePoses)
      ensures currentMapKFOnly ==> AppendsCurrentMap(graph, g, atlas.current.keyFrames)
      ensures !currentMapKFOnly ==> AppendsAllKeyFrames(graph, g)
    {
      var poses: seq<PoseStamped>, ids: seq<nat>;
      if !currentMapKFOnly {
        poses, ids := AllKeyFrameEntries();
      } else {
        poses, ids := CurrentMapEntries(atlas.current.keyFrames);
      }
      g := MapGraph(graph.poses + poses, graph.posesId + ids);
      assert g.poses[|graph.poses|..] == poses && g.posesId[|graph.posesId|..] == ids;
      assert g.poses[..|graph.poses|] == graph.poses && g.posesId[..|graph.posesId|] == graph.posesId;
    }

    /** The all-keyframes branch of `getOptimizedPoseGraph`: one world pose and one id per
        entry of `allKFs_`, in ascending key order. */
    method AllKeyFrameEntries() returns (poses: seq<PoseStamped>, ids: seq<nat>)
      requires IndexResolved(allKFs, mapReferencePoses)
      ensures |poses| == |KeysInOrder(allKFs.Keys)| && |ids| == |KeysInOrder(allKFs.Keys)|
      ensures forall i :: 0 <= i < |ids| ==>
        var key := KeysInOrder(allKFs.Keys)[i];
        && key in allKFs && ids[i] == allKFs[key].id
        && poses[i] == GraphEntry(globalFrame, mapReferencePoses, allKFs[key])
      ensures KeyedById(allKFs) ==> forall i, j :: 0 <= i < j < |ids| ==> ids[i] < ids[j]
      ensures KeyedById(allKFs) ==> forall k :: k in allKFs <==> k in ids
    {
      var keys;
      keys, poses, ids := WalkIndex();
      KeysInOrderAscending(allKFs.Keys);
      PushedIdsAreKeys(allKFs, keys, ids);
    }

    /** The range-for over `allKFs_`: visits the keys in ascending order and pushes each
        keyframe's world pose and its own `mnId`. */
    method WalkIndex() returns (keys: seq<nat>, poses: seq<PoseStamped>, ids: seq<nat>)
      requires IndexResolved(allKFs, mapReferencePoses)
      ensures keys == KeysInOrder(allKFs.Keys)
      ensures |poses| == |keys| && |ids| == |keys|
      ensures forall i :: 0 <= i < |keys| ==>
        && keys[i] in allKFs && ids[i] == allKFs[keys[i]].id
        && poses[i] == GraphEntry(globalFrame, mapReferencePoses, allKFs[keys[i]])
    {
      keys, poses, ids := [], [], [];
      var rest := allKFs.Keys;
      while rest != {}
        invariant rest <= allKFs.Keys
        invariant keys + KeysInOrder(rest) == KeysInOrder(allKFs.Keys)
        invariant |poses| == |keys| && |ids| == |keys|
        invariant forall i :: 0 <= i < |keys| ==>
          && keys[i] in allKFs && ids[i] == allKFs[keys[i]].id
          && poses[i] == GraphEntry(globalFrame, mapReferencePoses, allKFs[keys[i]])
        decreases rest
      {
        LeastKeyExists(rest);
        var id :| id in rest && forall j :: j in rest ==> id <= j;
        KeysInOrderFromLeast(rest, id);
        var kf := allKFs[id];
        var kfPoseStamped := PoseStamped(globalFrame, kf.stamp, Compose(mapReferencePoses[kf.mapId], kf.pose));
        poses, ids := poses + [kfPoseStamped], ids + [kf.id];
        assert (keys + [id]) + KeysInOrder(rest - {id}) == keys + KeysInOrder(rest);
        keys := keys + [id];
        rest := rest - {id};
      }
    }

    /** The current-map branch of `getOptimizedPoseGraph`: the atlas' keyframes in its order. */
    method CurrentMapEntries(vKeyFrames: seq<KeyFrame>) returns (poses: seq<PoseStamped>, ids: seq<nat>)
      requires forall kf :: kf in vKeyFrames ==> kf.mapId in mapReferencePoses
      ensures |poses| == |vKeyFrames| && |ids| == |vKeyFrames|
      ensures forall j :: 0 <= j < |vKeyFrames| ==>
        ids[j] == vKeyFrames[j].id && poses[j] == GraphEntry(globalFrame, mapReferencePoses, vKeyFrames[j])
    {
      poses, ids := [], [];
      var i := 0;
      while i < |vKeyFrames|
        invariant i <= |vKeyFrames|
        invariant |poses| == |ids| == i
        invariant forall j :: 0 <= j < i ==>
          ids[j] == vKeyFrames[j].id && poses[j] == GraphEntry(globalFrame, mapReferencePoses, vKeyFrames[j])
      {
        var pKFcurr := vKeyFrames[i];
        var currReferencePose := mapReferencePoses[pKFcurr.mapId];
        var poseStamped := PoseStamped(globalFrame, pKFcurr.stamp, Compose(currReferencePose, pKFcurr.pose));
        poses, ids := poses + [poseStamped], ids + [pKFcurr.id];
        i := i + 1;
      }
    }

    /** `mapDataToMsg`: a fresh pose graph, the global frame in the header and, when asked,
        one node per requested id present in `allKFs_` with its good points in the world frame. */
    method MapDataToMsg(msg: MapData, currentMapKFOnly: bool, includeMapPoints: bool, kFIDforMapPoints: seq<int32>,
                        atlas: Atlas) returns (out: MapData)
      requires currentMapKFOnly ==> atlasRead && forall kf :: kf in atlas.current.keyFrames ==> kf.mapId in mapReferencePoses
      requires !currentMapKFOnly || includeMapPoints ==> IndexResolved(allKFs, mapReferencePoses)
      ensures out.frameId == globalFrame
      ensures currentMapKFOnly ==> AppendsCurrentMap(MapGraph([], []), out.graph, atlas.current.keyFrames)
      ensures !currentMapKFOnly ==> AppendsAllKeyFrames(MapGraph([], []), out.graph)
      ensures !includeMapPoints ==> out.nodes == msg.nodes
      ensures includeMapPoints ==> out.nodes == msg.nodes + NodesFor(kFIDforMapPoints, allKFs, mapReferencePoses)
    {
      var poseGraph := GetOptimizedPoseGraph(MapGraph([], []), currentMapKFOnly, atlas);
      out := MapData(globalFrame, poseGraph, msg.nodes);
      if includeMapPoints {
        var i := 0;
        while i < |kFIDforMapPoints|
          invariant i <= |kFIDforMapPoints|
          invariant out.frameId == globalFrame && out.graph == poseGraph
          invariant out.nodes == msg.nodes + NodesFor(kFIDforMapPoints[..i], allKFs, mapReferencePoses)
        {
          var kFId := kFIDforMapPoints[i];
          assert kFIDforMapPoints[..i + 1][..i] == kFIDforMapPoints[..i];
          if AsKey(kFId) in allKFs {
            var kf := allKFs[AsKey(kFId)];
            var wordPts := PushGoodPoints(mapReferencePoses[kf.mapId], kf.points);
            out := out.(nodes := out.nodes + [KeyFrameNode(kFId, wordPts)]);
          }
          i := i + 1;
        }
        assert kFIDforMapPoints[..i] == kFIDforMapPoints;
      }
    }

    /** The inner loop of the point builders: pushes the world position of every point that
        is not `isBad()`. */
    static method PushGoodPoints(ref: Pose, pts: seq<MapPoint>) returns (out: seq<Vec>)
      ensures out == ProjectPoints(ref, pts)
    {
      out := [];
      var i := 0;
      while i < |pts|
        invariant i <= |pts|
        invariant out == ProjectPoints(ref, pts[..i])
      {
        ProjectPointsStep(ref, pts, i);
        if !pts[i].bad {
          out := out + [Apply(ref, pts[i].pos)];
        }
        i := i + 1;
      }
      assert pts[..i] == pts;
    }

    /** `getCurrentMapPoints`: the good points of the current map's keyframes in the world frame. */
    method GetCurrentMapPoints(atlas: Atlas) returns (cloud: seq<Vec>)
      requires atlasRead && KeyFramesIndexed(atlas.current.keyFrames, allKFs, mapReferencePoses)
      ensures cloud == CloudOf(atlas.current.keyFrames, allKFs, mapReferencePoses)
    {
      var kfs := atlas.current.keyFrames;
      cloud := [];
      var i := 0;
      while i < |kfs|
        invariant i <= |kfs|
        invariant cloud == CloudOf(kfs[..i], allKFs, mapReferencePoses)
      {
        assert kfs[..i + 1][..i] == kfs[..i];
        var pts := PushGoodPoints(mapReferencePoses[allKFs[kfs[i].id].mapId], kfs[i].points);
        cloud := cloud + pts;
        i := i + 1;
      }
      assert kfs[..i] == kfs;
    }

    /** `getMapToOdomTF`: nothing before the first inertial track; afterwards the correction
        `latestTrackedPose ∘ odom⁻¹`, labelled global → odom and stamped half a second ahead. */
    method GetMapToOdomTF(msgOdom: Odometry, tf: TransformStamped) returns (out: TransformStamped)
      ensures !hasTracked ==> out == tf
      ensures hasTracked ==>
        && out.frameId == globalFrame && out.childFrameId == odomFrame
        && out.stamp == msgOdom.stamp + TransformTimeout
        && Compose(out.transform, msgOdom.pose) == latestTrackedPose
    {
      out := tf;
      if hasTracked {
        var tfMapOdom := Compose(latestTrackedPose, Inverse(msgOdom.pose));
        out := TransformStamped(msgOdom.stamp + TransformTimeout, globalFrame, odomFrame, tfMapOdom);
        ComposeAssociative(latestTrackedPose, Inverse(msgOdom.pose), msgOdom.pose);
        InverseCancels(msgOdom.pose);
        ComposeIdentity(latestTrackedPose);
      }
    }
  }
}
