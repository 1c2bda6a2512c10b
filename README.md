# ORB-SLAM3 ROS 2 wrapper interface, modelled in Dafny

This project models `ORBSLAM3Interface`, the bookkeeping layer that sits between ROS 2 and the
ORB-SLAM3 engine. It covers:

- the inertial FIFO that `handleIMU` fills and `trackRGBDi` drains up to the earlier of the two
  image stamps;
- the two tracking entry points `trackRGBDi` and `trackRGBD`. Each decodes its images, calls
  the engine, does nothing while a map merge is in progress, and on tracking state 2 rebuilds
  the reference poses and stores the corrected pose;
- `calculateReferencePoses`, which sorts the atlas maps by init keyframe id and rebuilds
  `allKFs_` through `makeKFIdPair`. It anchors each root map at the robot's start offset
  composed with its origin keyframe, and chains every other map to the map owning keyframe
  `initKFid - 1`;
- `correctTrackedPose`, which carries the engine's pose into the world frame;
- the read side: `getOptimizedPoseGraph`, `mapDataToMsg`, `getCurrentMapPoints` and
  `getMapToOdomTF`.

Layout:

- `rigid.dfy` (module `Rigid`): poses as an exact, non-commutative group of rigid transforms.
  Each pose is a whole number of quarter turns about z followed by a real translation, so the
  order of every composition is checked.
- `snapshot.dfy` (module `Snapshot`): the atlas snapshot (maps, keyframes, map points), the
  id → keyframe index, and the init-id sort.
- `resolution.dfy` (module `Resolution`): the reference-pose table as a function of the
  snapshot, with the root anchoring and the chaining equations proved of it.
- `keyorder.dfy` (module `KeyOrder`): the ascending key order in which a `std::map` is
  walked.
- `interface.dfy` (module `Interface`): the class `OrbSlam3Interface`. Its fields are
  `imuBuf_`, `allKFs_`, `mapReferencePoses_`, `latestTrackedPose_` and `hasTracked_`, plus
  `atlasRead`, which records whether `orbAtlas_` has been set. Its methods are the wrapper's
  operations, and each is proved against the functions above.

The following are inputs to the methods rather than calls:

- the engine's answer for a frame: `Tcw`, the tracking-state code and `mergeDetected()`;
- the atlas that `orbAtlas_` points to, as it stands when the method runs. Only `trackRGBDi`
  sets that pointer, so every method that reads the atlas through it requires `atlasRead`;
- whether each image decodes.

Stamps are integer nanoseconds.

## Model

| member | source | states |
|---|---|---|
| Snapshot.Flatten | orb_slam3_ros2_wrapper/src/orb_slam3_interface.cpp:48-56 | every keyframe of every listed map is visited, and nothing else is |
| Snapshot.IndexOfIsLastOccurrence | orb_slam3_ros2_wrapper/src/orb_slam3_interface.cpp:45-59 | the index has exactly the keyframe ids as keys; each entry is a listed keyframe with that id, namely the last one written |
| Snapshot.IndexEntriesBelongToMaps | orb_slam3_ros2_wrapper/src/orb_slam3_interface.cpp:45-59 | every index entry is filed under its own `mnId` and belongs to one of the listed maps |
| Interface.OrbSlam3Interface.MakeKFIdPair | orb_slam3_ros2_wrapper/src/orb_slam3_interface.cpp:45-59 | the nested loop builds exactly the last-write-wins index of the flattened keyframes; its keys are the keyframe ids and each entry carries its key |
| Snapshot.InsertByInitId | orb_slam3_ros2_wrapper/src/orb_slam3_interface.cpp:63-73 | inserting into a list sorted by init id keeps it sorted, adds one element, and adds nothing but the new map |
| Snapshot.InsertIsPermutation | orb_slam3_ros2_wrapper/src/orb_slam3_interface.cpp:73 | insertion adds exactly one copy of the map |
| Snapshot.SortByInitId | orb_slam3_ros2_wrapper/src/orb_slam3_interface.cpp:63-73 | the sorted list is in ascending `GetInitKFid()` order and has the same length |
| Snapshot.SortIsPermutation | orb_slam3_ros2_wrapper/src/orb_slam3_interface.cpp:73 | the sorted list is a permutation of `GetAllMaps()` |
| Snapshot.SortKeepsMaps | orb_slam3_ros2_wrapper/src/orb_slam3_interface.cpp:72-73 | sorting neither adds nor drops a map |
| Snapshot.InsertKeepsDistinctIds | orb_slam3_ros2_wrapper/src/orb_slam3_interface.cpp:73 | inserting a map with a fresh id keeps map ids distinct |
| Snapshot.SortKeepsDistinctIds | orb_slam3_ros2_wrapper/src/orb_slam3_interface.cpp:72-73 | distinct map ids stay distinct after sorting |
| Rigid.Offset | orb_slam3_ros2_wrapper/src/orb_slam3_interface.cpp:80-82 | the start offset moves the origin to `(robotX, robotY, 0)` and does not rotate |
| Rigid.InverseCancels | orb_slam3_ros2_wrapper/src/orb_slam3_interface.cpp:167 | a pose composed with its inverse, on either side, is the identity |
| Resolution.ResolvePrefix | orb_slam3_ros2_wrapper/src/orb_slam3_interface.cpp:75-90 | after the first `n` maps have been visited, every one of them has an entry |
| Resolution.ResolvedKeysAreVisited | orb_slam3_ros2_wrapper/src/orb_slam3_interface.cpp:71-90 | the table starts cleared, so it holds no id except those of the visited maps |
| Resolution.ParentInPrefix | orb_slam3_ros2_wrapper/src/orb_slam3_interface.cpp:87-88 | when a chained map is visited, its parent keyframe is indexed and the parent's map already has an entry |
| Resolution.ResolveStep | orb_slam3_ros2_wrapper/src/orb_slam3_interface.cpp:77-89 | a visit writes `offset ∘ origin` for a root map, and the parent map's entry composed with keyframe `initKFid-1`'s pose for any other map |
| Resolution.ResolvedEntryStable | orb_slam3_ros2_wrapper/src/orb_slam3_interface.cpp:75-90 | with distinct map ids, a later visit never overwrites the entry written for an earlier map |
| Resolution.ResolvedTableChains | orb_slam3_ros2_wrapper/src/orb_slam3_interface.cpp:75-90 | in the finished table, root maps sit at `offset ∘ origin`, and every other map sits at its parent map's final entry composed with the parent keyframe's pose |
| Resolution.ReferencePosesCover | orb_slam3_ros2_wrapper/src/orb_slam3_interface.cpp:71-90 | the table's keys are exactly the ids of the atlas maps |
| Resolution.ReferencePosesChain | orb_slam3_ros2_wrapper/src/orb_slam3_interface.cpp:71-90 | on the atlas itself: one entry per map, root anchoring at `Offset(robotX, robotY) ∘ origin`, and chaining through keyframe `initKFid-1` |
| Interface.OrbSlam3Interface.CalculateReferencePoses | orb_slam3_ros2_wrapper/src/orb_slam3_interface.cpp:61-91 | the new table and index are exactly the snapshot's resolved table and index, with every index entry filed under its own id; since they depend on the snapshot alone, a second call on the same snapshot changes nothing; for a well-formed atlas, they serve every read the publishing side makes against that same snapshot |
| Interface.ResolvedTablesReadyToPublish | orb_slam3_ros2_wrapper/src/orb_slam3_interface.cpp:61-91 | for a well-formed atlas whose current map is listed, the rebuilt tables have a reference pose for every indexed keyframe's map, file each entry under its own id, and index every current-map keyframe, which the reads at lines 103, 190 and 204 need |
| Interface.OrbSlam3Interface.CorrectTrackedPose | orb_slam3_ros2_wrapper/src/orb_slam3_interface.cpp:147-151 | the stored pose is the current map's reference pose composed with `Tcw`, so it maps each point as `Tcw` followed by the reference pose |
| Interface.OrbSlam3Interface.HandleImu | orb_slam3_ros2_wrapper/src/orb_slam3_interface.cpp:217-222 | the sample is appended at the back of the FIFO and nothing else changes |
| Interface.SyncedPrefixLength | orb_slam3_ros2_wrapper/src/orb_slam3_interface.cpp:253-265 | the drained prefix is the longest one whose stamps are all at most the limit: every sample in it qualifies, and the next sample, if there is one, does not |
| Interface.SyncedPrefixUnaffectedByPush | orb_slam3_ros2_wrapper/src/orb_slam3_interface.cpp:220 | once a sample later than the limit is waiting, pushing another sample at the back does not change what the drain collects |
| Interface.OrbSlam3Interface.DrainImu | orb_slam3_ros2_wrapper/src/orb_slam3_interface.cpp:251-266 | the collected samples are that longest prefix in FIFO order, and the FIFO keeps exactly the remaining suffix |
| Interface.StateOfCode | orb_slam3_ros2_wrapper/src/orb_slam3_interface.cpp:279-299 | a tracking-state code reads as `Ok` exactly when it is 2; codes 0, 1 and 3 have their own states; every other code is unlisted and kept |
| Interface.OrbSlam3Interface.HandleEngineStep | orb_slam3_ros2_wrapper/src/orb_slam3_interface.cpp:270-301 | a merge in progress leaves every published field unchanged; state 2 rebuilds the table and index (ready to publish for a well-formed atlas), stores `ref[current] ∘ Tcw` and sets `hasTracked` only when asked; any other state fails with that state and changes nothing |
| Interface.OrbSlam3Interface.TrackRGBDi | orb_slam3_ros2_wrapper/src/orb_slam3_interface.cpp:224-304 | sets `orbAtlas_` first; returns true iff tracked; a decode failure returns false before touching the FIFO or the engine; the FIFO loses exactly the synced prefix; the engine is called, on that prefix, iff samples remain; merge gating; state 2 sets `hasTracked` and the corrected pose and leaves tables ready to publish for a well-formed atlas |
| Interface.OrbSlam3Interface.TrackRGBD | orb_slam3_ros2_wrapper/src/orb_slam3_interface.cpp:306-363 | the same dispatch without the FIFO: the engine is called iff both images decode, and `hasTracked` never changes; the state-2 path requires `orbAtlas_` to have been set by an earlier `trackRGBDi` |
| KeyOrder.KeysInOrderAscending | orb_slam3_ros2_wrapper/src/orb_slam3_interface.cpp:185 | a walk over `allKFs_` visits every key exactly once, in strictly ascending order |
| Interface.OrbSlam3Interface.WalkIndex | orb_slam3_ros2_wrapper/src/orb_slam3_interface.cpp:185-195 | the loop visits the keys in map order and pushes, per key, that keyframe's world pose and its own `mnId` |
| Interface.OrbSlam3Interface.AllKeyFrameEntries | orb_slam3_ros2_wrapper/src/orb_slam3_interface.cpp:183-196 | one entry per index entry, in key order; when every entry is filed under its own id, the pushed ids are exactly the index keys, strictly ascending |
| Interface.OrbSlam3Interface.CurrentMapEntries | orb_slam3_ros2_wrapper/src/orb_slam3_interface.cpp:197-214 | one entry per keyframe of the current map, in the engine's order, with its id and its world pose |
| Interface.OrbSlam3Interface.GetOptimizedPoseGraph | orb_slam3_ros2_wrapper/src/orb_slam3_interface.cpp:181-215 | the graph's existing entries are kept and the chosen branch's entries are appended to the parallel `poses` and `poses_id` sequences |
| Interface.ProjectPoints | orb_slam3_ros2_wrapper/src/orb_slam3_interface.cpp:127-135 | the output holds the world position of every point that is not bad, and nothing else |
| Interface.OrbSlam3Interface.PushGoodPoints | orb_slam3_ros2_wrapper/src/orb_slam3_interface.cpp:127-135 | the point loop computes exactly those projected good points, in order |
| Interface.NodesFor | orb_slam3_ros2_wrapper/src/orb_slam3_interface.cpp:121-142 | every node comes from a requested id that is in the index; every requested id that is in the index gets its node; absent ids are skipped |
| Interface.OrbSlam3Interface.MapDataToMsg | orb_slam3_ros2_wrapper/src/orb_slam3_interface.cpp:111-145 | the header names the global frame; the graph is a fresh pose graph of the chosen scope; when points are requested, one node per present id is appended in request order |
| Interface.CloudOf | orb_slam3_ros2_wrapper/src/orb_slam3_interface.cpp:93-109 | the cloud holds every good point of the current map's keyframes, each projected with the reference pose of the map that the index names for it, and nothing else |
| Interface.OrbSlam3Interface.GetCurrentMapPoints | orb_slam3_ros2_wrapper/src/orb_slam3_interface.cpp:93-109 | the nested loop builds exactly that cloud |
| Interface.OrbSlam3Interface.GetMapToOdomTF | orb_slam3_ros2_wrapper/src/orb_slam3_interface.cpp:153-179 | before the first inertial track the transform is left untouched; afterwards it is labelled global → odom, stamped 0.5 s after the odometry, and composing it with the odometry pose gives back the tracked pose |

## Left out

- Eigen/Sophus poses and floating point: poses are the exact quarter-turn group of `Rigid`, so rounding and general 3D rotations are not modelled.
- `se3ToAffine`, `vector3fORBToROS`, `tf2::toMsg`, `secToStamp` and `MapPointsToPCL` are treated as identities, so the model does not check axis conventions or message layout.
- `stampToSec`: stamps are compared as integer nanoseconds, not as doubles, so the model ignores precision loss in that conversion.
- Image decoding (`cv_bridge`) is a boolean input per image, and the engine (`TrackRGBD`, `GetTrackingState`, `mergeDetected`, `GetAtlas`) is a parameter, so the image stamp the engine is handed is not modelled.
- Mutexes and concurrency are not modelled. This includes `imuBuf_.size()` being read after the lock is released, and the lock `mapDataToMsg` holds.
- Console messages are not modelled; the log line each path prints becomes a `TrackStatus` value.
- The constructor's engine start-up and the destructor are not modelled. The header with the fields' initial values is not part of this model; the model's constructor starts with an empty FIFO, empty tables and `hasTracked` false.
- `operator[]` on a missing key default-inserts in C++. The model instead requires the key to be present wherever the source reads `allKFs_[initKFid - 1]`, `allKFs_[KF->mnId]` or `mapReferencePoses_[...]`; this is `Resolvable`, `IndexResolved`, `KeyFramesIndexed` and the current-map coverage in `ReadyToPublish`. These requirements also exclude an ordinary atlas, not only a malformed one: once the current map has gained keyframes, or a new current map has been started, since the last state-2 track, the tables no longer cover it. On such an atlas `getCurrentMapPoints` (line 103) default-inserts a null `KeyFrame*` into `allKFs_` for each new keyframe and calls `GetMap()` on it; and, for a new current map, `getOptimizedPoseGraph` (line 204) default-inserts an uninitialized pose into `mapReferencePoses_` (Eigen's default constructor leaves the rotation and translation unset) and publishes with it. The model does not cover these reads.
- Interface.OrbSlam3Interface.CalculateReferencePoses: `std::sort` does not fix the order of maps with equal init ids; the model fixes it as a stable insertion sort.
- Interface.OrbSlam3Interface.CalculateReferencePoses: a map whose parent keyframe is missing, or whose parent map has not yet been visited, is excluded by the precondition. The code reads that entry without checking it, so it does not skip such a map.
- Interface.OrbSlam3Interface.AllKeyFrameEntries: `allKFs_` holds `KeyFrame*` pointers, so each publish re-reads the live keyframe (`GetPose()` and `GetMap()` at lines 188-190). The model's index holds `KeyFrame` values copied at the last state-2 `CalculateReferencePoses`, so the all-keyframes graph, the nodes of `MapDataToMsg` (`GetMapPoints()` and `GetMap()` at lines 127 and 132) and the map chosen per keyframe in `GetCurrentMapPoints` (line 103) are published from that copy. A keyframe the engine has since refined or moved to another map is published as it was then; the aliasing between the index and the atlas is not modelled.
- Interface.OrbSlam3Interface.AllKeyFrameEntries: the entries come out in ascending key order, because `allKFs_` is an ordered `std::map`, not in the order the keyframes were inserted.
- Interface.OrbSlam3Interface.TrackRGBD: `orbAtlas_` is set only in `trackRGBDi` (line 226). When only `trackRGBD` has run, its state-2 path (lines 343-344) and the current-map readers (lines 96, 199) dereference a pointer this file never sets. The model requires `atlasRead` there, so it does not model that read.
- The tables the tracking path leaves behind are shown to serve the read side only for reads made against the same snapshot the tracking call saw, and only for a `WellFormed` atlas, one where every keyframe names its own map. The model does not constrain an atlas whose keyframes name other maps, nor reads against a later atlas.
- Signed 64-bit overflow of `stamp + 0.5 s` in `getMapToOdomTF` is not modelled; stamps are unbounded integers.
- A negative requested id in `mapDataToMsg` is converted to the unsigned key by adding 2^64 (`AsKey`). Keyframe ids are unbounded naturals, so the wrap of `mnId` itself is not modelled.
