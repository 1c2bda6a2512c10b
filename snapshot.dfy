/** A read-only snapshot of the SLAM engine's atlas as the wrapper sees it: maps, their
    keyframes and the keyframes' map points. Also the two pure pieces of
    `calculateReferencePoses` that need no state: the id → keyframe index that
    `makeKFIdPair` fills, and the order `compareInitKFid` sorts the maps into. */
module Snapshot {
  import opened Rigid

  /** A map point: position in its map's local frame and the engine's `isBad()` flag. */
  datatype MapPoint = MapPoint(pos: Vec, bad: bool)

  /** A keyframe: atlas-wide id (`mnId`), owning map (`GetMap()`), local pose (`GetPose()`),
      capture time (`mTimeStamp`, in nanoseconds) and observed map points. */
  datatype KeyFrame = KeyFrame(id: nat, mapId: nat, pose: Pose, stamp: int, points: seq<MapPoint>)

  /** A map of the atlas: its identity, `GetInitKFid()`, `GetOriginKF()` and `GetAllKeyFrames()`. */
  datatype SlamMap = SlamMap(id: nat, initKFid: nat, origin: KeyFrame, keyFrames: seq<KeyFrame>)

  /** `GetAllMaps()` and `GetCurrentMap()`; the atlas' `GetAllKeyFrames()` is the current map's. */
  datatype Atlas = Atlas(maps: seq<SlamMap>, current: SlamMap)

  /** Every keyframe of a map names that map as its owner (`GetMap()`). */
  predicate WellFormed(atlas: Atlas)
  {
    forall m, kf :: m in atlas.maps && kf in m.keyFrames ==> kf.mapId == m.id
  }

  /** The keyframes of all listed maps, map after map, each map's keyframes in its own order. */
  function Flatten(maps: seq<SlamMap>): (r: seq<KeyFrame>)
    ensures forall m, kf :: m in maps && kf in m.keyFrames ==> kf in r
    ensures forall kf :: kf in r ==> exists m :: m in maps && kf in m.keyFrames
  {
    if maps == [] then [] else Flatten(maps[..|maps| - 1]) + maps[|maps| - 1].keyFrames
  }

  /** The ids of the given keyframes. */
  function Ids(kfs: seq<KeyFrame>): set<nat>
  {
    set kf | kf in kfs :: kf.id
  }

  /** The map that results from writing `idx[kf.id] = kf` for every keyframe in order:
      a later keyframe with the same id replaces an earlier one. */
  function IndexOf(kfs: seq<KeyFrame>): map<nat, KeyFrame>
  {
    if kfs == [] then map[]
    else IndexOf(kfs[..|kfs| - 1])[kfs[|kfs| - 1].id := kfs[|kfs| - 1]]
  }

  /** Appending one keyframe to the list writes it into the index under its id. */
  lemma IndexOfPush(kfs: seq<KeyFrame>, kf: KeyFrame)
    ensures IndexOf(kfs + [kf]) == IndexOf(kfs)[kf.id := kf]
  {
    assert (kfs + [kf])[..|kfs|] == kfs;
  }

  /** Listing one more map appends its keyframes. */
  lemma FlattenPush(maps: seq<SlamMap>, i: nat)
    requires i < |maps|
    ensures Flatten(maps[..i + 1]) == Flatten(maps[..i]) + maps[i].keyFrames
  {
    assert maps[..i + 1][..i] == maps[..i];
  }

  /** The index holds exactly the ids of the keyframes, and every entry is a keyframe of the
      list carrying that id, namely its last occurrence. */
  lemma {:induction false} IndexOfIsLastOccurrence(kfs: seq<KeyFrame>)
    ensures IndexOf(kfs).Keys == Ids(kfs)
    ensures forall k :: k in IndexOf(kfs) ==>
      exists i :: 0 <= i < |kfs| && kfs[i] == IndexOf(kfs)[k]
        && kfs[i].id == k && forall j :: i < j < |kfs| ==> kfs[j].id != k
  {
    if kfs != [] {
      var init, last := kfs[..|kfs| - 1], kfs[|kfs| - 1];
      IndexOfIsLastOccurrence(init);
      assert kfs == init + [last];
      IndexOfPush(init, last);
      assert Ids(kfs) == Ids(init) + {last.id};
      forall k | k in IndexOf(kfs)
        ensures exists i :: (0 <= i < |kfs| && kfs[i] == IndexOf(kfs)[k]
                               && kfs[i].id == k && forall j :: i < j < |kfs| ==> kfs[j].id != k)
      {
        if k == last.id {
          assert kfs[|kfs| - 1] == IndexOf(kfs)[k];
        } else {
          var i :| 0 <= i < |init| && init[i] == IndexOf(init)[k]
            && init[i].id == k && forall j :: i < j < |init| ==> init[j].id != k;
          assert kfs[i] == IndexOf(kfs)[k];
        }
      }
    }
  }

  /** Consequence used by the index's clients: every entry carries its own key and is a
      keyframe of one of the listed maps. */
  lemma IndexEntriesBelongToMaps(maps: seq<SlamMap>)
    ensures IndexOf(Flatten(maps)).Keys == Ids(Flatten(maps))
    ensures forall k :: k in IndexOf(Flatten(maps)) ==>
      IndexOf(Flatten(maps))[k].id == k
      && exists m :: m in maps && IndexOf(Flatten(maps))[k] in m.keyFrames
  {
    var kfs := Flatten(maps);
    IndexOfIsLastOccurrence(kfs);
    forall k | k in IndexOf(kfs)
      ensures IndexOf(kfs)[k].id == k && exists m :: m in maps && IndexOf(kfs)[k] in m.keyFrames
    {
      var i :| 0 <= i < |kfs| && kfs[i] == IndexOf(kfs)[k] && kfs[i].id == k
        && forall j :: i < j < |kfs| ==> kfs[j].id != k;
      assert kfs[i] in kfs;
    }
  }

  /** `compareInitKFid`: maps in ascending `GetInitKFid()` order. */
  predicate SortedByInitId(maps: seq<SlamMap>)
  {
    forall i, j :: 0 <= i < j < |maps| ==> maps[i].initKFid <= maps[j].initKFid
  }

  /** No two listed maps share an id (the atlas hands out each map object once). */
  predicate DistinctMapIds(maps: seq<SlamMap>)
  {
    forall i, j :: 0 <= i < j < |maps| ==> maps[i].id != maps[j].id
  }

  /** Places `m` before the first map with a larger init id. */
  function InsertByInitId(m: SlamMap, sorted: seq<SlamMap>): (r: seq<SlamMap>)
    requires SortedByInitId(sorted)
    ensures SortedByInitId(r)
    ensures |r| == |sorted| + 1
    ensures forall x :: x in r ==> x == m || x in sorted
  {
    if sorted == [] then [m]
    else if m.initKFid <= sorted[0].initKFid then [m] + sorted
    else
      var rest := InsertByInitId(m, sorted[1..]);
      assert forall x :: x in rest ==> sorted[0].initKFid <= x.initKFid;
      [sorted[0]] + rest
  }

  /** Inserting adds exactly one copy of `m`. */
  lemma {:induction false} InsertIsPermutation(m: SlamMap, sorted: seq<SlamMap>)
    requires SortedByInitId(sorted)
    ensures multiset(InsertByInitId(m, sorted)) == multiset(sorted) + multiset{m}
  {
    if sorted != [] && m.initKFid > sorted[0].initKFid {
      InsertIsPermutation(m, sorted[1..]);
      assert sorted == [sorted[0]] + sorted[1..];
    }
  }

  /** `std::sort(mapsList, compareInitKFid())`, as a stable insertion sort. */
  function SortByInitId(maps: seq<SlamMap>): (r: seq<SlamMap>)
    ensures SortedByInitId(r)
    ensures |r| == |maps|
  {
    if maps == [] then [] else InsertByInitId(maps[0], SortByInitId(maps[1..]))
  }

  /** The sorted list is a permutation of the maps. */
  lemma {:induction false} SortIsPermutation(maps: seq<SlamMap>)
    ensures multiset(SortByInitId(maps)) == multiset(maps)
  {
    if maps != [] {
      SortIsPermutation(maps[1..]);
      InsertIsPermutation(maps[0], SortByInitId(maps[1..]));
      assert maps == [maps[0]] + maps[1..];
    }
  }

  lemma {:induction false} InsertKeepsDistinctIds(m: SlamMap, sorted: seq<SlamMap>)
    requires SortedByInitId(sorted) && DistinctMapIds(sorted)
    requires forall x :: x in sorted ==> x.id != m.id
    ensures DistinctMapIds(InsertByInitId(m, sorted))
  {
    if sorted != [] && m.initKFid > sorted[0].initKFid {
      var rest := InsertByInitId(m, sorted[1..]);
      InsertKeepsDistinctIds(m, sorted[1..]);
      assert forall x :: x in rest ==> x.id != sorted[0].id;
      assert InsertByInitId(m, sorted) == [sorted[0]] + rest;
    }
  }

  /** Sorting neither adds nor drops a map. */
  lemma SortKeepsMaps(maps: seq<SlamMap>)
    ensures forall x :: x in SortByInitId(maps) <==> x in maps
  {
    SortIsPermutation(maps);
    forall x ensures x in SortByInitId(maps) <==> x in maps {
      assert x in SortByInitId(maps) <==> x in multiset(SortByInitId(maps));
      assert x in maps <==> x in multiset(maps);
    }
  }

  /** Sorting does not duplicate a map either, so distinct ids stay distinct. */
  lemma {:induction false} SortKeepsDistinctIds(maps: seq<SlamMap>)
    requires DistinctMapIds(maps)
    ensures DistinctMapIds(SortByInitId(maps))
  {
    if maps != [] {
      var tail := maps[1..];
      SortKeepsDistinctIds(tail);
      SortKeepsMaps(tail);
      assert maps == [maps[0]] + tail;
      InsertKeepsDistinctIds(maps[0], SortByInitId(tail));
    }
  }
}
