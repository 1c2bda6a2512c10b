/** The reference-pose table that `calculateReferencePoses` builds, as pure functions of the
    atlas snapshot. Maps are visited in ascending init-keyframe order; a root map (init id 0)
    is anchored at the robot's start offset composed with its origin keyframe's pose, and any
    other map is chained to the map that owns keyframe `initKFid - 1`. */
module Resolution {
  import opened Rigid
  import opened Snapshot

  /** Map `s[c]` is a root, or the keyframe it was spawned from is in the index and that
      keyframe's map is visited before `s[c]`. This is what `allKFs_[initKFid - 1]` and
      `mapReferencePoses_[...->GetMap()]` need to read a real entry. */
  predicate ParentResolvedBefore(s: seq<SlamMap>, idx: map<nat, KeyFrame>, c: nat)
    requires c < |s|
  {
    s[c].initKFid == 0
    || (s[c].initKFid - 1 in idx && exists j :: 0 <= j < c && s[j].id == idx[s[c].initKFid - 1].mapId)
  }

  predicate Chainable(s: seq<SlamMap>, idx: map<nat, KeyFrame>)
  {
    forall c :: 0 <= c < |s| ==> ParentResolvedBefore(s, idx, c)
  }

  /** The reference pose of one map, read off the table built so far. */
  function ReferenceOf(m: SlamMap, idx: map<nat, KeyFrame>, offset: Pose, table: map<nat, Pose>): Pose
    requires m.initKFid == 0 || (m.initKFid - 1 in idx && idx[m.initKFid - 1].mapId in table)
  {
    if m.initKFid == 0 then Compose(offset, m.origin.pose)
    else
      var parent := idx[m.initKFid - 1];
      Compose(table[parent.mapId], parent.pose)
  }

  /** The table after the first `n` maps of `s` have been visited. */
  function ResolvePrefix(s: seq<SlamMap>, idx: map<nat, KeyFrame>, offset: Pose, n: nat): (t: map<nat, Pose>)
    requires n <= |s| && Chainable(s, idx)
    ensures forall j :: 0 <= j < n ==> s[j].id in t
  {
    if n == 0 then map[]
    else
      var t := ResolvePrefix(s, idx, offset, n - 1);
      assert ParentResolvedBefore(s, idx, n - 1);
      t[s[n - 1].id := ReferenceOf(s[n - 1], idx, offset, t)]
  }

  /** The parent map of a chained map is already in the table when the map is visited. */
  lemma ParentInPrefix(s: seq<SlamMap>, idx: map<nat, KeyFrame>, offset: Pose, c: nat)
    requires c < |s| && Chainable(s, idx) && s[c].initKFid != 0
    ensures s[c].initKFid - 1 in idx && idx[s[c].initKFid - 1].mapId in ResolvePrefix(s, idx, offset, c)
  {
    assert ParentResolvedBefore(s, idx, c);
    var j :| 0 <= j < c && s[j].id == idx[s[c].initKFid - 1].mapId;
  }

  /** The table holds no id other than those of the visited maps. */
  lemma {:induction false} ResolvedKeysAreVisited(s: seq<SlamMap>, idx: map<nat, KeyFrame>, offset: Pose, n: nat)
    requires n <= |s| && Chainable(s, idx)
    ensures forall k :: k in ResolvePrefix(s, idx, offset, n) ==> exists j :: 0 <= j < n && s[j].id == k
  {
    if n > 0 {
      ResolvedKeysAreVisited(s, idx, offset, n - 1);
      ResolveStep(s, idx, offset, n - 1);
    }
  }

  /** One visit: a root map gets `offset ∘ origin`; any other map gets its parent map's entry
      composed with the pose of keyframe `initKFid - 1`. */
  lemma ResolveStep(s: seq<SlamMap>, idx: map<nat, KeyFrame>, offset: Pose, c: nat)
    requires c < |s| && Chainable(s, idx)
    ensures s[c].initKFid == 0 ==>
      ResolvePrefix(s, idx, offset, c + 1)
        == ResolvePrefix(s, idx, offset, c)[s[c].id := Compose(offset, s[c].origin.pose)]
    ensures s[c].initKFid != 0 ==>
      && s[c].initKFid - 1 in idx
      && var t, parent := ResolvePrefix(s, idx, offset, c), idx[s[c].initKFid - 1];
         && parent.mapId in t
         && ResolvePrefix(s, idx, offset, c + 1) == t[s[c].id := Compose(t[parent.mapId], parent.pose)]
  {
    if s[c].initKFid != 0 {
      ParentInPrefix(s, idx, offset, c);
    }
  }

  /** With distinct map ids, the entry written for `s[c]` is never overwritten. */
  lemma {:induction false} ResolvedEntryStable(s: seq<SlamMap>, idx: map<nat, KeyFrame>, offset: Pose, c: nat, n: nat)
    requires c < n <= |s| && Chainable(s, idx) && DistinctMapIds(s)
    ensures s[c].initKFid != 0 ==>
      s[c].initKFid - 1 in idx && idx[s[c].initKFid - 1].mapId in ResolvePrefix(s, idx, offset, c)
    ensures ResolvePrefix(s, idx, offset, n)[s[c].id]
         == ReferenceOf(s[c], idx, offset, ResolvePrefix(s, idx, offset, c))
  {
    ResolveStep(s, idx, offset, c);
    if n - 1 != c {
      ResolvedEntryStable(s, idx, offset, c, n - 1);
      ResolveStep(s, idx, offset, n - 1);
      assert s[c].id != s[n - 1].id;
    }
  }

  /** The chaining equations hold of the finished table: root maps are anchored at
      `offset ∘ origin pose`; every other map's entry is its parent map's entry composed with
      the pose of keyframe `initKFid - 1`, read from the same finished table. */
  lemma ResolvedTableChains(s: seq<SlamMap>, idx: map<nat, KeyFrame>, offset: Pose)
    requires Chainable(s, idx) && DistinctMapIds(s)
    ensures forall c :: 0 <= c < |s| && s[c].initKFid == 0 ==>
      ResolvePrefix(s, idx, offset, |s|)[s[c].id] == Compose(offset, s[c].origin.pose)
    ensures forall c :: 0 <= c < |s| && s[c].initKFid != 0 ==>
      s[c].initKFid - 1 in idx &&
      var t, parent := ResolvePrefix(s, idx, offset, |s|), idx[s[c].initKFid - 1];
      parent.mapId in t && t[s[c].id] == Compose(t[parent.mapId], parent.pose)
  {
    forall c | 0 <= c < |s|
      ensures s[c].initKFid == 0 ==> ResolvePrefix(s, idx, offset, |s|)[s[c].id] == Compose(offset, s[c].origin.pose)
      ensures s[c].initKFid != 0 ==>
        s[c].initKFid - 1 in idx &&
        var t, parent := ResolvePrefix(s, idx, offset, |s|), idx[s[c].initKFid - 1];
        parent.mapId in t && t[s[c].id] == Compose(t[parent.mapId], parent.pose)
    {
      ResolvedEntryStable(s, idx, offset, c, |s|);
      if s[c].initKFid != 0 {
        var parent := idx[s[c].initKFid - 1];
        assert ParentResolvedBefore(s, idx, c);
        var j :| 0 <= j < c && s[j].id == parent.mapId;
        ResolvedEntryStable(s, idx, offset, j, c);
        ResolvedEntryStable(s, idx, offset, j, |s|);
      }
    }
  }

  // ----- The table as a function of the atlas snapshot -----

  /** The maps in the order `calculateReferencePoses` visits them. */
  function VisitOrder(atlas: Atlas): seq<SlamMap>
  {
    SortByInitId(atlas.maps)
  }

  /** `allKFs_` after resolution: the index built from the visited maps. */
  function KeyFrameIndex(atlas: Atlas): map<nat, KeyFrame>
  {
    IndexOf(Flatten(VisitOrder(atlas)))
  }

  /** What the source needs of a snapshot to resolve it without reading a missing entry. */
  predicate Resolvable(atlas: Atlas)
  {
    Chainable(VisitOrder(atlas), KeyFrameIndex(atlas))
  }

  /** `mapReferencePoses_` after resolution, keyed by map id. */
  function ReferencePoses(atlas: Atlas, robotX: real, robotY: real): (t: map<nat, Pose>)
    requires Resolvable(atlas)
  {
    ResolvePrefix(VisitOrder(atlas), KeyFrameIndex(atlas), Offset(robotX, robotY), |VisitOrder(atlas)|)
  }

  /** Completeness: the table has an entry for exactly the maps of the snapshot. */
  lemma ReferencePosesCover(atlas: Atlas, robotX: real, robotY: real)
    requires Resolvable(atlas)
    ensures ReferencePoses(atlas, robotX, robotY).Keys == set m | m in atlas.maps :: m.id
  {
    var s, idx, offset := VisitOrder(atlas), KeyFrameIndex(atlas), Offset(robotX, robotY);
    var t := ReferencePoses(atlas, robotX, robotY);
    SortKeepsMaps(atlas.maps);
    forall m | m in atlas.maps ensures m.id in t {
      var c :| 0 <= c < |s| && s[c] == m;
    }
    ResolvedKeysAreVisited(s, idx, offset, |s|);
    forall k | k in t ensures exists m :: m in atlas.maps && m.id == k {
      var j :| 0 <= j < |s| && s[j].id == k;
      assert s[j] in s;
    }
  }

  /** Completeness and the chaining equations stated on the atlas itself: every map of the
      snapshot gets exactly one entry; a root map's entry is `Offset(robotX, robotY) ∘ origin`;
      any other map's entry is the parent map's entry composed with the pose of keyframe
      `initKFid - 1`. */
  lemma ReferencePosesChain(atlas: Atlas, robotX: real, robotY: real)
    requires Resolvable(atlas) && DistinctMapIds(atlas.maps)
    ensures ReferencePoses(atlas, robotX, robotY).Keys == set m | m in atlas.maps :: m.id
    ensures forall m :: m in atlas.maps && m.initKFid == 0 ==>
      ReferencePoses(atlas, robotX, robotY)[m.id] == Compose(Offset(robotX, robotY), m.origin.pose)
    ensures forall m :: m in atlas.maps && m.initKFid != 0 ==>
      m.initKFid - 1 in KeyFrameIndex(atlas) &&
      var t, parent := ReferencePoses(atlas, robotX, robotY), KeyFrameIndex(atlas)[m.initKFid - 1];
      parent.mapId in t
      && t[m.id] == Compose(t[parent.mapId], parent.pose)
  {
    var s, idx, offset := VisitOrder(atlas), KeyFrameIndex(atlas), Offset(robotX, robotY);
    var t := ReferencePoses(atlas, robotX, robotY);
    SortKeepsDistinctIds(atlas.maps);
    SortKeepsMaps(atlas.maps);
    ResolvedTableChains(s, idx, offset);
    forall m | m in atlas.maps
      ensures m.id in t
      ensures m.initKFid == 0 ==> t[m.id] == Compose(offset, m.origin.pose)
      ensures m.initKFid != 0 ==>
        m.initKFid - 1 in idx && idx[m.initKFid - 1].mapId in t
        && t[m.id] == Compose(t[idx[m.initKFid - 1].mapId], idx[m.initKFid - 1].pose)
    {
      var c :| 0 <= c < |s| && s[c] == m;
    }
    ResolvedKeysAreVisited(s, idx, offset, |s|);
    forall k | k in t ensures exists m :: m in atlas.maps && m.id == k {
      var j :| 0 <= j < |s| && s[j].id == k;
      assert s[j] in s;
    }
  }
}
