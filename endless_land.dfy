/** EndlessLand.cs: the endless-terrain controller, its terrain chunks and
    their per-level mesh slots, as objects whose fields change in place. The
    map generator is reached only through the requests the objects record
    and the deliveries the controller hands back; Unity's scene graph is
    reduced to each chunk's visible flag and its two mesh references. */
module EndlessLand {
  import opened Unity
  import opened Lod

  /** The height and colour maps the generator produces for one chunk. */
  datatype MapData = MapData(id: int)

  /** The vertex data the generator produces for one level of one chunk. */
  datatype MeshData = MeshData(id: int)

  /** The mesh MeshData.CreateMesh builds from that vertex data. */
  datatype Mesh = Mesh(source: MeshData)

  datatype Option<T> = None | Some(value: T)

  /** One RequestMeshData call: the chunk's map data and the slot's level. */
  datatype MeshRequest = MeshRequest(mapData: MapData, lod: int)

  /** A slot's state as a value. */
  datatype SlotState = SlotState(hasRequestedMesh: bool, hasMesh: bool, mesh: Option<Mesh>,
                                 requests: seq<MeshRequest>)

  /** Everything about a chunk that an update or a delivery can change,
      apart from its visibility, as a value: its map data, the level in use,
      the two meshes it shows and the state of each slot. */
  datatype ChunkState = ChunkState(mapData: Option<MapData>, previousLODIndex: int,
                                   filterMesh: Option<Mesh>, colliderMesh: Option<Mesh>,
                                   slots: seq<SlotState>)

  /** A slot has made at most one request, its flag says whether it did,
      and it holds a mesh only after asking for one. */
  ghost predicate SlotOk(s: SlotState)
  {
    |s.requests| <= 1 &&
    (s.hasRequestedMesh <==> |s.requests| == 1) &&
    (s.hasMesh ==> s.hasRequestedMesh) &&
    (s.hasMesh <==> s.mesh.Some?)
  }

  /** The slot s after it asks for its mesh, when ask holds. */
  function Requested(s: SlotState, ask: bool, data: MapData, lod: int): SlotState
  {
    if ask then s.(hasRequestedMesh := true, requests := s.requests + [MeshRequest(data, lod)]) else s
  }

  /** What one update does to a shown chunk at level k, on values. When k
      is not the level in use, the chunk adopts slot k's mesh if it is
      there, and otherwise asks for it unless it already has. At level 0
      the collider then takes the collision slot's mesh if it is there,
      and otherwise that slot asks for it unless it already has. */
  ghost function LodStep(s: ChunkState, levels: seq<LODInfo>, k: nat): (r: ChunkState)
    requires WellConfigured(levels) && |s.slots| == |levels| && k < |levels| && s.mapData.Some?
  {
    var c := LastColliderIndex(levels);
    var adopt := k != s.previousLODIndex && s.slots[k].hasMesh;
    var collide := k == 0 && s.slots[c].hasMesh;
    ChunkState(s.mapData,
      if adopt then k else s.previousLODIndex,
      if adopt then s.slots[k].mesh else s.filterMesh,
      if collide then s.slots[c].mesh else if adopt then s.slots[k].mesh else s.colliderMesh,
      SlotsFrom(s, levels, k, c, 0))
  }

  /** Whether slot i asks for its mesh in a step of s at level k, with c the
      collision level: it has neither its mesh nor a request out, and it is
      the level being switched to or, at level 0, the collision level. */
  predicate Asks(s: ChunkState, k: nat, c: nat, i: nat)
    requires i < |s.slots|
  {
    !s.slots[i].hasMesh && !s.slots[i].hasRequestedMesh &&
    ((i == k && k != s.previousLODIndex) || (k == 0 && i == c))
  }

  /** The slots of s from i on, after a step at level k. */
  ghost function SlotsFrom(s: ChunkState, levels: seq<LODInfo>, k: nat, c: nat, i: nat): seq<SlotState>
    requires |s.slots| == |levels| && i <= |s.slots| && s.mapData.Some?
    decreases |s.slots| - i
  {
    if i == |s.slots| then []
    else [Requested(s.slots[i], Asks(s, k, c, i), s.mapData.value, levels[i].lod)] +
         SlotsFrom(s, levels, k, c, i + 1)
  }

  /** A slot b that has the mesh of a and the request log of a, plus the
      request ask calls for, is a after Requested, when in both the flag
      says whether the one request was made. */
  lemma SlotStepped(a: SlotState, b: SlotState, ask: bool, data: MapData, lod: int)
    requires SlotOk(a) && SlotOk(b)
    requires b.hasMesh == a.hasMesh && b.mesh == a.mesh
    requires b.requests == a.requests + (if ask then [MeshRequest(data, lod)] else [])
    ensures b == Requested(a, ask, data, lod)
  {
  }

  /** LodStep's slots, read slot by slot: slot i makes the request of
      level i exactly when it has not asked yet and i is the level being
      switched to or, at level 0, the collision level c. */
  lemma LodStepSlots(s: ChunkState, news: seq<SlotState>, levels: seq<LODInfo>, k: nat, c: nat)
    requires WellConfigured(levels) && |s.slots| == |levels| == |news| && k < |levels|
    requires s.mapData.Some? && c == LastColliderIndex(levels)
    requires forall i :: 0 <= i < |news| ==>
      SlotOk(s.slots[i]) && SlotOk(news[i]) &&
      news[i].hasMesh == s.slots[i].hasMesh && news[i].mesh == s.slots[i].mesh &&
      news[i].requests == s.slots[i].requests +
        (if !s.slots[i].hasRequestedMesh && ((i == k && k != s.previousLODIndex) || (k == 0 && i == c))
         then [MeshRequest(s.mapData.value, levels[i].lod)] else [])
    ensures news == LodStep(s, levels, k).slots
  {
    SlotsFromIs(s, news, levels, k, c, 0);
  }

  /** LodStepSlots from slot i on. */
  lemma {:induction false} SlotsFromIs(s: ChunkState, news: seq<SlotState>, levels: seq<LODInfo>, k: nat, c: nat, i: nat)
    requires |s.slots| == |levels| == |news| && i <= |news| && s.mapData.Some?
    requires forall i :: 0 <= i < |news| ==>
      SlotOk(s.slots[i]) && SlotOk(news[i]) &&
      news[i].hasMesh == s.slots[i].hasMesh && news[i].mesh == s.slots[i].mesh &&
      news[i].requests == s.slots[i].requests +
        (if !s.slots[i].hasRequestedMesh && ((i == k && k != s.previousLODIndex) || (k == 0 && i == c))
         then [MeshRequest(s.mapData.value, levels[i].lod)] else [])
    ensures news[i..] == SlotsFrom(s, levels, k, c, i)
    decreases |news| - i
  {
    if i < |news| {
      SlotStepped(s.slots[i], news[i], Asks(s, k, c, i), s.mapData.value, levels[i].lod);
      SlotsFromIs(s, news, levels, k, c, i + 1);
      assert news[i..] == [news[i]] + news[i + 1..];
    }
  }

  /** A state r is LodStep's result as soon as its fields are: the map data
      kept, the level and the meshes as the switch and the collider step
      leave them, and LodStep's slots. */
  lemma LodStepIs(s: ChunkState, levels: seq<LODInfo>, k: nat, r: ChunkState)
    requires WellConfigured(levels) && |s.slots| == |levels| && k < |levels| && s.mapData.Some?
    requires var adopt := k != s.previousLODIndex && s.slots[k].hasMesh;
      var collide := k == 0 && s.slots[LastColliderIndex(levels)].hasMesh;
      r.mapData == s.mapData &&
      r.previousLODIndex == (if adopt then k else s.previousLODIndex) &&
      r.filterMesh == (if adopt then s.slots[k].mesh else s.filterMesh) &&
      r.colliderMesh == (if collide then s.slots[LastColliderIndex(levels)].mesh
                         else if adopt then s.slots[k].mesh else s.colliderMesh)
    requires r.slots == LodStep(s, levels, k).slots
    ensures r == LodStep(s, levels, k)
  {
  }

  /** Slot by slot, b is a later state of a than a: a request, once made,
      stays made and keeps its log as a prefix; a mesh, once there, stays. */
  ghost predicate Progressed(a: ChunkState, b: ChunkState)
  {
    |a.slots| == |b.slots| &&
    forall i :: 0 <= i < |a.slots| ==>
      (a.slots[i].hasRequestedMesh ==> b.slots[i].hasRequestedMesh) &&
      (a.slots[i].hasMesh ==> b.slots[i].hasMesh && b.slots[i].mesh == a.slots[i].mesh) &&
      a.slots[i].requests <= b.slots[i].requests
  }

  /** Slot j of the slots from i on, after a step at level k, is slot j of
      s after it asks for its mesh exactly when Asks says so. */
  lemma {:induction false} SlotsFromAt(s: ChunkState, levels: seq<LODInfo>, k: nat, c: nat, i: nat)
    requires |s.slots| == |levels| && i <= |s.slots| && s.mapData.Some?
    ensures |SlotsFrom(s, levels, k, c, i)| == |s.slots| - i
    ensures forall j :: i <= j < |s.slots| ==>
      SlotsFrom(s, levels, k, c, i)[j - i] == Requested(s.slots[j], Asks(s, k, c, j), s.mapData.value, levels[j].lod)
    decreases |s.slots| - i
  {
    if i < |s.slots| {
      SlotsFromAt(s, levels, k, c, i + 1);
    }
  }

  /** A step never takes back a request or a mesh, and keeps the map data. */
  lemma LodStepProgresses(s: ChunkState, levels: seq<LODInfo>, k: nat)
    requires WellConfigured(levels) && |s.slots| == |levels| && k < |levels| && s.mapData.Some?
    ensures Progressed(s, LodStep(s, levels, k))
    ensures LodStep(s, levels, k).mapData == s.mapData
  {
    SlotsFromAt(s, levels, k, LastColliderIndex(levels), 0);
  }

  /** The states of the slots ms, in order. */
  ghost function SlotStates(ms: seq<LODMesh>): (r: seq<SlotState>)
    reads ms
    ensures |r| == |ms| && forall i :: 0 <= i < |ms| ==> r[i] == ms[i].State()
  {
    seq(|ms|, i requires 0 <= i < |ms| reads ms => ms[i].State())
  }

  /** World units per position unit of the viewer (the `scale` constant). */
  const Scale: real := 2.0
  const ViewerMoveThresholdForChunkUpdate: real := 25.0
  const SqrViewerMoveThresholdForChunkUpdate: real :=
    ViewerMoveThresholdForChunkUpdate * ViewerMoveThresholdForChunkUpdate

  /** LODMesh: one level-of-detail slot of a chunk. It asks for its mesh at
      most once (its callers check hasRequestedMesh) and keeps it once it
      has arrived. */
  class LODMesh {
    var mesh: Option<Mesh>
    var hasRequestedMesh: bool
    var hasMesh: bool
    const lod: int
    /** The RequestMeshData calls this slot has made. */
    var requests: seq<MeshRequest>

    ghost predicate Valid()
      reads this
    {
      SlotOk(State())
    }

    ghost function State(): SlotState
      reads this
    {
      SlotState(hasRequestedMesh, hasMesh, mesh, requests)
    }

    constructor (lod: int)
      ensures Valid() && this.lod == lod
      ensures !hasRequestedMesh && !hasMesh && requests == []
    {
      this.lod := lod;
      mesh := None;
      hasRequestedMesh := false;
      hasMesh := false;
      requests := [];
    }

    /** OnMeshDataReceived: the mesh built from the delivered data becomes
        the slot's mesh. */
    method OnMeshDataReceived(meshData: MeshData)
      requires Valid() && hasRequestedMesh && !hasMesh
      modifies this
      ensures Valid() && hasMesh && mesh == Some(Mesh(meshData))
      ensures hasRequestedMesh && requests == old(requests)
    {
      mesh := Some(Mesh(meshData));
      hasMesh := true;
    }

    /** RequestMesh: record that the slot asked for its mesh. The slot itself
        does not refuse a second request; a second one would break Valid. */
    method RequestMesh(mapData: MapData)
      modifies this
      ensures hasRequestedMesh && requests == old(requests) + [MeshRequest(mapData, lod)]
      ensures hasMesh == old(hasMesh) && mesh == old(mesh)
      ensures old(Valid()) && !old(hasRequestedMesh) ==> Valid()
    {
      hasRequestedMesh := true;
      requests := requests + [MeshRequest(mapData, lod)];
    }
  }

  /** The box of the chunk at grid coordinate p for chunks size units wide:
      centred at p times size, size by size. */
  function ChunkBounds(p: ChunkCoord, size: int): Bounds
  {
    Bounds(Vec2((p.0 * size) as real, (p.1 * size) as real), Vec2(size as real, size as real))
  }

  /** TerrainChunk: one square of terrain at an integer grid coordinate. */
  class TerrainChunk {
    const coord: ChunkCoord
    const position: Vec2
    const bounds: Bounds
    const detailsLevel: seq<LODInfo>
    const lodMeshes: seq<LODMesh>
    const collisionLODMesh: LODMesh
    /** The controller whose visible-chunk list the chunk appends itself to. */
    const world: EndlessLand
    var mapData: Option<MapData>
    var mapDataReceived: bool
    var previousLODIndex: int
    /** meshObject.SetActive */
    var active: bool
    /** meshFilter.mesh */
    var filterMesh: Option<Mesh>
    /** meshCollider.sharedMesh */
    var colliderMesh: Option<Mesh>
    /** The RequestMapData calls the chunk has made. */
    var mapRequests: seq<Vec2>
    ghost const Repr: set<object>

    /** The chunk's fixed structure: one slot per configured level, with
        that level's lod, all distinct, and the collision slot being the
        last level flagged for the collider. It reads no mutable state. */
    ghost predicate Shape()
    {
      this in Repr &&
      (forall i :: 0 <= i < |lodMeshes| ==> lodMeshes[i] in Repr) &&
      WellConfigured(detailsLevel) && |lodMeshes| == |detailsLevel| &&
      (forall i, j :: 0 <= i < j < |lodMeshes| ==> lodMeshes[i] != lodMeshes[j]) &&
      (forall i :: 0 <= i < |lodMeshes| ==> lodMeshes[i].lod == detailsLevel[i].lod) &&
      collisionLODMesh == lodMeshes[LastColliderIndex(detailsLevel)]
    }

    /** The chunk is the one at grid coordinate p for chunks of the given
        size: it sits at p times size, and its box is size by size there. */
    ghost predicate PlacedAt(p: ChunkCoord, size: int)
    {
      coord == p && bounds == ChunkBounds(p, size) && position == bounds.center
    }

    /** Shape, plus: every slot is consistent; a slot has asked for its mesh
        only once the chunk's map data is there, and with that data; the
        level in use (if any) has its mesh shown; the collider shows either
        that mesh or the collision slot's; the chunk asked for its map data
        once, at its own position. */
    ghost predicate Valid()
      reads this`mapData, this`mapDataReceived, this`previousLODIndex, this`filterMesh,
        this`colliderMesh, this`mapRequests, Repr - {this}
    {
      Shape() &&
      (forall i :: 0 <= i < |lodMeshes| ==> lodMeshes[i].Valid()) &&
      (mapDataReceived <==> mapData.Some?) &&
      (forall i :: 0 <= i < |lodMeshes| && lodMeshes[i].hasRequestedMesh ==>
        mapData.Some? && lodMeshes[i].requests[0].mapData == mapData.value) &&
      -1 <= previousLODIndex < |lodMeshes| &&
      (previousLODIndex == -1 ==> filterMesh == None) &&
      (previousLODIndex >= 0 ==>
        lodMeshes[previousLODIndex].hasMesh && filterMesh == lodMeshes[previousLODIndex].mesh) &&
      (colliderMesh == filterMesh ||
       (collisionLODMesh.hasMesh && colliderMesh == collisionLODMesh.mesh)) &&
      mapRequests == [position]
    }

    /** The chunk's state as a value; its visibility is not part of it. */
    ghost function State(): ChunkState
      reads this`mapData, this`previousLODIndex, this`filterMesh, this`colliderMesh, lodMeshes
    {
      ChunkState(mapData, previousLODIndex, filterMesh, colliderMesh, SlotStates(lodMeshes))
    }

    /** What one UpdateTerrainChunk does to the state s of this chunk, on
        values, for a viewer at viewer seeing as far as maxViewDistance: a
        chunk whose data has arrived and whose nearest edge is in view takes
        one LodStep at the level LodIndex picks; any other keeps its state. */
    ghost function Refreshed(s: ChunkState, viewer: Vec2, maxViewDistance: real): ChunkState
    {
      var sqrDist := SqrDistance(bounds, viewer);
      if s.mapData.Some? && Within(sqrDist, maxViewDistance) &&
         WellConfigured(detailsLevel) && |s.slots| == |detailsLevel|
      then LodStep(s, detailsLevel, LodIndex(detailsLevel, sqrDist))
      else s
    }

    /** An update never takes back a request or a mesh. */
    lemma RefreshedProgresses(s: ChunkState, viewer: Vec2, maxViewDistance: real)
      ensures Progressed(s, Refreshed(s, viewer, maxViewDistance))
      ensures Refreshed(s, viewer, maxViewDistance).mapData == s.mapData
    {
      var sqrDist := SqrDistance(bounds, viewer);
      if s.mapData.Some? && Within(sqrDist, maxViewDistance) &&
         WellConfigured(detailsLevel) && |s.slots| == |detailsLevel| {
        LodStepProgresses(s, detailsLevel, LodIndex(detailsLevel, sqrDist));
      }
    }

    /** The effect of one UpdateTerrainChunk on a chunk whose map data has
        (received) or has not arrived: the chunk is shown iff its data has
        arrived and its nearest edge is within the view distance, a shown
        chunk adds itself to the controller's visible list, and its state,
        with the map data it now holds, moves on as Refreshed says. */
    twostate predicate Updated(received: bool)
      reads this, world, lodMeshes
    {
      var show := received && Within(SqrDistance(bounds, world.viewerPosition), world.maxViewDistance);
      active == (if received then show else old(active)) &&
      world.terrainChunkVisibleLastFrame ==
        old(world.terrainChunkVisibleLastFrame) + (if show then [this] else []) &&
      State() == Refreshed(old(State()).(mapData := mapData), world.viewerPosition, world.maxViewDistance)
    }

    /** The mesh step of UpdateTerrainChunk for a shown chunk at level k:
        when k is not the level in use, the chunk shows slot k's mesh if it
        is there and otherwise has slot k ask for it unless it already has;
        at level 0 the collider then takes the collision slot's mesh if it
        is there, and otherwise that slot asks for it unless it already
        has. No mesh arrives or goes. */
    twostate predicate LodSwitched(k: nat)
      requires k < |lodMeshes| && mapData.Some?
      reads this`mapData, this`previousLODIndex, this`filterMesh, this`colliderMesh,
        lodMeshes, collisionLODMesh
    {
      (var adopt := k != old(previousLODIndex) && old(lodMeshes[k].hasMesh);
        var collide := k == 0 && old(collisionLODMesh.hasMesh);
        previousLODIndex == (if adopt then k else old(previousLODIndex)) &&
        filterMesh == (if adopt then old(lodMeshes[k].mesh) else old(filterMesh)) &&
        colliderMesh == (if collide then old(collisionLODMesh.mesh)
                         else if adopt then old(lodMeshes[k].mesh)
                         else old(colliderMesh))) &&
      forall i :: 0 <= i < |lodMeshes| ==>
        lodMeshes[i].hasMesh == old(lodMeshes[i].hasMesh) &&
        lodMeshes[i].mesh == old(lodMeshes[i].mesh) &&
        lodMeshes[i].requests == old(lodMeshes[i].requests) +
          (if !old(lodMeshes[i].hasRequestedMesh) &&
              ((i == k && k != old(previousLODIndex)) || (k == 0 && lodMeshes[i] == collisionLODMesh))
           then [MeshRequest(mapData.value, lodMeshes[i].lod)] else [])
    }

    /** A chunk with its data that showed itself and took the mesh step at
        the level its distance selects has been Updated: read on values, its
        new state is the old one after LodStep. */
    twostate lemma ShownUpdated()
      requires Shape() && mapData.Some? && mapData == old(mapData)
      requires forall i :: 0 <= i < |lodMeshes| ==> old(lodMeshes[i].Valid()) && lodMeshes[i].Valid()
      requires Within(SqrDistance(bounds, world.viewerPosition), world.maxViewDistance)
      requires active && world.terrainChunkVisibleLastFrame == old(world.terrainChunkVisibleLastFrame) + [this]
      requires LodSwitched(LodIndex(detailsLevel, SqrDistance(bounds, world.viewerPosition)))
      ensures Updated(true)
    {
      var k := LodIndex(detailsLevel, SqrDistance(bounds, world.viewerPosition));
      var s := old(State());
      var c := LastColliderIndex(detailsLevel);
      var news := SlotStates(lodMeshes);
      forall i | 0 <= i < |lodMeshes| ensures SlotOk(s.slots[i]) && SlotOk(news[i]) {
        assert s.slots[i] == old(lodMeshes[i].State());
      }
      forall i | 0 <= i < |lodMeshes|
        ensures news[i].hasMesh == s.slots[i].hasMesh && news[i].mesh == s.slots[i].mesh
      {
        assert s.slots[i] == old(lodMeshes[i].State());
      }
      forall i | 0 <= i < |lodMeshes|
        ensures news[i].requests == s.slots[i].requests +
          (if !s.slots[i].hasRequestedMesh && ((i == k && k != s.previousLODIndex) || (k == 0 && i == c))
           then [MeshRequest(s.mapData.value, detailsLevel[i].lod)] else [])
      {
        assert s.slots[i] == old(lodMeshes[i].State());
        assert lodMeshes[i] == collisionLODMesh <==> i == c;
      }
      LodStepSlots(s, news, detailsLevel, k, c);
      assert s.slots[k] == old(lodMeshes[k].State());
      assert s.slots[c] == old(collisionLODMesh.State());
      LodStepIs(s, detailsLevel, k, State());
      assert s.(mapData := mapData) == s;
    }

    constructor (coord: ChunkCoord, size: int, detailsLevel: seq<LODInfo>, world: EndlessLand)
      requires WellConfigured(detailsLevel)
      ensures Valid() && fresh(Repr)
      ensures PlacedAt(coord, size) && this.world == world && this.detailsLevel == detailsLevel
      ensures !mapDataReceived && mapData == None && !active && previousLODIndex == -1
      ensures filterMesh == None && colliderMesh == None
      ensures forall i :: 0 <= i < |lodMeshes| ==> !lodMeshes[i].hasRequestedMesh
    {
      var meshes, collision := CreateSlots(detailsLevel);
      this.coord := coord;
      this.world := world;
      this.detailsLevel := detailsLevel;
      position := Vec2((coord.0 * size) as real, (coord.1 * size) as real);
      bounds := Bounds(Vec2((coord.0 * size) as real, (coord.1 * size) as real),
                       Vec2(size as real, size as real));
      lodMeshes := meshes;
      collisionLODMesh := collision;
      mapData := None;
      mapDataReceived := false;
      previousLODIndex := -1;
      filterMesh := None;
      colliderMesh := None;
      Repr := {this} + (set m | m in meshes :: m as object);
      mapRequests := [Vec2((coord.0 * size) as real, (coord.1 * size) as real)];
      new;
      forall j | 0 <= j < |meshes| ensures meshes[j] in Repr {
        assert meshes[j] in meshes;
      }
      assert Valid();
      SetVisible(false);
    }

    /** The slot-creation loop of the constructor: one fresh slot per level,
        the collision slot being the last level flagged for the collider. */
    static method CreateSlots(detailsLevel: seq<LODInfo>) returns (meshes: seq<LODMesh>, collision: LODMesh)
      requires WellConfigured(detailsLevel)
      ensures |meshes| == |detailsLevel|
      ensures forall j :: 0 <= j < |meshes| ==>
        fresh(meshes[j]) && meshes[j].Valid() && meshes[j].lod == detailsLevel[j].lod &&
        !meshes[j].hasRequestedMesh && !meshes[j].hasMesh
      ensures forall j, k :: 0 <= j < k < |meshes| ==> meshes[j] != meshes[k]
      ensures collision == meshes[LastColliderIndex(detailsLevel)]
    {
      meshes := [];
      var chosen: LODMesh? := null;
      var i := 0;
      while i < |detailsLevel|
        invariant 0 <= i <= |detailsLevel| && |meshes| == i
        invariant forall j :: 0 <= j < i ==>
          fresh(meshes[j]) && meshes[j].Valid() && meshes[j].lod == detailsLevel[j].lod &&
          !meshes[j].hasRequestedMesh && !meshes[j].hasMesh
        invariant forall j, k :: 0 <= j < k < i ==> meshes[j] != meshes[k]
        invariant HasCollider(detailsLevel[..i]) ==>
          chosen == meshes[LastColliderIndex(detailsLevel[..i])]
      {
        var m := new LODMesh(detailsLevel[i].lod);
        if detailsLevel[i].useForCollider {
          chosen := m;
        } else if HasCollider(detailsLevel[..i + 1]) {
          assert detailsLevel[..i + 1][..i] == detailsLevel[..i];
          var w :| 0 <= w < i + 1 && detailsLevel[..i + 1][w].useForCollider;
          assert detailsLevel[..i][w].useForCollider;
        }
        meshes := meshes + [m];
        i := i + 1;
      }
      assert detailsLevel[..i] == detailsLevel;
      collision := chosen;
    }

    /** OnMapDataReceived: store the data, then update as on any frame. */
    method OnMapDataReceived(data: MapData)
      requires Valid() && world !in Repr && !mapDataReceived
      modifies Repr, world`terrainChunkVisibleLastFrame
      ensures Valid() && mapDataReceived && mapData == Some(data)
      ensures Updated(true)
    {
      mapData := Some(data);
      mapDataReceived := true;
      assert State() == old(State()).(mapData := mapData);
      UpdateTerrainChunk();
    }

    method UpdateTerrainChunk()
      requires Valid() && world !in Repr
      modifies Repr, world`terrainChunkVisibleLastFrame
      ensures Valid()
      ensures mapData == old(mapData) && mapDataReceived == old(mapDataReceived)
      ensures Updated(old(mapDataReceived))
    {
      if mapDataReceived {
        var sqrDist := SqrDistance(bounds, world.viewerPosition);
        var visible := Within(sqrDist, world.maxViewDistance);
        if visible {
          ShowNear(sqrDist);
          ShownUpdated();
        } else {
          label Hidden:
          SetVisible(visible);
          assert State() == old@Hidden(State());
        }
      }
    }

    /** UpdateTerrainChunk for a chunk whose data has arrived and whose
        nearest edge is within the view distance. */
    method ShowNear(sqrDist: real)
      requires Valid() && world !in Repr && mapDataReceived
      requires sqrDist == SqrDistance(bounds, world.viewerPosition)
      requires Within(sqrDist, world.maxViewDistance)
      modifies Repr, world`terrainChunkVisibleLastFrame
      ensures Valid()
      ensures mapData == old(mapData) && mapDataReceived == old(mapDataReceived)
      ensures active && world.terrainChunkVisibleLastFrame == old(world.terrainChunkVisibleLastFrame) + [this]
      ensures LodSwitched(LodIndex(detailsLevel, sqrDist))
    {
      var lodIndex := SelectLod(detailsLevel, sqrDist);
      UpdateLod(lodIndex);
      Enlist();
    }

    /** The end of UpdateTerrainChunk for a shown chunk:
        terrainChunkVisibleLastFrame.Add(this), then SetVisible(true). */
    method Enlist()
      modifies world`terrainChunkVisibleLastFrame, this`active
      ensures active && world.terrainChunkVisibleLastFrame == old(world.terrainChunkVisibleLastFrame) + [this]
    {
      world.terrainChunkVisibleLastFrame := world.terrainChunkVisibleLastFrame + [this];
      SetVisible(true);
    }

    /** The mesh part of UpdateTerrainChunk for a shown chunk at level
        lodIndex: the level switch and, at level 0, the collider step. */
    method UpdateLod(lodIndex: nat)
      requires Valid() && mapDataReceived && lodIndex < |lodMeshes|
      modifies Repr - {this}, this`previousLODIndex, this`filterMesh, this`colliderMesh
      ensures Valid()
      ensures LodSwitched(lodIndex)
    {
      SwitchLod(lodIndex);
      label Switched:
      if lodIndex == 0 {
        UseCollisionMesh();
      }
      forall i | 0 <= i < |lodMeshes|
        ensures lodMeshes[i].requests == old(lodMeshes[i].requests) +
          (if !old(lodMeshes[i].hasRequestedMesh) &&
              ((i == lodIndex && lodIndex != old(previousLODIndex)) || (lodIndex == 0 && lodMeshes[i] == collisionLODMesh))
           then [MeshRequest(mapData.value, lodMeshes[i].lod)] else [])
      {
        assert old@Switched(lodMeshes[i].hasRequestedMesh) == (old(lodMeshes[i].hasRequestedMesh) ||
          (i == lodIndex && lodIndex != old(previousLODIndex)));
      }
    }

    /** The level switch of UpdateTerrainChunk: when lodIndex differs from
        the level in use, show that level's mesh if it is there, or else
        request it if that has not been done. */
    method SwitchLod(lodIndex: nat)
      requires Valid() && mapDataReceived && lodIndex < |lodMeshes|
      modifies this`previousLODIndex, this`filterMesh, this`colliderMesh, lodMeshes[lodIndex]
      ensures Valid()
      ensures var adopt := lodIndex != old(previousLODIndex) && old(lodMeshes[lodIndex].hasMesh);
        previousLODIndex == (if adopt then lodIndex else old(previousLODIndex)) &&
        filterMesh == (if adopt then old(lodMeshes[lodIndex].mesh) else old(filterMesh)) &&
        colliderMesh == (if adopt then old(lodMeshes[lodIndex].mesh) else old(colliderMesh))
      ensures forall i :: 0 <= i < |lodMeshes| ==>
        lodMeshes[i].hasMesh == old(lodMeshes[i].hasMesh) &&
        lodMeshes[i].mesh == old(lodMeshes[i].mesh) &&
        lodMeshes[i].requests == old(lodMeshes[i].requests) +
          (if i == lodIndex && lodIndex != old(previousLODIndex) && !old(lodMeshes[i].hasRequestedMesh)
           then [MeshRequest(mapData.value, lodMeshes[i].lod)] else [])
    {
      if lodIndex != previousLODIndex {
        var lodMesh := lodMeshes[lodIndex];
        if lodMesh.hasMesh {
          previousLODIndex := lodIndex;
          filterMesh := lodMesh.mesh;
          colliderMesh := lodMesh.mesh;
        } else if !lodMesh.hasRequestedMesh {
          lodMesh.RequestMesh(mapData.value);
        }
      }
    }

    /** The level-0 step of UpdateTerrainChunk: the collider takes the
        collision slot's mesh if it is there; otherwise that mesh is
        requested if that has not been done. */
    method UseCollisionMesh()
      requires Valid() && mapDataReceived
      modifies this`colliderMesh, collisionLODMesh
      ensures Valid()
      ensures colliderMesh ==
        (if old(collisionLODMesh.hasMesh) then old(collisionLODMesh.mesh) else old(colliderMesh))
      ensures forall i :: 0 <= i < |lodMeshes| ==>
        lodMeshes[i].hasMesh == old(lodMeshes[i].hasMesh) &&
        lodMeshes[i].mesh == old(lodMeshes[i].mesh) &&
        lodMeshes[i].requests == old(lodMeshes[i].requests) +
          (if lodMeshes[i] == collisionLODMesh && !old(lodMeshes[i].hasRequestedMesh)
           then [MeshRequest(mapData.value, lodMeshes[i].lod)] else [])
    {
      if collisionLODMesh.hasMesh {
        colliderMesh := collisionLODMesh.mesh;
      } else if !collisionLODMesh.hasRequestedMesh {
        collisionLODMesh.RequestMesh(mapData.value);
      }
    }

    method SetVisible(visible: bool)
      modifies this`active
      ensures active == visible
    {
      active := visible;
    }
  }

  /** A map that differs from m0 at most at key k, which it holds, is m0
      with k set to its value there. */
  lemma ChangedAt<V>(m: map<ChunkCoord, V>, m0: map<ChunkCoord, V>, k: ChunkCoord)
    requires m.Keys == m0.Keys + {k}
    requires forall p :: p in m0 && p != k ==> m[p] == m0[p]
    ensures m == m0[k := m[k]]
  {
  }

  /** The chunks of a controller as values: the dictionary, whether each
      chunk is shown, the keys whose chunk has its map data, and each
      chunk's state. */
  datatype Chunks = Chunks(dict: map<ChunkCoord, TerrainChunk>, shown: map<ChunkCoord, bool>,
                           received: set<ChunkCoord>, states: map<ChunkCoord, ChunkState>)
  {
    /** Every map and set is over the dictionary's keys. */
    predicate Keyed()
    {
      shown.Keys == dict.Keys && states.Keys == dict.Keys && received <= dict.Keys
    }

    /** The chunks once the one under coord has taken one update for a
        viewer at viewer seeing as far as maxView: it is shown exactly when
        it has its map data and is in view, and nothing else changes. */
    ghost function Refresh(coord: ChunkCoord, viewer: Vec2, maxView: real): (r: Chunks)
      requires Keyed() && coord in dict
      ensures r.Keyed() && r.dict == dict && r.received == received
      ensures r.shown[coord] <==> coord in received && InView(dict[coord], viewer, maxView)
    {
      this.(shown := shown[coord := coord in received && InView(dict[coord], viewer, maxView)],
            states := states[coord := dict[coord].Refreshed(states[coord], viewer, maxView)])
    }
  }

  /** Chunks that agree with now.Refresh(coord, viewer, maxView) part by
      part are that value. */
  lemma RefreshMatches(now: Chunks, next: Chunks, coord: ChunkCoord, viewer: Vec2, maxView: real)
    requires now.Keyed() && coord in now.dict
    requires next.dict == now.dict && next.received == now.received
    requires next.shown == now.shown[coord := coord in now.received && InView(now.dict[coord], viewer, maxView)]
    requires next.states == now.states[coord := now.dict[coord].Refreshed(now.states[coord], viewer, maxView)]
    ensures next == now.Refresh(coord, viewer, maxView)
  {
  }

  /** The chunk's nearest edge is within maxViewDistance of the viewer. */
  predicate InView(c: TerrainChunk, viewer: Vec2, maxViewDistance: real)
  {
    Within(SqrDistance(c.bounds, viewer), maxViewDistance)
  }

  /** Whether the scan of the window of radius r around centre, row by row
      from the lowest, has visited p before reaching offset (yOff, xOff). */
  predicate Visited(p: ChunkCoord, centre: ChunkCoord, r: int, yOff: int, xOff: int)
  {
    InWindow(p, centre, r) &&
    (p.1 < centre.1 + yOff || (p.1 == centre.1 + yOff && p.0 < centre.0 + xOff))
  }

  /** One step along a row visits exactly the coordinate under the scan. */
  lemma VisitedStep(centre: ChunkCoord, r: int, yOff: int, xOff: int)
    requires -r <= xOff <= r && -r <= yOff <= r
    ensures forall p :: Visited(p, centre, r, yOff, xOff + 1) <==>
      Visited(p, centre, r, yOff, xOff) || p == (centre.0 + xOff, centre.1 + yOff)
  {
    forall p ensures Visited(p, centre, r, yOff, xOff + 1) <==>
      Visited(p, centre, r, yOff, xOff) || p == (centre.0 + xOff, centre.1 + yOff)
    {
      if p.0 == centre.0 + xOff && p.1 == centre.1 + yOff {
        assert InWindow(p, centre, r);
      }
    }
  }

  /** Where a recompute that started from the chunks start, whose objects
      were startRepr, stands once its scan of the window of radius r around
      centre has reached offset (yOff, xOff), for a viewer at viewer seeing
      as far as maxView: exactly the visited coordinates were added; old
      chunks stay under their keys, a visited one having taken one update
      and any other keeping its state; added chunks are new; no chunk
      gained or lost its map data; and a chunk is shown exactly when it
      was visited, has its map data and is in view. */
  ghost predicate ScanAt(now: Chunks, start: Chunks, startRepr: set<object>, viewer: Vec2, maxView: real,
                         centre: ChunkCoord, r: int, yOff: int, xOff: int)
  {
    start.Keyed() && now.Keyed() && now.received == start.received &&
    (forall p :: p in now.dict <==> p in start.dict || Visited(p, centre, r, yOff, xOff)) &&
    (forall p :: p in start.dict ==> now.dict[p] == start.dict[p]) &&
    (forall p :: p in start.dict ==>
      now.states[p] ==
        if Visited(p, centre, r, yOff, xOff)
        then start.dict[p].Refreshed(start.states[p], viewer, maxView)
        else start.states[p]) &&
    (forall p :: p in now.dict && p !in start.dict ==> now.dict[p] !in startRepr) &&
    (forall p :: p in now.dict ==>
      (now.shown[p] <==> Visited(p, centre, r, yOff, xOff) && p in now.received && InView(now.dict[p], viewer, maxView)))
  }

  /** The outcome of a recompute that started from the chunks start, whose
      objects were startRepr, over the window of radius r around centre:
      the keys are the old keys plus the window; old chunks stay under
      their keys, one in the window having taken one update and any other
      keeping its state; added chunks are new; no chunk gained or lost its
      map data; and a chunk is shown exactly when it lies in the window,
      has its map data and is in view. */
  ghost predicate RecomputedAt(now: Chunks, start: Chunks, startRepr: set<object>, viewer: Vec2, maxView: real,
                               centre: ChunkCoord, r: int)
  {
    start.Keyed() && now.Keyed() && now.received == start.received &&
    (forall p :: p in now.dict <==> p in start.dict || InWindow(p, centre, r)) &&
    (forall p :: p in start.dict ==> now.dict[p] == start.dict[p]) &&
    (forall p :: p in start.dict ==>
      now.states[p] ==
        if InWindow(p, centre, r)
        then start.dict[p].Refreshed(start.states[p], viewer, maxView)
        else start.states[p]) &&
    (forall p :: p in now.dict && p !in start.dict ==> now.dict[p] !in startRepr) &&
    (forall p :: p in now.dict ==>
      (now.shown[p] <==> InWindow(p, centre, r) && p in now.received && InView(now.dict[p], viewer, maxView)))
  }

  /** Before the scan, with every chunk hidden and none changed, nothing
      has been visited. */
  lemma ScanStarts(now: Chunks, start: Chunks, startRepr: set<object>, viewer: Vec2, maxView: real,
                   centre: ChunkCoord, r: int)
    requires start.Keyed() && now.Keyed()
    requires now.dict == start.dict && now.received == start.received && now.states == start.states
    requires forall p :: p in now.shown ==> !now.shown[p]
    ensures ScanAt(now, start, startRepr, viewer, maxView, centre, r, -r, -r)
  {
    var lo := -r;
    assert forall p :: !Visited(p, centre, r, lo, lo);
  }

  /** Updating the chunk under the coordinate reached moves the scan one
      step on. */
  lemma ScanStepKnown(now: Chunks, start: Chunks, startRepr: set<object>, viewer: Vec2, maxView: real,
                      centre: ChunkCoord, r: int, yOff: int, xOff: int)
    requires ScanAt(now, start, startRepr, viewer, maxView, centre, r, yOff, xOff)
    requires -r <= xOff <= r && -r <= yOff <= r
    requires (centre.0 + xOff, centre.1 + yOff) in now.dict
    ensures ScanAt(now.Refresh((centre.0 + xOff, centre.1 + yOff), viewer, maxView),
                   start, startRepr, viewer, maxView, centre, r, yOff, xOff + 1)
  {
    var coord := (centre.0 + xOff, centre.1 + yOff);
    var next := now.Refresh(coord, viewer, maxView);
    VisitedStep(centre, r, yOff, xOff);
    forall p | p in start.dict
      ensures next.states[p] ==
        if Visited(p, centre, r, yOff, xOff + 1)
        then start.dict[p].Refreshed(start.states[p], viewer, maxView)
        else start.states[p]
    {
      if p == coord {
        assert !Visited(p, centre, r, yOff, xOff);
      }
    }
    forall p | p in next.dict
      ensures next.shown[p] <==>
        Visited(p, centre, r, yOff, xOff + 1) && p in next.received && InView(next.dict[p], viewer, maxView)
    {
    }
  }

  /** Putting a new hidden chunk, without its map data, under the free
      coordinate reached moves the scan one step on. */
  lemma ScanStepNew(now: Chunks, chunk: TerrainChunk, s: ChunkState, start: Chunks, startRepr: set<object>,
                    viewer: Vec2, maxView: real, centre: ChunkCoord, r: int, yOff: int, xOff: int)
    requires ScanAt(now, start, startRepr, viewer, maxView, centre, r, yOff, xOff)
    requires -r <= xOff <= r && -r <= yOff <= r
    requires (centre.0 + xOff, centre.1 + yOff) !in now.dict && chunk !in startRepr
    ensures var coord := (centre.0 + xOff, centre.1 + yOff);
      ScanAt(Chunks(now.dict[coord := chunk], now.shown[coord := false], now.received, now.states[coord := s]),
             start, startRepr, viewer, maxView, centre, r, yOff, xOff + 1)
  {
    VisitedStep(centre, r, yOff, xOff);
  }

  /** A scan at the end of a row stands where the next row begins. */
  lemma RowComplete(now: Chunks, start: Chunks, startRepr: set<object>, viewer: Vec2, maxView: real,
                    centre: ChunkCoord, r: int, yOff: int)
    requires ScanAt(now, start, startRepr, viewer, maxView, centre, r, yOff, r + 1)
    ensures ScanAt(now, start, startRepr, viewer, maxView, centre, r, yOff + 1, -r)
  {
    var rowEnd, next, lo := r + 1, yOff + 1, -r;
    assert forall p :: Visited(p, centre, r, yOff, rowEnd) == Visited(p, centre, r, next, lo);
  }

  /** A scan past its last row has visited the whole window. */
  lemma ScanComplete(now: Chunks, start: Chunks, startRepr: set<object>, viewer: Vec2, maxView: real,
                     centre: ChunkCoord, r: int, yOff: int)
    requires r < yOff && (r < 0 || yOff == r + 1)
    requires ScanAt(now, start, startRepr, viewer, maxView, centre, r, yOff, -r)
    ensures RecomputedAt(now, start, startRepr, viewer, maxView, centre, r)
  {
    assert forall p :: Visited(p, centre, r, yOff, -r) == InWindow(p, centre, r);
  }

  /** A recompute never takes back a chunk's map data, a mesh request or
      a mesh. */
  lemma RecomputedProgresses(now: Chunks, start: Chunks, startRepr: set<object>, viewer: Vec2, maxView: real,
                             centre: ChunkCoord, r: int)
    requires RecomputedAt(now, start, startRepr, viewer, maxView, centre, r)
    ensures forall p :: p in start.dict ==>
      Progressed(start.states[p], now.states[p]) && now.states[p].mapData == start.states[p].mapData
  {
    forall p | p in start.dict
      ensures Progressed(start.states[p], now.states[p]) && now.states[p].mapData == start.states[p].mapData
    {
      start.dict[p].RefreshedProgresses(start.states[p], viewer, maxView);
    }
  }

  /** EndlessLand: the controller. It tracks the viewer, keeps every chunk
      it has ever created in a dictionary keyed by grid coordinate, and
      shows exactly the chunks near the viewer. The source's static fields
      (viewerPosition, maxViewDistance, the visible list) are fields of the
      one controller, which every chunk references. */
  class EndlessLand {
    const detailLevels: seq<LODInfo>
    /** MapGenerator.mapChunkSize */
    const mapChunkSize: int
    var viewerPosition: Vec2
    var oldPositionViewer: Vec2
    var chunkSize: int
    var chunksVisibleInViewDistance: int
    var maxViewDistance: real
    var terrainChunkDictionary: map<ChunkCoord, TerrainChunk>
    var terrainChunkVisibleLastFrame: seq<TerrainChunk>
    ghost var Repr: set<object>

    /** The chunk under key p is the chunk of that coordinate, placed for
        chunks mapChunkSize - 1 units wide (the chunkSize Start sets), shares
        the controller's level table, reports to this controller, and is
        consistent. */
    ghost predicate ChunkOk(p: ChunkCoord)
      requires p in terrainChunkDictionary
      reads this, Repr
    {
      var c := terrainChunkDictionary[p];
      c in Repr && c.Repr <= Repr && this !in c.Repr && c.world == this &&
      c.PlacedAt(p, mapChunkSize - 1) && c.detailsLevel == detailLevels && c.Valid()
    }

    /** Every chunk in the dictionary, and each of its slots, is in the
        footprint. */
    ghost predicate Registered()
      reads this`terrainChunkDictionary, this`Repr
    {
      forall p :: p in terrainChunkDictionary ==>
        terrainChunkDictionary[p] in Repr &&
        forall i :: 0 <= i < |terrainChunkDictionary[p].lodMeshes| ==>
          terrainChunkDictionary[p].lodMeshes[i] in Repr
    }

    /** The state of every chunk, by key. */
    ghost function States(): map<ChunkCoord, ChunkState>
      requires Registered()
      reads this`terrainChunkDictionary, this`Repr, Repr - {this}
    {
      map p | p in terrainChunkDictionary :: terrainChunkDictionary[p].State()
    }

    ghost predicate ChunksValid()
      reads this, Repr
    {
      Registered() &&
      (forall p {:trigger ChunkOk(p)} :: p in terrainChunkDictionary ==> ChunkOk(p))
    }

    /** Distinct chunks own disjoint objects. */
    ghost predicate ChunksSeparate()
      reads this
    {
      forall p, q {:trigger terrainChunkDictionary[p].Repr, terrainChunkDictionary[q].Repr} ::
        p in terrainChunkDictionary && q in terrainChunkDictionary && p != q ==>
        terrainChunkDictionary[p].Repr !! terrainChunkDictionary[q].Repr
    }

    /** The visible list holds each shown chunk once and nothing else, and
        only a chunk with map data is shown. */
    ghost predicate ListedExactlyShown()
      requires ChunksValid()
      reads this, Repr
    {
      (forall i :: 0 <= i < |terrainChunkVisibleLastFrame| ==>
        terrainChunkVisibleLastFrame[i].coord in terrainChunkDictionary &&
        terrainChunkDictionary[terrainChunkVisibleLastFrame[i].coord] == terrainChunkVisibleLastFrame[i]) &&
      (forall i, j :: 0 <= i < j < |terrainChunkVisibleLastFrame| ==>
        terrainChunkVisibleLastFrame[i] != terrainChunkVisibleLastFrame[j]) &&
      (forall p :: p in terrainChunkDictionary ==>
        (terrainChunkDictionary[p].active <==> terrainChunkDictionary[p] in terrainChunkVisibleLastFrame)) &&
      (forall p :: p in terrainChunkDictionary && terrainChunkDictionary[p].active ==>
        terrainChunkDictionary[p].mapDataReceived)
    }

    ghost predicate Valid()
      reads this, Repr
    {
      this in Repr && WellConfigured(detailLevels) && mapChunkSize > 1 &&
      ChunksValid() && ChunksSeparate() && ListedExactlyShown()
    }

    /** What Start sets up: the view distance is the last level's threshold,
        a chunk spans mapChunkSize - 1 units, and the scan radius is the
        view distance in chunks, rounded. */
    ghost predicate Started()
      reads this
    {
      |detailLevels| > 0 && chunkSize > 0 &&
      maxViewDistance == detailLevels[|detailLevels| - 1].visibleDistanceThreshold &&
      chunkSize == mapChunkSize - 1 &&
      chunksVisibleInViewDistance == RoundToInt(maxViewDistance / (chunkSize as real))
    }

    /** The chunk under key p sits at p times chunkSize with a chunkSize box
        there, and asked for its map data at that position. */
    ghost predicate PlacedKey(p: ChunkCoord)
      requires p in terrainChunkDictionary
      reads this`terrainChunkDictionary, this`chunkSize, terrainChunkDictionary[p]
    {
      terrainChunkDictionary[p].PlacedAt(p, chunkSize) &&
      terrainChunkDictionary[p].mapRequests == [terrainChunkDictionary[p].position]
    }

    /** Every chunk is placed under its key. */
    ghost predicate Placed()
      reads this`terrainChunkDictionary, this`chunkSize, terrainChunkDictionary.Values
    {
      forall p :: p in terrainChunkDictionary ==> PlacedKey(p)
    }

    /** The chunk coordinate the viewer stands in, each axis rounded: the
        viewer lies in the box of the chunk at that coordinate. */
    function ViewerChunk(): (c: ChunkCoord)
      requires chunkSize > 0
      reads this`viewerPosition, this`chunkSize
      ensures ChunkBounds(c, chunkSize).Contains(viewerPosition)
    {
      RoundedScaled(viewerPosition.x, chunkSize);
      RoundedScaled(viewerPosition.y, chunkSize);
      (RoundToInt(viewerPosition.x / (chunkSize as real)), RoundToInt(viewerPosition.y / (chunkSize as real)))
    }

    /** The chunk's nearest edge is within the view distance. */
    ghost predicate NearViewer(c: TerrainChunk)
      reads this`viewerPosition, this`maxViewDistance
    {
      InView(c, viewerPosition, maxViewDistance)
    }

    /** The keys whose chunk has its map data. */
    ghost function ReceivedKeys(): set<ChunkCoord>
      requires Registered()
      reads this`terrainChunkDictionary, this`Repr, Repr - {this}
    {
      set p | p in terrainChunkDictionary && terrainChunkDictionary[p].mapDataReceived
    }

    /** Whether each chunk is shown, by key. */
    ghost function Shown(): map<ChunkCoord, bool>
      requires Registered()
      reads this`terrainChunkDictionary, this`Repr, Repr - {this}
    {
      map p | p in terrainChunkDictionary :: terrainChunkDictionary[p].active
    }

    /** The chunks as values. */
    ghost function Snapshot(): (s: Chunks)
      requires Registered()
      reads this`terrainChunkDictionary, this`Repr, Repr - {this}
      ensures s.dict == terrainChunkDictionary && s.Keyed()
    {
      Chunks(terrainChunkDictionary, Shown(), ReceivedKeys(), States())
    }

    /** The settings a recompute leaves alone. */
    twostate predicate Unmoved()
      reads this
    {
      viewerPosition == old(viewerPosition) && oldPositionViewer == old(oldPositionViewer) &&
      chunkSize == old(chunkSize) && maxViewDistance == old(maxViewDistance) &&
      chunksVisibleInViewDistance == old(chunksVisibleInViewDistance)
    }

    /** The scan of a recompute that started from the chunks start, whose
        objects were startRepr, has reached offset (yOff, xOff) of the
        window of radius r around centre. */
    ghost predicate Scanned(start: Chunks, startRepr: set<object>, centre: ChunkCoord, r: int, yOff: int, xOff: int)
      requires Registered()
      reads this`terrainChunkDictionary, this`Repr, this`viewerPosition, this`maxViewDistance, Repr - {this}
    {
      ScanAt(Snapshot(), start, startRepr, viewerPosition, maxViewDistance, centre, r, yOff, xOff)
    }

    /** The chunks are what a recompute that started from the chunks start,
        whose objects were startRepr, leaves: RecomputedAt over the window
        around the viewer's chunk. */
    ghost predicate Recomputed(start: Chunks, startRepr: set<object>)
      requires Registered() && chunkSize > 0
      reads this`terrainChunkDictionary, this`Repr, this`viewerPosition, this`chunkSize,
        this`chunksVisibleInViewDistance, this`maxViewDistance, Repr - {this}
    {
      RecomputedAt(Snapshot(), start, startRepr, viewerPosition, maxViewDistance,
                   ViewerChunk(), chunksVisibleInViewDistance)
    }

    /** RowComplete for the chunks as they stand. */
    lemma ScannedRow(start: Chunks, startRepr: set<object>, centre: ChunkCoord, r: int, yOff: int)
      requires Registered() && Scanned(start, startRepr, centre, r, yOff, r + 1)
      ensures Scanned(start, startRepr, centre, r, yOff + 1, -r)
    {
      RowComplete(Snapshot(), start, startRepr, viewerPosition, maxViewDistance, centre, r, yOff);
    }

    constructor (detailLevels: seq<LODInfo>, mapChunkSize: int)
      requires WellConfigured(detailLevels) && mapChunkSize > 1
      ensures Valid() && fresh(Repr)
      ensures this.detailLevels == detailLevels && this.mapChunkSize == mapChunkSize
      ensures terrainChunkDictionary == map[] && terrainChunkVisibleLastFrame == []
      ensures viewerPosition == Vec2(0.0, 0.0) && oldPositionViewer == Vec2(0.0, 0.0)
    {
      this.detailLevels := detailLevels;
      this.mapChunkSize := mapChunkSize;
      viewerPosition := Vec2(0.0, 0.0);
      oldPositionViewer := Vec2(0.0, 0.0);
      chunkSize := 0;
      chunksVisibleInViewDistance := 0;
      maxViewDistance := 0.0;
      terrainChunkDictionary := map[];
      terrainChunkVisibleLastFrame := [];
      Repr := {this};
    }

    method Start()
      requires Valid()
      modifies Repr
      ensures Valid() && Started() && fresh(Repr - old(Repr))
      ensures viewerPosition == old(viewerPosition) && oldPositionViewer == old(oldPositionViewer)
      ensures Recomputed(old(Snapshot()), old(Repr))
    {
      maxViewDistance := detailLevels[|detailLevels| - 1].visibleDistanceThreshold;
      chunkSize := mapChunkSize - 1;
      chunksVisibleInViewDistance := RoundToInt(maxViewDistance / (chunkSize as real));
      SnapshotKept();
      ValidKept();
      ghost var _ := UpdateVisibleChunks();
    }

    /** One frame: the viewer's (x, z) position, divided by the scale,
        becomes viewerPosition; the chunks are recomputed, and the baseline
        moved, only when the viewer has moved more than the threshold from
        the baseline. */
    method Update(viewerX: real, viewerZ: real)
      requires Valid() && Started()
      modifies Repr
      ensures Valid() && Started() && fresh(Repr - old(Repr))
      ensures viewerPosition == Vec2(viewerX / Scale, viewerZ / Scale)
      ensures var moved := SqrMagnitude(Sub(old(oldPositionViewer), viewerPosition)) > SqrViewerMoveThresholdForChunkUpdate;
        (moved ==> oldPositionViewer == viewerPosition && Recomputed(old(Snapshot()), old(Repr))) &&
        (!moved ==> oldPositionViewer == old(oldPositionViewer) &&
                    terrainChunkDictionary == old(terrainChunkDictionary) &&
                    terrainChunkVisibleLastFrame == old(terrainChunkVisibleLastFrame) &&
                    unchanged(old(Repr) - {this}))
    {
      viewerPosition := Vec2(viewerX / Scale, viewerZ / Scale);
      SnapshotKept();
      ValidKept();
      if SqrMagnitude(Sub(oldPositionViewer, viewerPosition)) > SqrViewerMoveThresholdForChunkUpdate {
        ghost var _ := UpdateVisibleChunks();
        label Recomputed:
        oldPositionViewer := viewerPosition;
        ValidKept@Recomputed();
      }
    }

    /** The recompute: hide the shown chunks, then scan the window around
        the viewer's chunk row by row, updating or creating the chunk under
        each coordinate. The coordinates scanned, in order, are visited:
        the window, each coordinate once. */
    method UpdateVisibleChunks() returns (ghost visited: seq<ChunkCoord>)
      requires Valid() && chunkSize == mapChunkSize - 1
      modifies this`terrainChunkDictionary, this`terrainChunkVisibleLastFrame, this`Repr, Repr - {this}
      ensures Valid() && old(Repr) <= Repr && fresh(Repr - old(Repr)) && Unmoved()
      ensures Recomputed(old(Snapshot()), old(Repr))
      ensures forall p :: p in old(terrainChunkDictionary) ==>
        Progressed(old(terrainChunkDictionary[p].State()), terrainChunkDictionary[p].State())
      ensures visited == Window(ViewerChunk(), chunksVisibleInViewDistance) && Distinct(visited)
      ensures Placed()
    {
      ghost var start, startRepr := Snapshot(), Repr;
      HideVisible();
      var centre := ViewerChunk();
      var r := chunksVisibleInViewDistance;
      ScanStarts(Snapshot(), start, startRepr, viewerPosition, maxViewDistance, centre, r);
      visited := ScanWindow(centre, r, start, startRepr);
      RecomputedProgresses(Snapshot(), start, startRepr, viewerPosition, maxViewDistance, centre, r);
      WindowVisitsSquare(centre, r);
      forall p | p in terrainChunkDictionary ensures PlacedKey(p) {
        assert ChunkOk(p);
      }
    }

    /** The two nested loops of the recompute, over the window of radius r
        around centre. */
    method ScanWindow(centre: ChunkCoord, r: int, ghost start: Chunks, ghost startRepr: set<object>)
      returns (ghost visited: seq<ChunkCoord>)
      requires Valid() && chunkSize == mapChunkSize - 1 && startRepr <= Repr
      requires Scanned(start, startRepr, centre, r, -r, -r)
      modifies this`terrainChunkDictionary, this`terrainChunkVisibleLastFrame, this`Repr, Repr - {this}
      ensures Valid() && old(Repr) <= Repr && fresh(Repr - old(Repr))
      ensures RecomputedAt(Snapshot(), start, startRepr, viewerPosition, maxViewDistance, centre, r)
      ensures visited == Window(centre, r)
    {
      visited := [];
      var yOffset := -r;
      while yOffset <= r
        invariant r < 0 || yOffset <= r + 1
        invariant visited + WindowRows(centre, r, yOffset) == Window(centre, r)
        invariant Valid() && old(Repr) <= Repr && fresh(Repr - old(Repr))
        invariant Scanned(start, startRepr, centre, r, yOffset, -r)
      {
        RowsAppend(visited, centre, r, yOffset);
        ghost var row := ScanRow(centre, r, yOffset, start, startRepr);
        visited := visited + row;
        yOffset := yOffset + 1;
      }
      ScanComplete(Snapshot(), start, startRepr, viewerPosition, maxViewDistance, centre, r, yOffset);
    }

    /** One row of the scan. */
    method ScanRow(centre: ChunkCoord, r: int, yOffset: int, ghost start: Chunks, ghost startRepr: set<object>)
      returns (ghost row: seq<ChunkCoord>)
      requires Valid() && chunkSize == mapChunkSize - 1 && -r <= yOffset <= r && startRepr <= Repr
      requires Scanned(start, startRepr, centre, r, yOffset, -r)
      modifies this`terrainChunkDictionary, this`terrainChunkVisibleLastFrame, this`Repr, Repr - {this}
      ensures Valid() && old(Repr) <= Repr && fresh(Repr - old(Repr))
      ensures Scanned(start, startRepr, centre, r, yOffset + 1, -r)
      ensures row == WindowRow(centre, r, yOffset, -r)
    {
      row := [];
      var xOffset := -r;
      while xOffset <= r
        invariant xOffset <= r + 1
        invariant row + WindowRow(centre, r, yOffset, xOffset) == WindowRow(centre, r, yOffset, -r)
        invariant Valid() && old(Repr) <= Repr && fresh(Repr - old(Repr))
        invariant Scanned(start, startRepr, centre, r, yOffset, xOffset)
      {
        CellAppend(row, centre, r, yOffset, xOffset);
        row := row + [(centre.0 + xOffset, centre.1 + yOffset)];
        VisitChunk((centre.0 + xOffset, centre.1 + yOffset), centre, r, yOffset, xOffset, start, startRepr);
        xOffset := xOffset + 1;
      }
      ScannedRow(start, startRepr, centre, r, yOffset);
    }

    /** The body of the scan: update the chunk at viewedChunkCoord if there
        is one, else create one there. */
    method VisitChunk(viewedChunkCoord: ChunkCoord, ghost centre: ChunkCoord, ghost r: int,
                      ghost yOffset: int, ghost xOffset: int, ghost start: Chunks, ghost startRepr: set<object>)
      requires Valid() && chunkSize == mapChunkSize - 1 && startRepr <= Repr
      requires -r <= xOffset <= r && -r <= yOffset <= r
      requires viewedChunkCoord == (centre.0 + xOffset, centre.1 + yOffset)
      requires Scanned(start, startRepr, centre, r, yOffset, xOffset)
      modifies this`terrainChunkDictionary, this`terrainChunkVisibleLastFrame, this`Repr, Repr - {this}
      ensures Valid() && old(Repr) <= Repr && fresh(Repr - old(Repr))
      ensures Scanned(start, startRepr, centre, r, yOffset, xOffset + 1)
    {
      if viewedChunkCoord in terrainChunkDictionary {
        VisitKnown(viewedChunkCoord, centre, r, yOffset, xOffset, start, startRepr);
      } else {
        VisitNew(viewedChunkCoord, centre, r, yOffset, xOffset, start, startRepr);
      }
    }

    /** The scan reaches a coordinate that has a chunk. */
    method VisitKnown(viewedChunkCoord: ChunkCoord, ghost centre: ChunkCoord, ghost r: int,
                      ghost yOffset: int, ghost xOffset: int, ghost start: Chunks, ghost startRepr: set<object>)
      requires Valid() && viewedChunkCoord in terrainChunkDictionary
      requires -r <= xOffset <= r && -r <= yOffset <= r
      requires viewedChunkCoord == (centre.0 + xOffset, centre.1 + yOffset)
      requires Scanned(start, startRepr, centre, r, yOffset, xOffset)
      modifies this`terrainChunkVisibleLastFrame, Repr - {this}
      ensures Valid() && Repr == old(Repr)
      ensures Scanned(start, startRepr, centre, r, yOffset, xOffset + 1)
    {
      assert ChunkOk(viewedChunkCoord) ==> terrainChunkDictionary[viewedChunkCoord].Repr <= Repr - {this};
      ScannedStepKnown(start, startRepr, centre, r, yOffset, xOffset);
      RefreshChunk(viewedChunkCoord);
    }

    /** ScanStepKnown for the chunks as they stand. */
    lemma ScannedStepKnown(start: Chunks, startRepr: set<object>, centre: ChunkCoord, r: int, yOff: int, xOff: int)
      requires Registered() && Scanned(start, startRepr, centre, r, yOff, xOff)
      requires -r <= xOff <= r && -r <= yOff <= r
      requires (centre.0 + xOff, centre.1 + yOff) in terrainChunkDictionary
      ensures !terrainChunkDictionary[(centre.0 + xOff, centre.1 + yOff)].active
      ensures ScanAt(Snapshot().Refresh((centre.0 + xOff, centre.1 + yOff), viewerPosition, maxViewDistance),
                     start, startRepr, viewerPosition, maxViewDistance, centre, r, yOff, xOff + 1)
    {
      assert !Visited((centre.0 + xOff, centre.1 + yOff), centre, r, yOff, xOff);
      ScanStepKnown(Snapshot(), start, startRepr, viewerPosition, maxViewDistance, centre, r, yOff, xOff);
    }

    /** The scan reaches a coordinate without a chunk. */
    method VisitNew(viewedChunkCoord: ChunkCoord, ghost centre: ChunkCoord, ghost r: int,
                    ghost yOffset: int, ghost xOffset: int, ghost start: Chunks, ghost startRepr: set<object>)
      requires Valid() && chunkSize == mapChunkSize - 1 && startRepr <= Repr && viewedChunkCoord !in terrainChunkDictionary
      requires -r <= xOffset <= r && -r <= yOffset <= r
      requires viewedChunkCoord == (centre.0 + xOffset, centre.1 + yOffset)
      requires Scanned(start, startRepr, centre, r, yOffset, xOffset)
      modifies this`terrainChunkDictionary, this`Repr
      ensures Valid() && old(Repr) <= Repr && fresh(Repr - old(Repr))
      ensures Scanned(start, startRepr, centre, r, yOffset, xOffset + 1)
    {
      ghost var now := Snapshot();
      AddChunk(viewedChunkCoord);
      ScanStepNew(now, terrainChunkDictionary[viewedChunkCoord], States()[viewedChunkCoord], start, startRepr,
                  viewerPosition, maxViewDistance, centre, r, yOffset, xOffset);
    }

    /** The first step of a recompute: hide every chunk of the visible list,
        then empty the list. */
    method HideVisible()
      requires Valid()
      modifies this`terrainChunkVisibleLastFrame, Repr - {this}
      ensures Valid() && terrainChunkVisibleLastFrame == []
      ensures ReceivedKeys() == old(ReceivedKeys()) && States() == old(States())
      ensures forall p :: p in terrainChunkDictionary ==> !terrainChunkDictionary[p].active
    {
      HideListed();
      label Hidden:
      terrainChunkVisibleLastFrame := [];
      KeptChunksOk@Hidden();
      StatesSame();
    }

    /** The loop of HideVisible: every listed chunk is hidden, and since
        only listed chunks were shown, none is shown afterwards. */
    method HideListed()
      requires Valid()
      modifies Repr - {this}
      ensures ChunksValid() && ChunksSeparate() && unchanged(this)
      ensures forall p :: p in terrainChunkDictionary ==> !terrainChunkDictionary[p].active
      ensures forall p :: p in terrainChunkDictionary ==>
        terrainChunkDictionary[p].mapDataReceived == old(terrainChunkDictionary[p].mapDataReceived) &&
        terrainChunkDictionary[p].State() == old(terrainChunkDictionary[p].State())
    {
      for i := 0 to |terrainChunkVisibleLastFrame|
        invariant ChunksValid() && unchanged(this)
        invariant forall k :: 0 <= k < |terrainChunkVisibleLastFrame| ==> terrainChunkVisibleLastFrame[k] in Repr
        invariant forall p :: p in terrainChunkDictionary && terrainChunkDictionary[p].active ==>
          terrainChunkDictionary[p] in terrainChunkVisibleLastFrame[i..]
        invariant forall p :: p in terrainChunkDictionary ==>
          terrainChunkDictionary[p].mapDataReceived == old(terrainChunkDictionary[p].mapDataReceived) &&
          terrainChunkDictionary[p].State() == old(terrainChunkDictionary[p].State())
      {
        label Shown:
        terrainChunkVisibleLastFrame[i].SetVisible(false);
        VisibilityKept@Shown(terrainChunkVisibleLastFrame[i]);
      }
    }

    /** Showing or hiding a chunk keeps every chunk consistent. */
    twostate lemma VisibilityKept(c: TerrainChunk)
      requires old(ChunksValid()) && unchanged(this)
      requires unchanged(old(Repr) - {c})
      requires unchanged(c`mapData, c`mapDataReceived, c`previousLODIndex, c`filterMesh, c`colliderMesh, c`mapRequests)
      ensures ChunksValid()
    {
      forall p | p in terrainChunkDictionary ensures ChunkOk(p) {
        assert old(ChunkOk(p));
      }
    }

    /** Updating the chunk under key k, and nothing else but the controller's
        own fields, leaves every other chunk as it was. */
    twostate lemma OthersKept(k: ChunkCoord)
      requires old(Valid()) && k in old(terrainChunkDictionary)
      requires terrainChunkDictionary == old(terrainChunkDictionary) && Repr == old(Repr)
      requires unchanged(old(Repr) - old(terrainChunkDictionary[k].Repr) - {this})
      ensures forall p :: p in terrainChunkDictionary && p != k ==>
        ChunkOk(p) &&
        terrainChunkDictionary[p].active == old(terrainChunkDictionary[p].active) &&
        terrainChunkDictionary[p].mapDataReceived == old(terrainChunkDictionary[p].mapDataReceived) &&
        terrainChunkDictionary[p].State() == old(terrainChunkDictionary[p].State())
    {
      forall p | p in terrainChunkDictionary && p != k
        ensures ChunkOk(p) && terrainChunkDictionary[p].State() == old(terrainChunkDictionary[p].State())
      {
        assert old(ChunkOk(p));
        assert old(terrainChunkDictionary[p].Repr !! terrainChunkDictionary[k].Repr);
      }
    }

    /** The scan step for a coordinate that has a chunk: update it. */
    method RefreshChunk(coord: ChunkCoord)
      requires Valid() && coord in terrainChunkDictionary && !terrainChunkDictionary[coord].active
      modifies this`terrainChunkVisibleLastFrame, terrainChunkDictionary[coord].Repr
      ensures Valid()
      ensures Snapshot() == old(Snapshot()).Refresh(coord, viewerPosition, maxViewDistance)
      ensures terrainChunkVisibleLastFrame == old(terrainChunkVisibleLastFrame) +
        (if terrainChunkDictionary[coord].active then [terrainChunkDictionary[coord]] else [])
    {
      var chunk := terrainChunkDictionary[coord];
      assert ChunkOk(coord) ==> chunk.Valid() && chunk.world == this && this !in chunk.Repr;
      chunk.UpdateTerrainChunk();
      RefreshOutcome(coord);
    }

    /** What RefreshChunk leaves, once the chunk under coord has taken its
        update and nothing else but the visible list has changed. */
    twostate lemma RefreshOutcome(coord: ChunkCoord)
      requires old(Valid()) && coord in old(terrainChunkDictionary) && !old(terrainChunkDictionary[coord].active)
      requires unchanged(this`terrainChunkDictionary, this`Repr, this`viewerPosition, this`maxViewDistance)
      requires unchanged(old(Repr) - old(terrainChunkDictionary[coord].Repr) - {this})
      requires terrainChunkDictionary[coord].Valid()
      requires terrainChunkDictionary[coord].mapData == old(terrainChunkDictionary[coord].mapData)
      requires terrainChunkDictionary[coord].mapDataReceived == old(terrainChunkDictionary[coord].mapDataReceived)
      requires terrainChunkDictionary[coord].Updated(old(terrainChunkDictionary[coord].mapDataReceived))
      ensures Valid()
      ensures Snapshot() == old(Snapshot()).Refresh(coord, viewerPosition, maxViewDistance)
    {
      var chunk := terrainChunkDictionary[coord];
      assert old(ChunkOk(coord)) ==> chunk.world == this;
      assert old(chunk.State()).(mapData := chunk.mapData) == old(chunk.State());
      RefreshedKeepsValid(coord);
      OneChunkChanged(coord);
      RefreshMatches(old(Snapshot()), Snapshot(), coord, viewerPosition, maxViewDistance);
    }

    /** Updating the chunk under coord, which afterwards is listed exactly
        when it turned from hidden to shown, keeps the controller consistent. */
    twostate lemma RefreshedKeepsValid(coord: ChunkCoord)
      requires old(Valid()) && coord in old(terrainChunkDictionary) && !old(terrainChunkDictionary[coord].active)
      requires terrainChunkDictionary == old(terrainChunkDictionary) && Repr == old(Repr)
      requires unchanged(old(Repr) - old(terrainChunkDictionary[coord].Repr) - {this})
      requires terrainChunkDictionary[coord].Valid()
      requires terrainChunkDictionary[coord].active ==> terrainChunkDictionary[coord].mapDataReceived
      requires terrainChunkVisibleLastFrame == old(terrainChunkVisibleLastFrame) +
        (if terrainChunkDictionary[coord].active then [terrainChunkDictionary[coord]] else [])
      ensures Valid()
      ensures forall p :: p in terrainChunkDictionary && p != coord ==>
        terrainChunkDictionary[p].active == old(terrainChunkDictionary[p].active) &&
        terrainChunkDictionary[p].mapDataReceived == old(terrainChunkDictionary[p].mapDataReceived) &&
        terrainChunkDictionary[p].State() == old(terrainChunkDictionary[p].State())
    {
      OthersKept(coord);
      assert old(ChunkOk(coord));
      assert ChunkOk(coord);
    }

    /** Growing the dictionary and the footprint while leaving every object
        but the controller alone keeps every old chunk consistent. */
    twostate lemma KeptChunksOk()
      requires old(ChunksValid())
      requires forall p :: p in old(terrainChunkDictionary) ==>
        p in terrainChunkDictionary && terrainChunkDictionary[p] == old(terrainChunkDictionary[p])
      requires old(Repr) <= Repr && unchanged(old(Repr) - {this})
      ensures forall p :: p in old(terrainChunkDictionary) ==> ChunkOk(p)
    {
      forall p | p in old(terrainChunkDictionary) ensures ChunkOk(p) {
        assert old(ChunkOk(p));
      }
    }

    /** Changing no chunk or slot leaves the chunks, as values, as they
        were. */
    twostate lemma SnapshotKept()
      requires old(Registered()) && Registered()
      requires terrainChunkDictionary == old(terrainChunkDictionary) && Repr == old(Repr)
      requires unchanged(old(Repr) - {this})
      ensures Snapshot() == old(Snapshot())
    {
      forall p | p in terrainChunkDictionary
        ensures States()[p] == old(States())[p] && Shown()[p] == old(Shown())[p]
      {
        assert old(terrainChunkDictionary[p].State()) == terrainChunkDictionary[p].State();
      }
      assert ReceivedKeys() == old(ReceivedKeys());
    }

    /** Chunks that kept their state and their map-data flag keep the
        state and received maps. */
    twostate lemma StatesSame()
      requires old(Registered()) && Registered() && terrainChunkDictionary == old(terrainChunkDictionary)
      requires forall p :: p in terrainChunkDictionary ==>
        terrainChunkDictionary[p].mapDataReceived == old(terrainChunkDictionary[p].mapDataReceived) &&
        terrainChunkDictionary[p].State() == old(terrainChunkDictionary[p].State())
      ensures ReceivedKeys() == old(ReceivedKeys()) && States() == old(States())
    {
      forall p | p in terrainChunkDictionary ensures States()[p] == old(States())[p] {
        assert old(terrainChunkDictionary[p].State()) == terrainChunkDictionary[p].State();
      }
    }

    /** When only the chunk under coord changed (or was put there), the
        maps by key change at coord only. */
    twostate lemma OneChunkChanged(coord: ChunkCoord)
      requires old(Registered()) && Registered() && coord in terrainChunkDictionary
      requires terrainChunkDictionary.Keys == old(terrainChunkDictionary).Keys + {coord}
      requires forall p :: p in old(terrainChunkDictionary) && p != coord ==>
        terrainChunkDictionary[p] == old(terrainChunkDictionary[p]) &&
        terrainChunkDictionary[p].active == old(terrainChunkDictionary[p].active) &&
        terrainChunkDictionary[p].mapDataReceived == old(terrainChunkDictionary[p].mapDataReceived) &&
        terrainChunkDictionary[p].State() == old(terrainChunkDictionary[p].State())
      ensures ReceivedKeys() ==
        old(ReceivedKeys()) - {coord} + (if terrainChunkDictionary[coord].mapDataReceived then {coord} else {})
      ensures Shown() == old(Shown())[coord := terrainChunkDictionary[coord].active]
      ensures States() == old(States())[coord := terrainChunkDictionary[coord].State()]
    {
      forall p | p in old(terrainChunkDictionary) && p != coord
        ensures States()[p] == old(States())[p] && Shown()[p] == old(Shown())[p]
      {
        assert old(terrainChunkDictionary[p].State()) == terrainChunkDictionary[p].State();
      }
      forall p ensures p in ReceivedKeys() <==>
        p in old(ReceivedKeys()) - {coord} + (if terrainChunkDictionary[coord].mapDataReceived then {coord} else {})
      {
      }
      ChangedAt(States(), old(States()), coord);
      ChangedAt(Shown(), old(Shown()), coord);
    }

    /** Changing only the controller's own settings keeps it consistent. */
    twostate lemma ValidKept()
      requires old(Valid())
      requires terrainChunkDictionary == old(terrainChunkDictionary) && Repr == old(Repr)
      requires terrainChunkVisibleLastFrame == old(terrainChunkVisibleLastFrame)
      requires unchanged(old(Repr) - {this})
      ensures Valid()
    {
      KeptChunksOk();
    }

    /** The scan step for a coordinate without a chunk: create one there. */
    method AddChunk(coord: ChunkCoord)
      requires Valid() && chunkSize == mapChunkSize - 1 && coord !in terrainChunkDictionary
      modifies this`terrainChunkDictionary, this`Repr
      ensures Valid() && old(Repr) <= Repr && fresh(Repr - old(Repr))
      ensures coord in terrainChunkDictionary && fresh(terrainChunkDictionary[coord])
      ensures terrainChunkDictionary == old(terrainChunkDictionary)[coord := terrainChunkDictionary[coord]]
      ensures terrainChunkDictionary[coord].PlacedAt(coord, chunkSize)
      ensures terrainChunkDictionary[coord].mapRequests == [terrainChunkDictionary[coord].position]
      ensures ReceivedKeys() == old(ReceivedKeys()) && Shown() == old(Shown())[coord := false]
      ensures States() == old(States())[coord := terrainChunkDictionary[coord].State()]
    {
      var chunk := new TerrainChunk(coord, chunkSize, detailLevels, this);
      terrainChunkDictionary, Repr := terrainChunkDictionary[coord := chunk], Repr + chunk.Repr;
      AddedKeepsValid(coord);
      OneChunkChanged(coord);
      assert ReceivedKeys() == old(ReceivedKeys());
    }

    /** Putting a new, consistent, hidden chunk under a free coordinate
        keeps the controller consistent. */
    twostate lemma AddedKeepsValid(coord: ChunkCoord)
      requires old(Valid()) && coord !in old(terrainChunkDictionary) && coord in terrainChunkDictionary
      requires terrainChunkDictionary == old(terrainChunkDictionary)[coord := terrainChunkDictionary[coord]]
      requires fresh(terrainChunkDictionary[coord].Repr)
      requires Repr == old(Repr) + terrainChunkDictionary[coord].Repr
      requires unchanged(old(Repr) - {this})
      requires terrainChunkVisibleLastFrame == old(terrainChunkVisibleLastFrame)
      requires terrainChunkDictionary[coord].Valid() && terrainChunkDictionary[coord].world == this
      requires terrainChunkDictionary[coord].PlacedAt(coord, mapChunkSize - 1)
      requires terrainChunkDictionary[coord].detailsLevel == detailLevels
      requires !terrainChunkDictionary[coord].active
      ensures Valid()
    {
      KeptChunksOk();
    }

    /** The generator hands a chunk its map data (the RequestMapData
        callback): the chunk stores it and updates. */
    method DeliverMapData(coord: ChunkCoord, data: MapData)
      requires Valid() && coord in terrainChunkDictionary
      requires !terrainChunkDictionary[coord].mapDataReceived
      modifies this`terrainChunkVisibleLastFrame, terrainChunkDictionary[coord].Repr
      ensures Valid() && terrainChunkDictionary == old(terrainChunkDictionary) && Unmoved()
      ensures terrainChunkDictionary[coord].mapData == Some(data)
      ensures ReceivedKeys() == old(ReceivedKeys()) + {coord}
      ensures Shown() == old(Shown())[coord := NearViewer(terrainChunkDictionary[coord])]
      ensures terrainChunkVisibleLastFrame == old(terrainChunkVisibleLastFrame) +
        (if NearViewer(terrainChunkDictionary[coord]) then [terrainChunkDictionary[coord]] else [])
      ensures States() == old(States())[coord := terrainChunkDictionary[coord].Refreshed(
        old(terrainChunkDictionary[coord].State()).(mapData := Some(data)), viewerPosition, maxViewDistance)]
    {
      var chunk := terrainChunkDictionary[coord];
      assert old(ChunkOk(coord)) && !old(chunk.active);
      chunk.OnMapDataReceived(data);
      RefreshedKeepsValid(coord);
      OneChunkChanged(coord);
    }

    /** The generator hands slot i of a chunk its mesh data (the
        RequestMeshData callback). */
    method DeliverMeshData(coord: ChunkCoord, i: nat, meshData: MeshData)
      requires Valid() && coord in terrainChunkDictionary
      requires i < |terrainChunkDictionary[coord].lodMeshes|
      requires terrainChunkDictionary[coord].lodMeshes[i].hasRequestedMesh
      requires !terrainChunkDictionary[coord].lodMeshes[i].hasMesh
      modifies terrainChunkDictionary[coord].lodMeshes[i]
      ensures Valid()
      ensures terrainChunkDictionary[coord].lodMeshes[i].hasMesh
      ensures terrainChunkDictionary[coord].lodMeshes[i].mesh == Some(Mesh(meshData))
      ensures terrainChunkDictionary[coord].lodMeshes[i].hasRequestedMesh
      ensures terrainChunkDictionary[coord].lodMeshes[i].requests ==
        old(terrainChunkDictionary[coord].lodMeshes[i].requests)
    {
      var chunk := terrainChunkDictionary[coord];
      assert old(ChunkOk(coord));
      chunk.lodMeshes[i].OnMeshDataReceived(meshData);
      OthersKept(coord);
      assert ChunkOk(coord);
    }
  }
}
