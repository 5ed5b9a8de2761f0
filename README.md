# Endless terrain: chunk streaming, levels of detail and the noise map

This project models the procedural-terrain core of a Unity game in Dafny.
It covers two parts.

- **EndlessLand** is the controller that streams square terrain chunks
  around the viewer. Each chunk waits for its map data and then shows itself
  when its nearest edge is within the view distance. It picks a level of
  detail (LOD) with a linear threshold scan. It uses a level's mesh only once
  that mesh has arrived, and otherwise asks for it at most once. At level 0
  the collider takes the mesh of a dedicated collision slot. Each frame the
  controller sets viewerPosition to the viewer's (x, z) divided by the
  scale, 2. It recomputes only when viewerPosition lies more than 25 units
  from a baseline, so the viewer itself has moved more than 50 world units.
  The baseline moves to viewerPosition only at such a recompute; the
  recompute at start-up leaves it at the origin. A recompute first hides every chunk shown before. It then
  scans the square of chunk coordinates around the viewer, updating the
  chunks that exist and creating the missing ones. No chunk is ever evicted.
- **Noise.GenerateNoiseMap** builds a width × height height field from
  several octaves of coherent noise. It then normalises the field in place,
  either against the extremes of this map (Local) or against the largest
  height the octaves could reach (Global).

The model is split into four files.

- `unity.dfy` (module `Unity`) has the Unity value types and `Mathf`
  helpers the core relies on, over `real`: `Vector2`, `Bounds.SqrDistance`,
  `Min`, `Max`, `Clamp`, `Clamp01`, `InverseLerp`, and `RoundToInt` with
  ties to even.
- `lod.dfy` (module `Lod`) has the level table (`LODinfo`). It defines
  which level a distance selects and which slot serves the collider. It also
  defines the square window of coordinates a recompute visits.
- `endless_land.dfy` (module `EndlessLand`) has the three classes of the
  source as Dafny classes whose fields change in place. `LODMesh` is one
  slot per level. `TerrainChunk` is one chunk. `EndlessLand` is the
  controller, holding the chunk dictionary and the visible list.
- `noise.dfy` (module `Noise`) has `GenerateNoiseMap`, with its loops kept
  as loops over an `array2<real>`.

Unity's square root is never needed. "The distance is at most `t`" is
stated as `Within(sq, t)`, which means `0 <= t && sq <= t * t`. For a
non-negative squared distance `sq`, that is the same as `Mathf.Sqrt(sq) <= t`.

Invariants:

- `LODMesh.Valid`: a slot has made at most one mesh request,
  `hasRequestedMesh` holds exactly when that request exists, and a mesh is
  present only after it was requested.
- `TerrainChunk.Valid`:
  - every slot is valid and has its level's `lod`;
  - the slots are distinct, and the collision slot is the last level flagged
    `useForCollider`;
  - a slot has requested its mesh only with the chunk's own map data;
  - the level in use has its mesh shown, and the collider shows that mesh or
    the collision slot's;
  - the chunk asked for its map data once, at its own position.
- `EndlessLand.Valid`:
  - every dictionary entry is a valid chunk under its own coordinate;
  - the chunks own disjoint objects;
  - the visible list holds each shown chunk exactly once and nothing else;
  - only chunks with map data are shown.

What one update does is spelled out by `TerrainChunk.Updated`, and on
values by `TerrainChunk.Refreshed` and `LodStep`. What one recompute does
is spelled out by `EndlessLand.Recomputed`. It compares two values of the
datatype `Chunks`, which holds the dictionary, each chunk's shown flag and
state, and the keys whose chunk has its map data. `Snapshot` reads that
value off the controller. The scan loops keep `Scanned`: the chunks stand
where a scan that has visited the coordinates before the current offset
leaves them (`ScanAt`). The coordinates visited, in order, are
`Lod.Window`, and `Lod.WindowVisitsSquare` shows that these are the
(2r + 1)^2 coordinates of the square, each visited once.

## Model

| member | source | states |
|---|---|---|
| Unity.SqrMagnitude | Assets/Scripts/EndlessLand.cs:42 | `Vector2.sqrMagnitude` is never negative |
| Unity.Max | Assets/Scripts/Noise.cs:64 | `Mathf.Max` is one of its arguments and at least both |
| Unity.Min | Assets/Scripts/Noise.cs:65 | `Mathf.Min` is one of its arguments and at most both |
| Unity.Clamp | Assets/Scripts/Noise.cs:82 | `Mathf.Clamp` lies in [min, max]; it is the value when the value is in range and min when the value is below it |
| Unity.Clamp01 | Assets/Scripts/Noise.cs:77 | `Mathf.Clamp01` lies in [0, 1] and leaves values in [0, 1] alone |
| Unity.InverseLerp | Assets/Scripts/Noise.cs:77 | `Mathf.InverseLerp` lies in [0, 1]; it sends `a` to 0 and, for `a != b`, sends `b` to 1; a degenerate interval gives 0 |
| Unity.RoundToInt | Assets/Scripts/EndlessLand.cs:35 | `Mathf.RoundToInt` is within 0.5 of its argument, and a tie goes to the even integer |
| Unity.RoundedScaled | Assets/Scripts/EndlessLand.cs:56-57 | rounding v / s to n and scaling back by s puts n * s within s / 2 of v, so the viewer lies in the box of the chunk its coordinate names |
| Unity.RoundToIntUnique | Assets/Scripts/EndlessLand.cs:56-57 | the two facts RoundToInt ensures pin down the chunk coordinate uniquely |
| Unity.SqrDistance | Assets/Scripts/EndlessLand.cs:146 | `Bounds.SqrDistance` is never negative and is 0 for a point inside the box |
| Unity.WithinMonotone | Assets/Scripts/EndlessLand.cs:147 | the distance test is monotone: a nearer point passes every limit a farther one passes, and a larger limit accepts more |
| Unity.WithinBoundary | Assets/Scripts/EndlessLand.cs:147 | the visibility test is inclusive: a distance exactly equal to the limit passes, and anything beyond it fails |
| Lod.LastColliderIndex | Assets/Scripts/EndlessLand.cs:116-124 | the collision slot is the last level flagged `useForCollider`: that level is flagged and no later one is |
| Lod.LodIndex | Assets/Scripts/EndlessLand.cs:151-163 | the chosen level is below n; every earlier level's threshold is exceeded; and unless it is the last level, its own threshold covers the distance |
| Lod.LodIndexUnique | Assets/Scripts/EndlessLand.cs:151-163 | those three facts single out one index, so LodIndex is the smallest covering level below n - 1, else n - 1 |
| Lod.LodIndexMonotone | Assets/Scripts/EndlessLand.cs:151-163 | a farther chunk never gets a smaller (more detailed) level index, whatever the thresholds |
| Lod.LodIndexCovers | Assets/Scripts/EndlessLand.cs:32 | a chunk within the view distance (the last level's threshold) gets a level whose own threshold covers it |
| Lod.SelectLod | Assets/Scripts/EndlessLand.cs:151-163 | the `for` loop with its `break` returns exactly LodIndex |
| Lod.WindowVisitsSquare | Assets/Scripts/EndlessLand.cs:59-74 | the nested scan visits each coordinate of the square of radius r exactly once, (2r + 1)^2 of them, and nothing else |
| Lod.WindowRowShape | Assets/Scripts/EndlessLand.cs:61-63 | the inner loop from xOffset visits r - xOffset + 1 coordinates, the k-th at column xOffset + k of its row |
| Lod.WindowRowsLength | Assets/Scripts/EndlessLand.cs:59-63 | the rows from yOffset on hold (r - yOffset + 1) * (2r + 1) coordinates |
| Lod.WindowRowsMembers | Assets/Scripts/EndlessLand.cs:59-63 | the rows from yOffset on hold exactly the square's coordinates at or above row yOffset |
| Lod.WindowRowsDistinct | Assets/Scripts/EndlessLand.cs:59-63 | the rows from yOffset on never visit a coordinate twice |
| Noise.EffectiveScale | Assets/Scripts/Noise.cs:36 | the scale used is positive and at least 0.0001; it is the input when the input is at least that, and 0.0001 otherwise |
| Noise.SumOfPowersAtLeastOne | Assets/Scripts/Noise.cs:23-34 | with persistance >= 0 and at least one octave, maxPossibleHeight is at least 1, so the Global divisor is not zero |
| Noise.OctaveOffsetInRange | Assets/Scripts/Noise.cs:27-30 | with draws in [-100000, 100000), each octave offset lies in the box of that width around (offset.x, -offset.y) |
| Noise.ComputeOctaveOffsets | Assets/Scripts/Noise.cs:17-34 | octave i's offset is draws 2i and 2i + 1, shifted by +offset.x and -offset.y; maxPossibleHeight is the sum of persistance^i over the octaves |
| Noise.SampleHeight | Assets/Scripts/Noise.cs:48-62 | the octave loop, restarted at each cell, computes the sum of persistance^i * (2 * perlin(sample_i) - 1) |
| Noise.RunningMinIsLeast | Assets/Scripts/Noise.cs:39 | the running minimum, from float.MaxValue, bounds every cell scanned so far from below and is float.MaxValue or one of them |
| Noise.RunningMaxIsGreatest | Assets/Scripts/Noise.cs:38 | the running maximum, from float.MinValue, bounds every cell scanned so far from above and is float.MinValue or one of them |
| Noise.LocalExtremesBound | Assets/Scripts/Noise.cs:64-65 | after the first pass, min <= raw[x, y] <= max for every cell |
| Noise.LocalExtremesAttained | Assets/Scripts/Noise.cs:64-65 | for a non-empty map of float-range heights, some cell equals the minimum and some cell equals the maximum |
| Noise.NormalizeCell | Assets/Scripts/Noise.cs:75-83 | a normalised cell lies in [0, 1] in Local mode and in [0, int.MaxValue as float] in Global mode |
| Noise.NormalizeCellEndpoints | Assets/Scripts/Noise.cs:75-83 | Local sends the minimum to 0 and, when min < max, the maximum to 1; Global returns (raw + 1) / maxPossibleHeight / 1.2 whenever that value is in range |
| Noise.LocalModeReachesBothEnds | Assets/Scripts/Noise.cs:75-77 | in Local mode a non-empty map has a cell at 0 and, unless min == max, a cell at 1 |
| Noise.FillRawHeights | Assets/Scripts/Noise.cs:44-69 | the first pass writes every cell's raw height and returns the map's minimum and maximum |
| Noise.NormalizeMap | Assets/Scripts/Noise.cs:71-86 | the second pass replaces every cell by its normalised value in place |
| Noise.NoiseOctaves | Assets/Scripts/Noise.cs:36-42 | the derived octave parameters have a positive scale and one offset per octave |
| Noise.GenerateNoiseMap | Assets/Scripts/Noise.cs:12-89 | the result is a fresh mapWidth x mapHeight array; each cell is its raw height normalised by the chosen mode against the map's extremes and maxPossibleHeight; so it lies in [0, 1] (Local) or [0, 2^31] (Global) |
| EndlessLand.LODMesh.constructor | Assets/Scripts/EndlessLand.cs:212-216 | a new slot has its level, has requested nothing and has no mesh |
| EndlessLand.LODMesh.RequestMesh | Assets/Scripts/EndlessLand.cs:217-221 | the slot logs one request with its map data and level and sets hasRequestedMesh; a first request keeps the slot valid |
| EndlessLand.LODMesh.OnMeshDataReceived | Assets/Scripts/EndlessLand.cs:222-226 | the mesh built from the delivered data becomes the slot's mesh and hasMesh is set; the request flag stays |
| EndlessLand.TerrainChunk.constructor | Assets/Scripts/EndlessLand.cs:94-127 | `PlacedAt(coord, size)`: a new chunk sits at coord * size with a size x size box there; it has one fresh slot per level and no map data; it is hidden, shows no mesh, has requested no mesh, and has asked for its map data once at its position |
| EndlessLand.TerrainChunk.CreateSlots | Assets/Scripts/EndlessLand.cs:116-124 | the loop makes one distinct fresh slot per level with that level's lod, and the collision slot is the last flagged level's |
| EndlessLand.TerrainChunk.OnMapDataReceived | Assets/Scripts/EndlessLand.cs:128-137 | the chunk stores its map data and then behaves as one update with the data present |
| EndlessLand.TerrainChunk.UpdateTerrainChunk | Assets/Scripts/EndlessLand.cs:142-193 | `Updated`: without map data nothing changes; with it, the chunk is shown exactly when within the view distance, and a shown chunk joins the visible list; it adopts level LodIndex only if that slot has its mesh (both mesh and collider take it), otherwise requests it once; at level 0 the collider takes or requests the collision mesh |
| EndlessLand.TerrainChunk.ShowNear | Assets/Scripts/EndlessLand.cs:146-191 | the visible branch: the LOD choice, the list append and SetVisible(true) together satisfy Updated(true) |
| EndlessLand.TerrainChunk.UpdateLod | Assets/Scripts/EndlessLand.cs:164-188 | the level switch and then, at level 0, the collider step; their combined effect on the index, both meshes and each slot's request log |
| EndlessLand.TerrainChunk.SwitchLod | Assets/Scripts/EndlessLand.cs:164-177 | previousLODIndex changes only to a different level whose slot has its mesh, and mesh and collider then both take that mesh; otherwise that slot is requested if it has not been |
| EndlessLand.TerrainChunk.UseCollisionMesh | Assets/Scripts/EndlessLand.cs:178-188 | the collider takes the collision slot's mesh if present; otherwise that slot alone is requested, once |
| EndlessLand.TerrainChunk.Enlist | Assets/Scripts/EndlessLand.cs:189-191 | a shown chunk appends itself to the controller's visible list, once, and becomes active |
| EndlessLand.TerrainChunk.SetVisible | Assets/Scripts/EndlessLand.cs:194-197 | the chunk's active flag becomes the argument |
| EndlessLand.EndlessLand.constructor | Assets/Scripts/EndlessLand.cs:14-28 | an empty dictionary and visible list, the viewer and the baseline at the origin, and a valid controller |
| EndlessLand.EndlessLand.Start | Assets/Scripts/EndlessLand.cs:30-38 | maxViewDistance becomes the last level's threshold, chunkSize becomes mapChunkSize - 1, and the radius becomes the rounded view distance in chunks; then one recompute (`Recomputed`) |
| EndlessLand.EndlessLand.Update | Assets/Scripts/EndlessLand.cs:39-47 | viewerPosition becomes the viewer's (x, z) / 2; only a squared move strictly over 625 from the baseline recomputes and moves the baseline; otherwise the dictionary, the list and every chunk are untouched |
| EndlessLand.EndlessLand.UpdateVisibleChunks | Assets/Scripts/EndlessLand.cs:48-75 | `Recomputed`: keys are the old keys plus the window around the viewer's chunk; old chunks stay under their keys, one in the window having taken exactly one update and any other keeping its state; new chunks are fresh; no chunk gains or loses its map data; no old chunk loses a mesh request or a mesh; a chunk is shown exactly when it is in the window, has its data and is within the view distance; the coordinates visited, in order, are `Window`, each once; `Placed`: every chunk, old or new, sits at its key * chunkSize with a chunkSize box there and asked for its map data at that position |
| EndlessLand.EndlessLand.ViewerChunk | Assets/Scripts/EndlessLand.cs:56-57 | the centre of the scan is the chunk coordinate whose chunkSize box contains viewerPosition |
| EndlessLand.EndlessLand.HideVisible | Assets/Scripts/EndlessLand.cs:50-54 | after hiding the listed chunks and clearing the list, no chunk is shown, and no chunk's map data or state changed |
| EndlessLand.EndlessLand.HideListed | Assets/Scripts/EndlessLand.cs:50-53 | hiding every listed chunk hides every chunk, since only listed chunks were shown; only the active flags change |
| EndlessLand.EndlessLand.VisibilityKept | Assets/Scripts/EndlessLand.cs:52 | hiding one chunk keeps every chunk consistent |
| EndlessLand.EndlessLand.ScanWindow | Assets/Scripts/EndlessLand.cs:59-74 | the outer loop, from `Scanned` at the first coordinate, ends in `RecomputedAt` over the window, and visits the rows of `Window` in order |
| EndlessLand.EndlessLand.ScanRow | Assets/Scripts/EndlessLand.cs:61-73 | one row of the scan advances `Scanned` from the start of the row to the start of the next, visiting that row of `Window` in order |
| EndlessLand.EndlessLand.VisitChunk | Assets/Scripts/EndlessLand.cs:63-72 | one coordinate of the scan advances `Scanned` by exactly that coordinate |
| EndlessLand.EndlessLand.VisitKnown | Assets/Scripts/EndlessLand.cs:65-68 | visiting a coordinate that has a chunk updates that chunk only and advances `Scanned`; the footprint is unchanged |
| EndlessLand.EndlessLand.ScannedStepKnown | Assets/Scripts/EndlessLand.cs:65-68 | a chunk the scan has not reached yet is hidden, and updating it moves the scan one coordinate on |
| EndlessLand.EndlessLand.VisitNew | Assets/Scripts/EndlessLand.cs:69-72 | visiting a free coordinate adds a chunk there and advances `Scanned` |
| EndlessLand.EndlessLand.ScannedRow | Assets/Scripts/EndlessLand.cs:59-61 | the end of one row of the dictionary's scan is the start of the next |
| EndlessLand.EndlessLand.RefreshChunk | Assets/Scripts/EndlessLand.cs:67 | the chunks after the call are the chunks before it after `Chunks.Refresh` at that coordinate: that chunk is shown exactly when it has data and is in view and takes one update, and every other chunk keeps its shown flag, map data and state; the visible list gains that chunk exactly when it is shown |
| EndlessLand.EndlessLand.RefreshOutcome | Assets/Scripts/EndlessLand.cs:142-193 | a chunk that took one update while nothing else but the visible list changed leaves the controller valid and its chunks as `Chunks.Refresh` says |
| EndlessLand.EndlessLand.RefreshedKeepsValid | Assets/Scripts/EndlessLand.cs:142-193 | updating one hidden chunk, which then lists itself exactly when it shows, keeps the controller consistent and leaves every other chunk as it was |
| EndlessLand.EndlessLand.OthersKept | Assets/Scripts/EndlessLand.cs:67 | updating the chunk under one key leaves every other chunk consistent and unchanged, since chunks own disjoint objects |
| EndlessLand.EndlessLand.OneChunkChanged | Assets/Scripts/EndlessLand.cs:67-71 | when only the chunk under one key changed or was added, the received keys, shown flags and states change at that key only |
| EndlessLand.EndlessLand.AddChunk | Assets/Scripts/EndlessLand.cs:71 | the dictionary gains one fresh, hidden chunk without data under the coordinate, placed at coord * chunkSize with that box and one map request at that position; every other key keeps its chunk, shown flag and state |
| EndlessLand.EndlessLand.AddedKeepsValid | Assets/Scripts/EndlessLand.cs:71 | putting a new, consistent, hidden chunk under a free coordinate keeps the controller consistent |
| EndlessLand.EndlessLand.DeliverMapData | Assets/Scripts/EndlessLand.cs:126-137 | the map-data callback stores the data in its chunk, which then updates: it is shown exactly when near, the visible list gains it exactly then, its state takes one update, and every other chunk and the controller's settings are unchanged |
| EndlessLand.EndlessLand.DeliverMeshData | Assets/Scripts/EndlessLand.cs:219-226 | the mesh callback gives the requested slot its mesh and keeps its request log, and the controller stays valid |
| EndlessLand.Chunks.Refresh | Assets/Scripts/EndlessLand.cs:67 | one update of the chunk under a key, on values: it is shown exactly when it has its map data and is in view; the dictionary and the keys with map data stay |
| EndlessLand.VisitedStep | Assets/Scripts/EndlessLand.cs:61-63 | one step of the inner loop adds exactly the current coordinate to the visited set |
| EndlessLand.ScanStarts | Assets/Scripts/EndlessLand.cs:50-59 | with every chunk hidden and none changed, the scan stands at its first coordinate having visited nothing |
| EndlessLand.ScanStepKnown | Assets/Scripts/EndlessLand.cs:65-68 | updating the chunk under the coordinate reached moves `ScanAt` one coordinate on |
| EndlessLand.ScanStepNew | Assets/Scripts/EndlessLand.cs:69-72 | putting a new hidden chunk without data under the free coordinate reached moves `ScanAt` one coordinate on |
| EndlessLand.RowComplete | Assets/Scripts/EndlessLand.cs:59-61 | the end of one row is the start of the next |
| EndlessLand.ScanComplete | Assets/Scripts/EndlessLand.cs:59-74 | a scan past its last row has visited exactly the window, which gives `RecomputedAt` |
| EndlessLand.RecomputedProgresses | Assets/Scripts/EndlessLand.cs:48-75 | a recompute never takes back a chunk's map data, a mesh request or a mesh |
| EndlessLand.TerrainChunk.RefreshedProgresses | Assets/Scripts/EndlessLand.cs:142-193 | one update never takes back a request or a mesh, and keeps the map data |
| EndlessLand.LodStepProgresses | Assets/Scripts/EndlessLand.cs:164-188 | the mesh step never takes back a request or a mesh, and keeps the map data |
| EndlessLand.LodStepSlots | Assets/Scripts/EndlessLand.cs:173-187 | after the mesh step, slot i has made its level's request exactly when it had not asked yet and is the level switched to or, at level 0, the collision slot; no slot gains or loses a mesh |
| EndlessLand.SlotsFromAt | Assets/Scripts/EndlessLand.cs:173-187 | the slots after the mesh step are, one by one, the old slots with the request Asks calls for |
| EndlessLand.TerrainChunk.ShownUpdated | Assets/Scripts/EndlessLand.cs:149-191 | a chunk with its data that showed itself, listed itself and took the mesh step at the level its distance selects has been `Updated` |

## Left out

- Unity's scene graph is not modelled: `GameObject`, `MeshRenderer`, `MeshFilter`, `MeshCollider`, transforms, parenting and the material (EndlessLand.cs:103-112). A chunk keeps only its active flag, the mesh it shows (`filterMesh`) and the collider's mesh (`colliderMesh`).
- Texture building for a chunk's colour map (EndlessLand.cs:133-134) is a foreign call with no logic here.
- `MapGenerator` and its threads are not modelled. Each `RequestMapData` / `RequestMeshData` call becomes an entry in a request log. Each callback becomes a controller method, `DeliverMapData` or `DeliverMeshData`, which the environment may call once per request.
- `MapData`, `MeshData` and `MeshData.CreateMesh` are opaque tokens.
- `FindObjectOfType<MapGenerator>()` is not modelled. `MapGenerator.mapChunkSize` is a constructor parameter, required to be above 1.
- The viewer's `Transform` is not modelled; `Update` receives the viewer's x and z.
- UpdateVisibleChunks: requires chunkSize == mapChunkSize - 1, which `Start` sets before its recompute and `Update`'s precondition (`Started`) keeps. A recompute before `Start` would divide by a chunkSize of 0 (EndlessLand.cs:56-57); that case is not modelled.
- `TerrainChunk.OnMeshDataReceived` and `TerrainChunk.IsVisible` are never called, so they are not modelled. `LODMesh.updateCallback` is stored but never invoked, so an arriving mesh does not re-update its chunk.
- The static fields `viewerPosition`, `maxViewDistance` and `terrainChunkVisibleLastFrame` become fields of the one controller. Every chunk holds a reference to it.
- Float rounding and float range are not modelled: all arithmetic is on `real`.
- `Mathf.PerlinNoise` is an arbitrary function of two reals.
- `System.Random` is an arbitrary function: `prng(seed, k)` is the k-th draw.
- Dictionary keys are integer pairs; the source's `Vector2` keys always hold integers.
- A level table with no level flagged `useForCollider`, or with no level at all, would crash the source; the model requires a well-configured table instead.
- The chunk constructor hides the chunk after building its slots and recording the map-data request, rather than before; nothing observes the difference.
- Unity.SqrMagnitude: states only that the result is non-negative. How the result relates to its inputs is not stated.
- Unity.SqrDistance: states that the result is non-negative and zero inside the box, but not the converse.
- Noise.GenerateNoiseMap: in Global mode it requires maxPossibleHeight to be non-zero. That holds for one octave or more when persistance >= 0 (`SumOfPowersAtLeastOne`); a negative persistance can make the sum zero. With zero octaves, or such a sum, the source divides by a float zero, and infinities are not modelled.
- Noise.GenerateNoiseMap: mapWidth, mapHeight and octaves are `nat`. A negative size makes the source's array allocations (Noise.cs:14, 17) throw `OverflowException`; that error path is not modelled.
- Noise.NormalizeCell: the Global upper bound is `int.MaxValue` as the source passes it to `Mathf.Clamp(float, float, float)`, which converts it to the float 2^31.
