/** The configuration-level pieces of EndlessLand.cs: the detail-level table,
    which level a distance selects, which slot serves the collider, and the
    square window of chunk coordinates a recompute scans. */
module Lod {
  import opened Unity

  /** LODinfo: one configured level of detail. */
  datatype LODInfo = LODInfo(useForCollider: bool, lod: int, visibleDistanceThreshold: real)

  /** A chunk's integer grid coordinate (the dictionary key). */
  type ChunkCoord = (int, int)

  predicate HasCollider(levels: seq<LODInfo>)
  {
    exists i :: 0 <= i < |levels| && levels[i].useForCollider
  }

  /** What a chunk needs of the table: at least one level, and one of them
      flagged for the collider (otherwise the collision slot stays null). */
  predicate WellConfigured(levels: seq<LODInfo>)
  {
    |levels| > 0 && HasCollider(levels)
  }

  /** The level whose slot a chunk uses as its collision slot: the LAST one
      flagged useForCollider, since each flagged level overwrites the
      previous choice. */
  ghost function LastColliderIndex(levels: seq<LODInfo>): (r: nat)
    requires HasCollider(levels)
    ensures r < |levels| && levels[r].useForCollider
    ensures forall j :: r < j < |levels| ==> !levels[j].useForCollider
  {
    LastColliderBelow(levels, |levels|)
  }

  /** The last level below n flagged for the collider. */
  ghost function LastColliderBelow(levels: seq<LODInfo>, n: nat): (r: nat)
    requires n <= |levels| && exists i :: 0 <= i < n && levels[i].useForCollider
    ensures r < n && levels[r].useForCollider
    ensures forall j :: r < j < n ==> !levels[j].useForCollider
  {
    if levels[n - 1].useForCollider then n - 1 else LastColliderBelow(levels, n - 1)
  }

  /** Scanning the levels from i on: the first one below the last whose
      threshold the distance does not exceed, or the last level. */
  function FirstCoveringLevel(levels: seq<LODInfo>, sqrDist: real, i: nat): (r: nat)
    requires i < |levels|
    ensures i <= r < |levels|
    ensures forall j :: i <= j < r ==> !Within(sqrDist, levels[j].visibleDistanceThreshold)
    ensures r < |levels| - 1 ==> Within(sqrDist, levels[r].visibleDistanceThreshold)
    decreases |levels| - i
  {
    if i == |levels| - 1 then i
    else if Within(sqrDist, levels[i].visibleDistanceThreshold) then i
    else FirstCoveringLevel(levels, sqrDist, i + 1)
  }

  /** The level of detail a chunk at squared distance sqrDist uses: the
      smallest i < n - 1 whose threshold covers the distance, else n - 1. */
  function LodIndex(levels: seq<LODInfo>, sqrDist: real): (r: nat)
    requires |levels| > 0
    ensures r < |levels|
    ensures forall j :: 0 <= j < r ==> !Within(sqrDist, levels[j].visibleDistanceThreshold)
    ensures r < |levels| - 1 ==> Within(sqrDist, levels[r].visibleDistanceThreshold)
  {
    FirstCoveringLevel(levels, sqrDist, 0)
  }

  /** The three facts LodIndex ensures single out one index. */
  lemma LodIndexUnique(levels: seq<LODInfo>, sqrDist: real, k: nat)
    requires |levels| > 0 && k < |levels|
    requires forall j :: 0 <= j < k ==> !Within(sqrDist, levels[j].visibleDistanceThreshold)
    requires k < |levels| - 1 ==> Within(sqrDist, levels[k].visibleDistanceThreshold)
    ensures k == LodIndex(levels, sqrDist)
  {
  }

  /** A farther chunk never gets a more detailed level, whatever the
      thresholds are. */
  lemma LodIndexMonotone(levels: seq<LODInfo>, sq1: real, sq2: real)
    requires |levels| > 0 && sq1 <= sq2
    ensures LodIndex(levels, sq1) <= LodIndex(levels, sq2)
  {
    var r1, r2 := LodIndex(levels, sq1), LodIndex(levels, sq2);
    if r2 < r1 {
      var t := levels[r2].visibleDistanceThreshold;
      WithinMonotone(sq1, sq2, t, t);
    }
  }

  /** A chunk on the inner side of the last threshold (the view distance)
      picks a level whose own threshold covers it, whatever the order of the
      thresholds. */
  lemma LodIndexCovers(levels: seq<LODInfo>, sqrDist: real)
    requires |levels| > 0
    requires Within(sqrDist, levels[|levels| - 1].visibleDistanceThreshold)
    ensures Within(sqrDist, levels[LodIndex(levels, sqrDist)].visibleDistanceThreshold)
  {
  }

  /** The level-selection loop of UpdateTerrainChunk: raise the index past
      every threshold the distance exceeds, stopping at the first one it
      does not (the last level is never compared). */
  method SelectLod(levels: seq<LODInfo>, sqrDist: real) returns (lodIndex: nat)
    requires |levels| > 0
    ensures lodIndex == LodIndex(levels, sqrDist)
  {
    lodIndex := 0;
    for i := 0 to |levels| - 1
      invariant lodIndex == i
      invariant forall j :: 0 <= j < i ==> !Within(sqrDist, levels[j].visibleDistanceThreshold)
    {
      if !Within(sqrDist, levels[i].visibleDistanceThreshold) {
        lodIndex := i + 1;
      } else {
        break;
      }
    }
    LodIndexUnique(levels, sqrDist, lodIndex);
  }

  /** Whether p lies in the square of radius r (in chunks) around centre. */
  predicate InWindow(p: ChunkCoord, centre: ChunkCoord, r: int)
  {
    centre.0 - r <= p.0 <= centre.0 + r && centre.1 - r <= p.1 <= centre.1 + r
  }

  /** Row yOff of the scan, from column xOff to column r. */
  function WindowRow(centre: ChunkCoord, r: int, yOff: int, xOff: int): seq<ChunkCoord>
    decreases r - xOff + 1
  {
    if xOff > r then [] else [(centre.0 + xOff, centre.1 + yOff)] + WindowRow(centre, r, yOff, xOff + 1)
  }

  /** Rows yOff to r of the scan. */
  function WindowRows(centre: ChunkCoord, r: int, yOff: int): seq<ChunkCoord>
    decreases r - yOff + 1
  {
    if yOff > r then [] else WindowRow(centre, r, yOff, -r) + WindowRows(centre, r, yOff + 1)
  }

  /** The coordinates UpdateVisibleChunks visits, in its order: rows from
      -r to r, and in each row columns from -r to r. */
  function Window(centre: ChunkCoord, r: int): seq<ChunkCoord>
  {
    WindowRows(centre, r, -r)
  }

  /** A scan that has covered done and has the rows from yOff on still to
      come covers done plus row yOff, with the rows after it to come. */
  lemma RowsAppend(done: seq<ChunkCoord>, centre: ChunkCoord, r: int, yOff: int)
    requires yOff <= r && done + WindowRows(centre, r, yOff) == Window(centre, r)
    ensures (done + WindowRow(centre, r, yOff, -r)) + WindowRows(centre, r, yOff + 1) == Window(centre, r)
  {
    assert WindowRows(centre, r, yOff) == WindowRow(centre, r, yOff, -r) + WindowRows(centre, r, yOff + 1);
  }

  /** The same within a row, one chunk at a time. */
  lemma CellAppend(done: seq<ChunkCoord>, centre: ChunkCoord, r: int, yOff: int, xOff: int)
    requires xOff <= r && done + WindowRow(centre, r, yOff, xOff) == WindowRow(centre, r, yOff, -r)
    ensures (done + [(centre.0 + xOff, centre.1 + yOff)]) + WindowRow(centre, r, yOff, xOff + 1)
      == WindowRow(centre, r, yOff, -r)
  {
    assert WindowRow(centre, r, yOff, xOff) == [(centre.0 + xOff, centre.1 + yOff)] + WindowRow(centre, r, yOff, xOff + 1);
  }

  /** Row yOff from column xOff holds the columns xOff to r of that row, left to right. */
  lemma {:induction false} WindowRowShape(centre: ChunkCoord, r: int, yOff: int, xOff: int)
    ensures |WindowRow(centre, r, yOff, xOff)| == if xOff > r then 0 else r - xOff + 1
    ensures forall k :: 0 <= k < |WindowRow(centre, r, yOff, xOff)| ==>
      WindowRow(centre, r, yOff, xOff)[k] == (centre.0 + xOff + k, centre.1 + yOff)
    decreases r - xOff + 1
  {
    if xOff <= r {
      WindowRowShape(centre, r, yOff, xOff + 1);
      var s := WindowRow(centre, r, yOff, xOff);
      forall k | 0 <= k < |s| ensures s[k] == (centre.0 + xOff + k, centre.1 + yOff) {
        if k > 0 {
          assert s[k] == WindowRow(centre, r, yOff, xOff + 1)[k - 1];
        }
      }
    }
  }

  /** Rows yOff to r hold 2r + 1 coordinates each. */
  lemma {:induction false} WindowRowsLength(centre: ChunkCoord, r: int, yOff: int)
    requires -r <= yOff
    ensures |WindowRows(centre, r, yOff)| == if yOff > r then 0 else (r - yOff + 1) * (2 * r + 1)
    decreases r - yOff + 1
  {
    if yOff <= r {
      WindowRowShape(centre, r, yOff, -r);
      WindowRowsLength(centre, r, yOff + 1);
      assert (r - yOff + 1) * (2 * r + 1) == (2 * r + 1) + (r - (yOff + 1) + 1) * (2 * r + 1);
    }
  }

  /** Rows yOff to r hold exactly the coordinates of the square from row yOff up. */
  lemma {:induction false} WindowRowsMembers(centre: ChunkCoord, r: int, yOff: int)
    requires -r <= yOff
    ensures forall p :: p in WindowRows(centre, r, yOff) <==> InWindow(p, centre, r) && centre.1 + yOff <= p.1
    decreases r - yOff + 1
  {
    if yOff <= r {
      WindowRowShape(centre, r, yOff, -r);
      WindowRowsMembers(centre, r, yOff + 1);
      var row := WindowRow(centre, r, yOff, -r);
      forall p | InWindow(p, centre, r) && p.1 == centre.1 + yOff
        ensures p in row
      {
        assert row[p.0 - centre.0 + r] == p;
      }
    }
  }

  /** No coordinate occurs twice. */
  predicate Distinct(s: seq<ChunkCoord>)
  {
    forall i, j :: 0 <= i < j < |s| ==> s[i] != s[j]
  }

  /** Joining two duplicate-free sequences with no common element gives a duplicate-free one. */
  lemma DistinctConcat(a: seq<ChunkCoord>, b: seq<ChunkCoord>)
    requires Distinct(a) && Distinct(b)
    requires forall p :: p in a ==> p !in b
    ensures Distinct(a + b)
  {
    var s := a + b;
    forall i, j | 0 <= i < j < |s| ensures s[i] != s[j] {
      if j < |a| {
        assert s[i] == a[i] && s[j] == a[j];
      } else if i < |a| {
        assert s[i] == a[i] && s[j] == b[j - |a|];
        assert a[i] in a;
        assert b[j - |a|] in b;
      } else {
        assert s[i] == b[i - |a|] && s[j] == b[j - |a|];
        assert b[i - |a|] != b[j - |a|];
      }
    }
  }

  /** A row runs left to right, so no coordinate occurs in it twice. */
  lemma RowDistinct(centre: ChunkCoord, r: int, yOff: int, xOff: int)
    ensures Distinct(WindowRow(centre, r, yOff, xOff))
  {
    WindowRowShape(centre, r, yOff, xOff);
    var row := WindowRow(centre, r, yOff, xOff);
    forall i, j | 0 <= i < j < |row| ensures row[i] != row[j] {
      assert row[i].0 < row[j].0;
    }
  }

  /** No coordinate of row yOff occurs in the rows after it. */
  lemma RowApart(centre: ChunkCoord, r: int, yOff: int, row: seq<ChunkCoord>, rest: seq<ChunkCoord>)
    requires -r <= yOff <= r
    requires row == WindowRow(centre, r, yOff, -r) && rest == WindowRows(centre, r, yOff + 1)
    ensures forall p :: p in row ==> p !in rest
  {
    WindowRowShape(centre, r, yOff, -r);
    WindowRowsMembers(centre, r, yOff + 1);
    forall p | p in row ensures p.1 == centre.1 + yOff {
      var k :| 0 <= k < |row| && row[k] == p;
    }
  }

  /** No coordinate occurs twice in rows yOff to r. */
  lemma {:induction false} WindowRowsDistinct(centre: ChunkCoord, r: int, yOff: int)
    requires -r <= yOff
    ensures Distinct(WindowRows(centre, r, yOff))
    decreases r - yOff + 1
  {
    if yOff <= r {
      var row, rest := WindowRow(centre, r, yOff, -r), WindowRows(centre, r, yOff + 1);
      RowDistinct(centre, r, yOff, -r);
      RowApart(centre, r, yOff, row, rest);
      WindowRowsDistinct(centre, r, yOff + 1);
      DistinctConcat(row, rest);
    }
  }

  /** The scan visits exactly the coordinates of the square, each once, so
      (2r + 1)^2 of them when r >= 0 and none when r < 0. */
  lemma WindowVisitsSquare(centre: ChunkCoord, r: int)
    ensures |Window(centre, r)| == if r < 0 then 0 else (2 * r + 1) * (2 * r + 1)
    ensures forall p :: p in Window(centre, r) <==> InWindow(p, centre, r)
    ensures Distinct(Window(centre, r))
  {
    var w := Window(centre, r);
    if r < 0 {
      assert w == [];
    } else {
      assert |w| == (2 * r + 1) * (2 * r + 1) by {
        WindowRowsLength(centre, r, -r);
        assert r - -r + 1 == 2 * r + 1;
      }
      assert forall p :: p in w <==> InWindow(p, centre, r) by {
        WindowRowsMembers(centre, r, -r);
      }
      assert Distinct(w) by {
        WindowRowsDistinct(centre, r, -r);
      }
    }
  }
}
