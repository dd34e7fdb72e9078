/**
 * Tile addressing of the tile orchestrator (TileMapManager): tile keys, the zoom clamp,
 * the per-zoom tile box of a region download, the order in which downloadRegion and
 * calculateVisibleTiles visit tiles, the cached/missing split, on-screen placement and
 * the window that cleanupTiles retains.
 *
 * The floating-point projection latLonToTile is not modelled: its results (corner tiles,
 * centre tile) are inputs.
 */
module TileGeometry {

  /** TileKey of tilemapmanager.h: a tile index pair at a zoom level. */
  datatype TileKey = TileKey(x: int, y: int, z: int)

  const MinZoom: int := 0
  const MaxZoom: int := 19
  const TileSize: int := 256
  const ViewportTilesX: int := 5
  const ViewportTilesY: int := 5
  /** Extra tiles kept on each side of the viewport by cleanupTiles. */
  const CleanupMargin: int := 2

  function Min(a: int, b: int): int { if a <= b then a else b }
  function Max(a: int, b: int): int { if a >= b then a else b }

  /** qBound(lo, v, hi). */
  function Bound(lo: int, v: int, hi: int): int { Max(lo, Min(v, hi)) }

  /** The zoom setZoom stores. */
  function ClampZoom(z: int): (r: int)
    ensures MinZoom <= r <= MaxZoom
    ensures MinZoom <= z <= MaxZoom ==> r == z
    ensures z < MinZoom ==> r == MinZoom
    ensures z > MaxZoom ==> r == MaxZoom
  {
    Bound(MinZoom, z, MaxZoom)
  }

  function Pow2(n: nat): (r: nat)
    ensures r >= 1
  {
    if n == 0 then 1 else 2 * Pow2(n - 1)
  }

  /** `(1 << zoom) - 1`: the largest tile index at a zoom level. */
  function MaxTile(z: nat): int { Pow2(z) - 1 }

  predicate ValidTile(z: nat, x: int, y: int) {
    0 <= x <= MaxTile(z) && 0 <= y <= MaxTile(z)
  }

  /**
   * The two corner tiles downloadRegion obtains for one zoom: (x0, y0) from
   * (maxLat, minLon) and (x1, y1) from (minLat, maxLon).
   */
  datatype RawBox = RawBox(x0: int, y0: int, x1: int, y1: int)

  predicate InCornerSpan(raw: RawBox, x: int, y: int) {
    && Min(raw.x0, raw.x1) <= x <= Max(raw.x0, raw.x1)
    && Min(raw.y0, raw.y1) <= y <= Max(raw.y0, raw.y1)
  }

  /** An inclusive rectangle of tile indices. */
  datatype Box = Box(minX: int, minY: int, maxX: int, maxY: int)

  predicate InBox(b: Box, x: int, y: int) {
    b.minX <= x <= b.maxX && b.minY <= y <= b.maxY
  }

  /**
   * downloadRegion's box for one zoom: the corners are swapped into min/max order and
   * then clamped into [0, 2^zoom - 1]. The box holds exactly the valid tiles between
   * the two corners.
   */
  function NormalizeBox(raw: RawBox, z: nat): (b: Box)
    ensures 0 <= b.minX && 0 <= b.minY && b.maxX <= MaxTile(z) && b.maxY <= MaxTile(z)
  {
    var maxTile := MaxTile(z);
    Box(Max(0, Min(raw.x0, raw.x1)), Max(0, Min(raw.y0, raw.y1)),
        Min(maxTile, Max(raw.x0, raw.x1)), Min(maxTile, Max(raw.y0, raw.y1)))
  }

  /** The normalised box holds exactly the valid tiles between the two corners. */
  lemma NormalizeBoxSpan(raw: RawBox, z: nat, x: int, y: int)
    ensures InBox(NormalizeBox(raw, z), x, y) <==> InCornerSpan(raw, x, y) && ValidTile(z, x, y)
  {
  }

  function Width(b: Box): nat { Max(0, b.maxX - b.minX + 1) }
  function Height(b: Box): nat { Max(0, b.maxY - b.minY + 1) }

  /** Number of tiles in a box (the corrected count, see BoxSizeAsWritten). */
  function BoxSize(b: Box): nat { Width(b) * Height(b) }

  /**
   * The per-zoom total downloadRegion adds to the region total, as written: the product
   * of the two raw extents, which is not the tile count when an extent is empty.
   */
  function BoxSizeAsWritten(b: Box): int {
    (b.maxX - b.minX + 1) * (b.maxY - b.minY + 1)
  }

  // ---------------------------------------------------------------------------
  // Visiting order: x outer, y inner (both ascending), zooms ascending.

  /** Tiles (x, y, z) for y in [fromY, toY), ascending y. */
  function Column(x: int, fromY: int, toY: int, z: int): seq<TileKey>
  {
    seq(Max(0, toY - fromY), i => TileKey(x, fromY + i, z))
  }

  /** Columns b.minX .. toX - 1 of box b at zoom z, in visiting order. */
  function Columns(b: Box, z: int, toX: int): seq<TileKey>
    decreases toX - b.minX
  {
    if toX <= b.minX then [] else Columns(b, z, toX - 1) + Column(toX - 1, b.minY, b.maxY + 1, z)
  }

  /** Every tile of a box, in the order the nested x/y loops visit them. */
  function BoxTiles(b: Box, z: int): seq<TileKey>
  {
    Columns(b, z, b.maxX + 1)
  }

  /** The tiles of one zoom level of a region download. */
  function ZoomTiles(raws: seq<RawBox>, minZoom: nat, i: nat): seq<TileKey>
    requires i < |raws|
  {
    BoxTiles(NormalizeBox(raws[i], minZoom + i), minZoom + i)
  }

  /** Every tile of a region download: zoom levels minZoom .. minZoom + |raws| - 1 in turn. */
  function RegionTiles(raws: seq<RawBox>, minZoom: nat): seq<TileKey>
    decreases |raws|
  {
    if raws == [] then []
    else RegionTiles(raws[..|raws| - 1], minZoom) + ZoomTiles(raws, minZoom, |raws| - 1)
  }

  /** The size of one zoom level's clamped box. */
  function ZoomSize(raws: seq<RawBox>, minZoom: nat, i: nat): nat
    requires i < |raws|
  {
    BoxSize(NormalizeBox(raws[i], minZoom + i))
  }

  lemma ZoomTilesLength(raws: seq<RawBox>, minZoom: nat, i: nat)
    requires i < |raws|
    ensures |ZoomTiles(raws, minZoom, i)| == ZoomSize(raws, minZoom, i)
  {
    BoxTilesLength(NormalizeBox(raws[i], minZoom + i), minZoom + i);
  }

  /** Sum of the per-zoom box sizes. */
  function RegionSize(raws: seq<RawBox>, minZoom: nat): nat
    decreases |raws|
  {
    if raws == [] then 0
    else RegionSize(raws[..|raws| - 1], minZoom) + ZoomSize(raws, minZoom, |raws| - 1)
  }

  lemma AppendAssoc(a: seq<TileKey>, b: seq<TileKey>, c: seq<TileKey>)
    ensures a + b + c == a + (b + c)
  {
  }

  /** The inner loop's step: one more y extends the column by one tile. */
  lemma ColumnSnoc(x: int, fromY: int, toY: int, z: int)
    requires fromY <= toY
    ensures Column(x, fromY, toY + 1, z) == Column(x, fromY, toY, z) + [TileKey(x, toY, z)]
  {
  }

  /** The zoom loop's step: one more zoom level appends its box and its size. */
  lemma RegionSnoc(raws: seq<RawBox>, minZoom: nat, i: nat)
    requires i < |raws|
    ensures RegionTiles(raws[..i + 1], minZoom) ==
              RegionTiles(raws[..i], minZoom) + BoxTiles(NormalizeBox(raws[i], minZoom + i), minZoom + i)
    ensures RegionSize(raws[..i + 1], minZoom) ==
              RegionSize(raws[..i], minZoom) + BoxSize(NormalizeBox(raws[i], minZoom + i))
  {
    assert raws[..i + 1][..i] == raws[..i];
    assert raws[..i + 1][i] == raws[i];
  }

  /** Lexicographic order on (zoom, x, y): the visiting order of downloadRegion. */
  predicate Precedes(a: TileKey, b: TileKey) {
    a.z < b.z || (a.z == b.z && (a.x < b.x || (a.x == b.x && a.y < b.y)))
  }

  predicate Ascending(ts: seq<TileKey>) {
    forall i, j :: 0 <= i < j < |ts| ==> Precedes(ts[i], ts[j])
  }

  lemma ColumnMember(x: int, fromY: int, toY: int, z: int, k: TileKey)
    ensures k in Column(x, fromY, toY, z) <==> k.x == x && k.z == z && fromY <= k.y < toY
  {
    if k.x == x && k.z == z && fromY <= k.y < toY {
      assert Column(x, fromY, toY, z)[k.y - fromY] == k;
    }
  }

  lemma {:induction false} ColumnsMember(b: Box, z: int, toX: int, k: TileKey)
    ensures k in Columns(b, z, toX) <==> k.z == z && b.minX <= k.x < toX && b.minY <= k.y <= b.maxY
    decreases toX - b.minX
  {
    if toX > b.minX {
      ColumnsMember(b, z, toX - 1, k);
      ColumnMember(toX - 1, b.minY, b.maxY + 1, z, k);
    }
  }

  /** A tile is visited by the box loops exactly when it lies in the box, at that zoom. */
  lemma BoxTilesMember(b: Box, z: int, k: TileKey)
    ensures k in BoxTiles(b, z) <==> k.z == z && InBox(b, k.x, k.y)
  {
    ColumnsMember(b, z, b.maxX + 1, k);
  }

  lemma {:induction false} ColumnsLength(b: Box, z: int, toX: int)
    ensures |Columns(b, z, toX)| == Max(0, toX - b.minX) * Height(b)
    decreases toX - b.minX
  {
    if toX > b.minX {
      ColumnsLength(b, z, toX - 1);
      var k := toX - 1 - b.minX;
      assert (k + 1) * Height(b) == k * Height(b) + Height(b);
    }
  }

  /** The box loops visit BoxSize(b) tiles: the corrected per-zoom count. */
  lemma BoxTilesLength(b: Box, z: int)
    ensures |BoxTiles(b, z)| == BoxSize(b)
  {
    ColumnsLength(b, z, b.maxX + 1);
  }

  lemma {:induction false} ColumnsAscending(b: Box, z: int, toX: int)
    ensures Ascending(Columns(b, z, toX))
    decreases toX - b.minX
  {
    if toX > b.minX {
      var prefix := Columns(b, z, toX - 1);
      var column := Column(toX - 1, b.minY, b.maxY + 1, z);
      ColumnsAscending(b, z, toX - 1);
      forall i, j | 0 <= i < |prefix| && 0 <= j < |column|
        ensures Precedes(prefix[i], column[j])
      {
        ColumnsMember(b, z, toX - 1, prefix[i]);
      }
      AscendingAppend(prefix, column);
    }
  }

  lemma AscendingAppend(a: seq<TileKey>, b: seq<TileKey>)
    requires Ascending(a) && Ascending(b)
    requires forall i, j :: 0 <= i < |a| && 0 <= j < |b| ==> Precedes(a[i], b[j])
    ensures Ascending(a + b)
  {
    forall i, j | 0 <= i < j < |a + b|
      ensures Precedes((a + b)[i], (a + b)[j])
    {
      if j < |a| {
      } else if i >= |a| {
        assert (a + b)[i] == b[i - |a|] && (a + b)[j] == b[j - |a|];
      } else {
        assert (a + b)[j] == b[j - |a|];
      }
    }
  }

  /** Every tile of one zoom level's box carries that zoom. */
  lemma ZoomTilesLevel(raws: seq<RawBox>, minZoom: nat, i: nat, k: TileKey)
    requires i < |raws| && k in ZoomTiles(raws, minZoom, i)
    ensures k.z == minZoom + i
  {
    BoxTilesMember(NormalizeBox(raws[i], minZoom + i), minZoom + i, k);
  }

  /** A region tile is one of the clamped box of its own zoom, and every such tile is visited. */
  lemma {:induction false} RegionTilesMember(raws: seq<RawBox>, minZoom: nat, k: TileKey)
    ensures k in RegionTiles(raws, minZoom) <==>
              minZoom <= k.z < minZoom + |raws| && k in ZoomTiles(raws, minZoom, k.z - minZoom)
    decreases |raws|
  {
    if raws != [] {
      var n := |raws| - 1;
      RegionTilesMember(raws[..n], minZoom, k);
      if k in ZoomTiles(raws, minZoom, n) {
        ZoomTilesLevel(raws, minZoom, n, k);
      }
      if minZoom <= k.z < minZoom + n {
        var i := k.z - minZoom;
        assert raws[..n][i] == raws[i];
        assert ZoomTiles(raws[..n], minZoom, i) == ZoomTiles(raws, minZoom, i);
      }
    }
  }

  /** A region tile is exactly a tile in the clamped box of its own zoom. */
  lemma RegionTilesInBox(raws: seq<RawBox>, minZoom: nat, k: TileKey)
    ensures k in RegionTiles(raws, minZoom) <==>
              minZoom <= k.z < minZoom + |raws| &&
              InBox(NormalizeBox(raws[k.z - minZoom], k.z), k.x, k.y)
  {
    RegionTilesMember(raws, minZoom, k);
    if minZoom <= k.z < minZoom + |raws| {
      BoxTilesMember(NormalizeBox(raws[k.z - minZoom], k.z), k.z, k);
    }
  }

  /** Every tile a region download visits is a valid tile of its zoom. */
  lemma RegionTilesValid(raws: seq<RawBox>, minZoom: nat, k: TileKey)
    requires k in RegionTiles(raws, minZoom)
    ensures k.z >= 0 && ValidTile(k.z, k.x, k.y)
  {
    RegionTilesInBox(raws, minZoom, k);
    NormalizeBoxSpan(raws[k.z - minZoom], k.z, k.x, k.y);
  }

  /** The region visits exactly the sum of the per-zoom box sizes. */
  lemma {:induction false} RegionTilesLength(raws: seq<RawBox>, minZoom: nat)
    ensures |RegionTiles(raws, minZoom)| == RegionSize(raws, minZoom)
    decreases |raws|
  {
    if raws != [] {
      var n := |raws| - 1;
      RegionTilesLength(raws[..n], minZoom);
      ZoomTilesLength(raws, minZoom, n);
    }
  }

  /** Zooms ascending, x outer, y inner: the visiting order is strictly increasing. */
  lemma {:induction false} RegionTilesAscending(raws: seq<RawBox>, minZoom: nat)
    ensures Ascending(RegionTiles(raws, minZoom))
    decreases |raws|
  {
    if raws != [] {
      var n := |raws| - 1;
      var prefix := RegionTiles(raws[..n], minZoom);
      var last := ZoomTiles(raws, minZoom, n);
      RegionTilesAscending(raws[..n], minZoom);
      ColumnsAscending(NormalizeBox(raws[n], minZoom + n), minZoom + n,
                       NormalizeBox(raws[n], minZoom + n).maxX + 1);
      forall i, j | 0 <= i < |prefix| && 0 <= j < |last|
        ensures Precedes(prefix[i], last[j])
      {
        RegionTilesMember(raws[..n], minZoom, prefix[i]);
        BoxTilesMember(NormalizeBox(raws[n], minZoom + n), minZoom + n, last[j]);
      }
      AscendingAppend(prefix, last);
    }
  }

  // ---------------------------------------------------------------------------
  // Visiting tiles one at a time: the nested loops as folds of a step over a state.

  /** `step` applied to every tile of `ts` in turn, starting from `r`. */
  function Fold<S>(step: (S, TileKey) -> S, r: S, ts: seq<TileKey>): S
    decreases |ts|
  {
    if ts == [] then r else step(Fold(step, r, ts[..|ts| - 1]), ts[|ts| - 1])
  }

  /** The y loop over column x, rows fromY .. toY - 1. */
  function ColumnFold<S>(step: (S, TileKey) -> S, r: S, x: int, fromY: int, toY: int, z: int): S
    decreases toY - fromY
  {
    if toY <= fromY then r else step(ColumnFold(step, r, x, fromY, toY - 1, z), TileKey(x, toY - 1, z))
  }

  /** The x loop over columns b.minX .. toX - 1 of box b, each with its y loop. */
  function BoxFold<S>(step: (S, TileKey) -> S, r: S, b: Box, z: int, toX: int): S
    decreases toX - b.minX
  {
    if toX <= b.minX then r else ColumnFold(step, BoxFold(step, r, b, z, toX - 1), toX - 1, b.minY, b.maxY + 1, z)
  }

  /** The zoom loop of a region download, each level with its box loops. */
  function RegionFold<S>(step: (S, TileKey) -> S, r: S, raws: seq<RawBox>, minZoom: nat): S
    decreases |raws|
  {
    if raws == [] then r
    else
      var n := |raws| - 1;
      var b := NormalizeBox(raws[n], minZoom + n);
      BoxFold(step, RegionFold(step, r, raws[..n], minZoom), b, minZoom + n, b.maxX + 1)
  }

  /** The zoom loop's step: one more zoom level runs the box loops over its clamped box. */
  lemma RegionFoldSnoc<S>(step: (S, TileKey) -> S, r: S, raws: seq<RawBox>, minZoom: nat, i: nat)
    requires i < |raws|
    ensures var b := NormalizeBox(raws[i], minZoom + i);
            RegionFold(step, r, raws[..i + 1], minZoom) ==
              BoxFold(step, RegionFold(step, r, raws[..i], minZoom), b, minZoom + i, b.maxX + 1)
  {
    assert raws[..i + 1][..i] == raws[..i];
    assert raws[..i + 1][i] == raws[i];
  }

  lemma FoldSnoc<S>(step: (S, TileKey) -> S, r: S, ts: seq<TileKey>, k: TileKey)
    ensures Fold(step, r, ts + [k]) == step(Fold(step, r, ts), k)
  {
    assert (ts + [k])[..|ts|] == ts;
  }

  /** Folding over two runs one after the other is folding over their concatenation. */
  lemma {:induction false} FoldAppend<S>(step: (S, TileKey) -> S, r: S, a: seq<TileKey>, b: seq<TileKey>)
    ensures Fold(step, r, a + b) == Fold(step, Fold(step, r, a), b)
    decreases |b|
  {
    if b == [] {
      assert a + b == a;
    } else {
      var n := |b| - 1;
      assert b == b[..n] + [b[n]];
      assert a + b == (a + b[..n]) + [b[n]];
      FoldAppend(step, r, a, b[..n]);
      FoldSnoc(step, r, a + b[..n], b[n]);
      FoldSnoc(step, Fold(step, r, a), b[..n], b[n]);
    }
  }

  /** The y loop visits exactly the column, in order. */
  lemma {:induction false} ColumnFoldFlat<S>(step: (S, TileKey) -> S, r: S, x: int, fromY: int, toY: int, z: int)
    ensures ColumnFold(step, r, x, fromY, toY, z) == Fold(step, r, Column(x, fromY, toY, z))
    decreases toY - fromY
  {
    if toY <= fromY {
      assert Column(x, fromY, toY, z) == [];
    } else {
      ColumnFoldFlat(step, r, x, fromY, toY - 1, z);
      ColumnSnoc(x, fromY, toY - 1, z);
      FoldSnoc(step, r, Column(x, fromY, toY - 1, z), TileKey(x, toY - 1, z));
    }
  }

  /** The box loops visit exactly the box's tiles, in order. */
  lemma {:induction false} BoxFoldFlat<S>(step: (S, TileKey) -> S, r: S, b: Box, z: int, toX: int)
    ensures BoxFold(step, r, b, z, toX) == Fold(step, r, Columns(b, z, toX))
    decreases toX - b.minX
  {
    if b.minX < toX {
      BoxFoldFlat(step, r, b, z, toX - 1);
      ColumnFoldFlat(step, BoxFold(step, r, b, z, toX - 1), toX - 1, b.minY, b.maxY + 1, z);
      FoldAppend(step, r, Columns(b, z, toX - 1), Column(toX - 1, b.minY, b.maxY + 1, z));
    }
  }

  /** The region loops visit exactly the region's tiles, in order. */
  lemma {:induction false} RegionFoldFlat<S>(step: (S, TileKey) -> S, r: S, raws: seq<RawBox>, minZoom: nat)
    ensures RegionFold(step, r, raws, minZoom) == Fold(step, r, RegionTiles(raws, minZoom))
    decreases |raws|
  {
    if raws != [] {
      var n := |raws| - 1;
      var b := NormalizeBox(raws[n], minZoom + n);
      var prior := RegionTiles(raws[..n], minZoom);
      var s := RegionFold(step, r, raws[..n], minZoom);
      RegionFoldFlat(step, r, raws[..n], minZoom);
      BoxFoldFlat(step, s, b, minZoom + n, b.maxX + 1);
      FoldAppend(step, r, prior, BoxTiles(b, minZoom + n));
    }
  }

  // ---------------------------------------------------------------------------
  // The cached / missing split.

  /** The tiles without a cache file, in visiting order: what downloadRegion enqueues. */
  function Missing(ts: seq<TileKey>, cached: set<TileKey>): seq<TileKey>
    decreases |ts|
  {
    if ts == [] then []
    else Missing(ts[..|ts| - 1], cached) + (if ts[|ts| - 1] in cached then [] else [ts[|ts| - 1]])
  }

  /** The tiles with a cache file, in visiting order: what downloadRegion counts as done. */
  function Present(ts: seq<TileKey>, cached: set<TileKey>): seq<TileKey>
    decreases |ts|
  {
    if ts == [] then []
    else Present(ts[..|ts| - 1], cached) + (if ts[|ts| - 1] in cached then [ts[|ts| - 1]] else [])
  }

  lemma MissingSnoc(ts: seq<TileKey>, k: TileKey, cached: set<TileKey>)
    ensures Missing(ts + [k], cached) == if k in cached then Missing(ts, cached) else Missing(ts, cached) + [k]
    ensures Present(ts + [k], cached) == if k in cached then Present(ts, cached) + [k] else Present(ts, cached)
  {
    assert (ts + [k])[..|ts|] == ts;
    assert Missing(ts, cached) + [] == Missing(ts, cached);
    assert Present(ts, cached) + [] == Present(ts, cached);
  }

  /** Every visited tile is either enqueued or counted, never both and never neither. */
  lemma {:induction false} MissingPresentPartition(ts: seq<TileKey>, cached: set<TileKey>)
    ensures |Missing(ts, cached)| + |Present(ts, cached)| == |ts|
    decreases |ts|
  {
    if ts != [] {
      MissingPresentPartition(ts[..|ts| - 1], cached);
    }
  }

  lemma {:induction false} MissingMember(ts: seq<TileKey>, cached: set<TileKey>, k: TileKey)
    ensures k in Missing(ts, cached) <==> k in ts && k !in cached
    decreases |ts|
  {
    if ts != [] {
      var n := |ts| - 1;
      MissingMember(ts[..n], cached, k);
      assert ts == ts[..n] + [ts[n]];
    }
  }

  lemma {:induction false} PresentMember(ts: seq<TileKey>, cached: set<TileKey>, k: TileKey)
    ensures k in Present(ts, cached) <==> k in ts && k in cached
    decreases |ts|
  {
    if ts != [] {
      var n := |ts| - 1;
      PresentMember(ts[..n], cached, k);
      assert ts == ts[..n] + [ts[n]];
    }
  }

  /** The enqueued tiles keep the visiting order. */
  lemma {:induction false} MissingAscending(ts: seq<TileKey>, cached: set<TileKey>)
    requires Ascending(ts)
    ensures Ascending(Missing(ts, cached))
    decreases |ts|
  {
    if ts != [] {
      var n := |ts| - 1;
      var prefix := Missing(ts[..n], cached);
      MissingAscending(ts[..n], cached);
      if ts[n] !in cached {
        forall i | 0 <= i < |prefix|
          ensures Precedes(prefix[i], ts[n])
        {
          MissingMember(ts[..n], cached, prefix[i]);
          var j :| 0 <= j < n && ts[..n][j] == prefix[i];
        }
        AscendingAppend(prefix, [ts[n]]);
      }
    }
  }

  /** When every visited tile is cached nothing is enqueued and all of them are counted. */
  lemma {:induction false} AllCachedNothingMissing(ts: seq<TileKey>, cached: set<TileKey>)
    requires forall i :: 0 <= i < |ts| ==> ts[i] in cached
    ensures Missing(ts, cached) == [] && |Present(ts, cached)| == |ts|
    decreases |ts|
  {
    if ts != [] {
      AllCachedNothingMissing(ts[..|ts| - 1], cached);
    }
  }

  // ---------------------------------------------------------------------------
  // Placement, the visible window and the retained window.

  type Pos = (int, int)

  /**
   * Scene position of a tile, relative to the tile holding the viewport centre:
   * (index - centre + viewport / 2) * tileSize on each axis.
   */
  function Placement(k: TileKey, cx: int, cy: int): Pos
  {
    ((k.x - cx + ViewportTilesX / 2) * TileSize, (k.y - cy + ViewportTilesY / 2) * TileSize)
  }

  /**
   * The centre tile lands in the middle cell, neighbours are one tile size apart, and a
   * tile of the visible window lies inside the scene rectangle setZoom installs
   * (max(viewportTilesX, viewportTilesY) * tileSize square).
   */
  lemma PlacementGrid(k: TileKey, cx: int, cy: int)
    ensures Placement(TileKey(cx, cy, k.z), cx, cy) == (ViewportTilesX / 2 * TileSize, ViewportTilesY / 2 * TileSize)
    ensures Placement(TileKey(k.x + 1, k.y, k.z), cx, cy).0 == Placement(k, cx, cy).0 + TileSize
    ensures Placement(TileKey(k.x, k.y + 1, k.z), cx, cy).1 == Placement(k, cx, cy).1 + TileSize
    ensures cx - ViewportTilesX / 2 <= k.x <= cx + ViewportTilesX / 2 &&
            cy - ViewportTilesY / 2 <= k.y <= cy + ViewportTilesY / 2 ==>
              0 <= Placement(k, cx, cy).0 && Placement(k, cx, cy).0 + TileSize <= Max(ViewportTilesX, ViewportTilesY) * TileSize &&
              0 <= Placement(k, cx, cy).1 && Placement(k, cx, cy).1 + TileSize <= Max(ViewportTilesX, ViewportTilesY) * TileSize
  {
  }

  /** calculateVisibleTiles' window: centre +- viewport / 2, clamped to the valid range. */
  function VisibleWindow(cx: int, cy: int, z: nat): Box
  {
    var maxTile := MaxTile(z);
    Box(Max(0, cx - ViewportTilesX / 2), Max(0, cy - ViewportTilesY / 2),
        Min(maxTile, cx + ViewportTilesX / 2), Min(maxTile, cy + ViewportTilesY / 2))
  }

  /**
   * cleanupTiles keeps a displayed tile exactly when it has the current zoom and lies in
   * the viewport window widened by CleanupMargin on both axes.
   */
  predicate Retained(k: TileKey, zoom: int, cx: int, cy: int)
  {
    && k.z == zoom
    && cx - ViewportTilesX / 2 - CleanupMargin <= k.x <= cx + ViewportTilesX / 2 + CleanupMargin
    && cy - ViewportTilesY / 2 - CleanupMargin <= k.y <= cy + ViewportTilesY / 2 + CleanupMargin
  }

  /** The displayed-tile table after cleanupTiles. */
  function RetainedItems(items: map<TileKey, Pos>, zoom: int, cx: int, cy: int): map<TileKey, Pos>
  {
    map k | k in items && Retained(k, zoom, cx, cy) :: items[k]
  }

  /** cleanupTiles never evicts a tile that calculateVisibleTiles shows for the same centre. */
  lemma VisibleTilesRetained(cx: int, cy: int, z: nat, k: TileKey)
    requires k in BoxTiles(VisibleWindow(cx, cy, z), z)
    ensures Retained(k, z, cx, cy)
  {
    BoxTilesMember(VisibleWindow(cx, cy, z), z, k);
  }

  /** Every tile of the visible window is a valid tile at its zoom. */
  lemma VisibleTilesValid(cx: int, cy: int, z: nat, k: TileKey)
    requires k in BoxTiles(VisibleWindow(cx, cy, z), z)
    ensures ValidTile(z, k.x, k.y) && k.z == z
  {
    BoxTilesMember(VisibleWindow(cx, cy, z), z, k);
  }

  /** A second cleanup with the same zoom and centre removes nothing more. */
  lemma RetainedItemsIdempotent(items: map<TileKey, Pos>, zoom: int, cx: int, cy: int)
    ensures RetainedItems(RetainedItems(items, zoom, cx, cy), zoom, cx, cy) == RetainedItems(items, zoom, cx, cy)
  {
  }

  // ---------------------------------------------------------------------------
  // The per-zoom total as written and as corrected.

  /**
   * As written, a box whose x extent is empty (both corners east of the last column)
   * contributes a negative amount to the region total, although no tile is visited:
   * corners (3, 0) and (3, 1) at zoom 1 give -2.
   */
  lemma BoxSizeAsWrittenMiscounts()
    ensures BoxSizeAsWritten(NormalizeBox(RawBox(3, 0, 3, 1), 1)) == -2
    ensures BoxTiles(NormalizeBox(RawBox(3, 0, 3, 1), 1), 1) == []
  {
    var b := NormalizeBox(RawBox(3, 0, 3, 1), 1);
    assert b == Box(3, 0, 1, 1);
    assert BoxTiles(b, 1) == Columns(b, 1, 2);
  }

  /** The corrected count agrees with the written one whenever the box is non-empty. */
  lemma BoxSizeAgreesWhenNonEmpty(b: Box)
    requires b.minX <= b.maxX && b.minY <= b.maxY
    ensures BoxSizeAsWritten(b) == BoxSize(b)
  {
  }
}
