/**
 * The tile orchestrator TileMapManager: the displayed-tile table, the region-download
 * queue and counters, the bounded dispatch to the fetch worker, the completion latch
 * with its safety net, and the viewport loading and eviction.
 *
 * The scene, the worker thread and the disk are abstracted: the centre tile of the
 * viewport (what latLonToTile gives for the stored centre at the current zoom) is an
 * argument, "the cache file exists" is membership in a `cached` set, "the image decodes"
 * membership in a `decodes` set, and every signal the manager emits is appended to `log`.
 */
module TileManager {
  import opened Wrappers
  import opened Decimal
  import opened TileGeometry
  import opened TilePaths

  /** The signals TileMapManager emits, in the order it emits them. */
  datatype Signal =
    | RequestDownloadTile(info: TileInfo)
    | RequestLoadTile(key: TileKey, filePath: string)
    | RegionDownloadProgress(current: int, total: int, zoom: int)
    | DownloadProgress(loaded: int, total: int)
    | DownloadFinished

  /** The single-shot processing timer: stopped, or due to fire after `ms` milliseconds. */
  datatype Timer = Idle | Armed(ms: nat)

  /** `if (!timer->isActive()) timer->start(ms)`. */
  function Arm(t: Timer, ms: nat): (r: Timer)
    ensures t.Idle? ==> r == Armed(ms)
    ensures t.Armed? ==> r == t
  {
    if t.Idle? then Armed(ms) else t
  }

  const MaxConcurrentRequests: int := 10
  const DefaultZoom: int := 10
  /** checkAndEmitDownloadFinished gives up waiting for replies after this many calls... */
  const TimeoutLimit: int := 50
  /** ...or after this many when the queue is already empty. */
  const EmptyQueueLimit: int := 30

  /** Number of DownloadFinished signals in a stretch of the log. */
  function FinishCount(log: seq<Signal>): nat
    decreases |log|
  {
    if log == [] then 0
    else FinishCount(log[..|log| - 1]) + (if log[|log| - 1].DownloadFinished? then 1 else 0)
  }

  lemma SessionSnoc(log: seq<Signal>, start: nat, e: Signal)
    requires start <= |log|
    ensures FinishCount((log + [e])[start..]) ==
              FinishCount(log[start..]) + (if e.DownloadFinished? then 1 else 0)
  {
    var s := (log + [e])[start..];
    assert s[..|s| - 1] == log[start..];
  }

  /** The request signals for a run of queue entries. */
  function Requests(infos: seq<TileInfo>): (r: seq<Signal>)
    ensures |r| == |infos|
  {
    seq(|infos|, i requires 0 <= i < |infos| => RequestDownloadTile(infos[i]))
  }

  lemma RequestsSnoc(infos: seq<TileInfo>, info: TileInfo)
    ensures Requests(infos + [info]) == Requests(infos) + [RequestDownloadTile(info)]
  {
    var l := Requests(infos + [info]);
    var r := Requests(infos) + [RequestDownloadTile(info)];
    forall i | 0 <= i < |l|
      ensures l[i] == r[i]
    {
      if i < |infos| {
        assert (infos + [info])[i] == infos[i];
      }
    }
  }

  // ---------------------------------------------------------------------------
  // The completion safety net of checkAndEmitDownloadFinished.

  /**
   * The part of the manager's state checkAndEmitDownloadFinished reads and writes:
   * in-flight requests, the processing flag, the finished latch, the timer and the two
   * wait counters (function-static in the source).
   */
  datatype NetState = NetState(requests: int, processing: bool, emitted: bool, timer: Timer,
                               timeouts: int, emptyWaits: int)

  /**
   * One call of checkAndEmitDownloadFinished, given the region total and progress and
   * whether the queue is empty. The latch is set exactly when DownloadFinished is emitted.
   */
  function SafetyNet(total: int, current: int, queueEmpty: bool, s: NetState): NetState
  {
    var s0 := s.(requests := if s.requests < 0 then 0 else s.requests);
    LateFinish(total, current, KeepAlive(queueEmpty, NetBranch(total, current, queueEmpty, s0)))
  }

  /** The safety net's chain of cases, on a non-negative in-flight count. */
  function NetBranch(total: int, current: int, queueEmpty: bool, s: NetState): NetState
  {
    var done := total > 0 && current >= total;
    if done && s.requests == 0 then
      if !s.emitted then s.(emitted := true, processing := false) else s
    else if s.emitted && s.requests == 0 && queueEmpty then
      s.(processing := false)
    else if done && s.requests > 0 then TimeoutWait(s)
    else if s.processing && queueEmpty && s.requests > 0 then EmptyQueueWait(s)
    else if s.processing && total > 0 then
      s.(timer := Arm(s.timer, 300))
    else s
  }

  /**
   * Waiting for replies on a complete region: one more wait, or after TimeoutLimit of
   * them the in-flight count is dropped, processing stops and the latch is set.
   */
  function TimeoutWait(s: NetState): NetState
  {
    if s.timeouts + 1 > TimeoutLimit then
      s.(requests := 0, processing := false, emitted := true, timeouts := 0)
    else s.(timeouts := s.timeouts + 1, timer := Arm(s.timer, 500))
  }

  /** The same with an empty queue and an incomplete region, after EmptyQueueLimit waits. */
  function EmptyQueueWait(s: NetState): NetState
  {
    if s.emptyWaits + 1 > EmptyQueueLimit then
      s.(requests := 0, processing := false, emitted := true, emptyWaits := 0)
    else s.(emptyWaits := s.emptyWaits + 1, timer := Arm(s.timer, 500))
  }

  /** The safety net's keep-alive: while processing with work left, the timer runs. */
  function KeepAlive(queueEmpty: bool, s: NetState): NetState
  {
    if s.processing && (!queueEmpty || s.requests > 0) then s.(timer := Arm(s.timer, 200)) else s
  }

  /** The safety net's last resort: processing stopped on a complete region without the signal. */
  function LateFinish(total: int, current: int, s: NetState): NetState
  {
    if !s.processing && total > 0 && current >= total && !s.emitted then s.(emitted := true) else s
  }

  /** On a non-negative in-flight count the safety net is its three stages in turn. */
  lemma SafetyNetStages(total: int, current: int, queueEmpty: bool, s: NetState)
    requires s.requests >= 0
    ensures SafetyNet(total, current, queueEmpty, s) ==
              LateFinish(total, current, KeepAlive(queueEmpty, NetBranch(total, current, queueEmpty, s)))
  {
    assert s.(requests := s.requests) == s;
  }

  /**
   * The safety net never clears the latch and never leaves a negative request count;
   * once every tile of the region is accounted for, it sets the latch as soon as no
   * request is in flight or processing has stopped; and it only ever lowers the
   * in-flight count to zero, together with stopping and latching.
   */
  lemma SafetyNetCompletes(total: int, current: int, queueEmpty: bool, s: NetState)
    ensures var r := SafetyNet(total, current, queueEmpty, s);
      && (s.emitted ==> r.emitted)
      && r.requests >= 0
      && (total > 0 && current >= total && r.requests == 0 ==> r.emitted)
      && (total > 0 && current >= total && !r.processing ==> r.emitted)
      && (r.requests != (if s.requests < 0 then 0 else s.requests) ==> r.requests == 0 && r.emitted && !r.processing)
      && (r.processing ==> s.processing)
  {
  }

  /** The wait counters stay within their limits. */
  lemma SafetyNetCounters(total: int, current: int, queueEmpty: bool, s: NetState)
    requires 0 <= s.timeouts <= TimeoutLimit && 0 <= s.emptyWaits <= EmptyQueueLimit
    ensures var r := SafetyNet(total, current, queueEmpty, s);
      0 <= r.timeouts <= TimeoutLimit && 0 <= r.emptyWaits <= EmptyQueueLimit
  {
  }

  /** `n` consecutive calls of the safety net with nothing else happening in between. */
  function Repeat(total: int, current: int, queueEmpty: bool, s: NetState, n: nat): NetState
    decreases n
  {
    if n == 0 then s else Repeat(total, current, queueEmpty, SafetyNet(total, current, queueEmpty, s), n - 1)
  }

  lemma {:induction false} RepeatSettled(total: int, current: int, queueEmpty: bool, s: NetState, n: nat)
    requires total > 0 && current >= total && s.requests == 0 && s.emitted
    ensures Repeat(total, current, queueEmpty, s, n).requests == 0
    ensures Repeat(total, current, queueEmpty, s, n).emitted
    decreases n
  {
    if n > 0 {
      RepeatSettled(total, current, queueEmpty, SafetyNet(total, current, queueEmpty, s), n - 1);
    }
  }

  /**
   * checkAndEmitDownloadFinished on its own: called on a complete region while requests
   * are still counted in flight, within TimeoutLimit + 1 - timeouts further calls it drops
   * the in-flight count to zero and sets the latch. Its only caller never calls it with a
   * request in flight (see SafetyNetAtDrain), so this wait is never reached.
   */
  lemma {:induction false} SafetyNetGivesUp(total: int, current: int, queueEmpty: bool, s: NetState, n: nat)
    requires total > 0 && current >= total
    requires s.requests >= 0 && 0 <= s.timeouts <= TimeoutLimit
    requires n >= TimeoutLimit + 1 - s.timeouts
    ensures Repeat(total, current, queueEmpty, s, n).requests == 0
    ensures Repeat(total, current, queueEmpty, s, n).emitted
    decreases n
  {
    var r := SafetyNet(total, current, queueEmpty, s);
    if r.requests == 0 && r.emitted {
      RepeatSettled(total, current, queueEmpty, r, n - 1);
    } else {
      assert r.requests == s.requests && r.timeouts == s.timeouts + 1;
      SafetyNetGivesUp(total, current, queueEmpty, r, n - 1);
    }
  }

  /**
   * checkAndEmitDownloadFinished as processNextBatch calls it: with the queue empty and no
   * request in flight. The in-flight count and the wait counters do not move, so neither
   * wait is ever taken; the latch ends up set exactly when it was set or the region is
   * complete; processing goes on only while completion and the latch agree; and only an
   * incomplete, unlatched region still being processed re-arms the timer, at 300 ms.
   */
  lemma SafetyNetAtDrain(total: int, current: int, s: NetState)
    requires s.requests == 0
    ensures var r := SafetyNet(total, current, true, s);
            var done := total > 0 && current >= total;
            && r.requests == 0 && r.timeouts == s.timeouts && r.emptyWaits == s.emptyWaits
            && (r.emitted <==> s.emitted || done)
            && (r.processing <==> s.processing && (done <==> s.emitted))
            && r.timer == (if s.processing && !done && !s.emitted && total > 0 then Arm(s.timer, 300) else s.timer)
  {
  }

  // ---------------------------------------------------------------------------
  // The region scan of downloadRegion.

  /** What the scan consults: the cache directory, the URL template and the cached tiles. */
  datatype ScanEnv = ScanEnv(root: string, template: string, cached: set<TileKey>)

  /** The queue built so far, the rotation index and the number of tiles counted as done. */
  datatype Scan = Scan(queue: seq<TileInfo>, server: ServerIndex, counted: int)

  /**
   * The scan's step for one tile: a cached tile is counted as done, a missing one is
   * queued with its URL (advancing the rotation) and its cache path.
   */
  function TileStep(e: ScanEnv, r: Scan, k: TileKey): Scan
  {
    if k in e.cached then r.(counted := r.counted + 1)
    else
      var u := TileUrl(e.template, k, r.server);
      Scan(r.queue + [TileInfo(k, u.0, TilePath(e.root, k))], u.1, r.counted)
  }

  function Step(e: ScanEnv): (Scan, TileKey) -> Scan
  {
    (r, k) => TileStep(e, r, k)
  }

  /**
   * A scan from an empty queue: the queue holds exactly the missing tiles in visiting
   * order, each with the URL the rotation gives it and its cache path; the rotation has
   * advanced over them; the cached tiles are counted.
   */
  lemma {:induction false} ScanQueuesMissing(e: ScanEnv, seen: seq<TileKey>, idx0: ServerIndex)
    ensures Fold(Step(e), Scan([], idx0, 0), seen) ==
              Scan(Infos(e.root, e.template, Missing(seen, e.cached), idx0),
                   IndexAfter(e.template, Missing(seen, e.cached), idx0),
                   |Present(seen, e.cached)|)
    decreases |seen|
  {
    if seen != [] {
      var n := |seen| - 1;
      var k := seen[n];
      assert seen == seen[..n] + [k];
      ScanQueuesMissing(e, seen[..n], idx0);
      FoldSnoc(Step(e), Scan([], idx0, 0), seen[..n], k);
      MissingSnoc(seen[..n], k, e.cached);
      if k !in e.cached {
        InfosSnoc(e.root, e.template, Missing(seen[..n], e.cached), k, idx0);
      }
    }
  }

  /**
   * downloadRegion's queue: after the zoom, x and y loops from an empty queue, the queue
   * is the region's missing tiles in visiting order with their URLs and paths, the
   * rotation has advanced over them, and the count is the number of cached tiles.
   */
  lemma RegionScan(e: ScanEnv, raws: seq<RawBox>, minZoom: nat, idx0: ServerIndex)
    ensures var ts := RegionTiles(raws, minZoom);
            RegionFold(Step(e), Scan([], idx0, 0), raws, minZoom) ==
              Scan(Infos(e.root, e.template, Missing(ts, e.cached), idx0),
                   IndexAfter(e.template, Missing(ts, e.cached), idx0),
                   |Present(ts, e.cached)|)
  {
    RegionFoldFlat(Step(e), Scan([], idx0, 0), raws, minZoom);
    ScanQueuesMissing(e, RegionTiles(raws, minZoom), idx0);
  }

  // ---------------------------------------------------------------------------
  // The manager.

  /** The entries placed in the scene for a run of tiles, each at its grid position. */
  function Placed(ts: seq<TileKey>, cx: int, cy: int): (m: map<TileKey, Pos>)
    ensures forall k :: k in m <==> k in ts
  {
    map k | k in ts :: Placement(k, cx, cy)
  }

  /** The table after repositionTiles: tiles of the current zoom move to their grid position. */
  function Repositioned(items: map<TileKey, Pos>, zoom: int, cx: int, cy: int): (r: map<TileKey, Pos>)
    ensures r.Keys == items.Keys
  {
    map k | k in items :: if k.z == zoom then Placement(k, cx, cy) else items[k]
  }

  // ---------------------------------------------------------------------------
  // The visible-window scan of calculateVisibleTiles.

  /**
   * What the scan consults: the cache directory, the URL template, the tiles with a cache
   * file, the tiles whose cache file decodes to an image, and the centre tile.
   */
  datatype ViewEnv = ViewEnv(root: string, template: string, cached: set<TileKey>, decodes: set<TileKey>,
                             cx: int, cy: int)

  /**
   * What the scan changes: the displayed-tile table, the rotation index, the in-flight
   * count and the signal log, and its two counters (tiles shown and tiles requested).
   */
  datatype View = View(items: map<TileKey, Pos>, server: ServerIndex, requests: int, log: seq<Signal>,
                       loaded: int, toDownload: int)

  /**
   * One tile of the window: a displayed tile is counted as shown; a cached one is shown
   * from disk when its image decodes; a missing one is requested with the next URL.
   */
  function ViewStep(e: ViewEnv, v: View, k: TileKey): View
  {
    if k in v.items then v.(loaded := v.loaded + 1)
    else if k in e.cached then
      if k in e.decodes then v.(items := v.items[k := Placement(k, e.cx, e.cy)], loaded := v.loaded + 1)
      else v
    else
      var u := TileUrl(e.template, k, v.server);
      v.(server := u.1, requests := v.requests + 1,
         log := v.log + [RequestDownloadTile(TileInfo(k, u.0, TilePath(e.root, k)))],
         toDownload := v.toDownload + 1)
  }

  function Visit(e: ViewEnv): (View, TileKey) -> View
  {
    (v, k) => ViewStep(e, v, k)
  }

  /** The tiles of a run neither displayed nor cached: those requested from the network. */
  function Fetched(ts: seq<TileKey>, shown: set<TileKey>, cached: set<TileKey>): seq<TileKey>
  {
    Missing(Missing(ts, shown), cached)
  }

  /** The tiles of a run not displayed yet whose cache file decodes: those shown from disk. */
  function FromDisk(ts: seq<TileKey>, shown: set<TileKey>, cached: set<TileKey>, decodes: set<TileKey>): seq<TileKey>
  {
    Present(Missing(ts, shown), cached * decodes)
  }

  lemma PlacedSnoc(ts: seq<TileKey>, k: TileKey, cx: int, cy: int)
    ensures Placed(ts + [k], cx, cy) == Placed(ts, cx, cy)[k := Placement(k, cx, cy)]
  {
  }

  lemma UnionUpdate(a: map<TileKey, Pos>, b: map<TileKey, Pos>, k: TileKey, p: Pos)
    ensures a + b[k := p] == (a + b)[k := p]
  {
  }

  /** No tile occurs twice in a run. */
  predicate Distinct(ts: seq<TileKey>)
  {
    forall i, j :: 0 <= i < j < |ts| ==> ts[i] != ts[j]
  }

  lemma AscendingDistinct(ts: seq<TileKey>)
    requires Ascending(ts)
    ensures Distinct(ts)
  {
    forall i, j | 0 <= i < j < |ts|
      ensures ts[i] != ts[j]
    {
      assert Precedes(ts[i], ts[j]);
    }
  }

  /**
   * The window scan over a run of distinct tiles: the tiles shown from disk are added to
   * the table at their grid position, the missing tiles are requested in visiting order
   * with the rotation's URLs (advancing it), one request each, and the counters are the
   * tiles shown (already displayed or from disk) and the tiles requested.
   */
  lemma {:induction false} ViewScan(e: ViewEnv, v: View, ts: seq<TileKey>)
    requires Distinct(ts)
    ensures Fold(Visit(e), v, ts) == Scanned(e, v, ts)
    decreases |ts|
  {
    if ts == [] {
      assert Placed([], e.cx, e.cy) == map[];
      assert v.items + map[] == v.items;
      assert v.log + [] == v.log;
    } else {
      var n := |ts| - 1;
      var k := ts[n];
      var pre := ts[..n];
      assert ts == pre + [k];
      assert Distinct(pre);
      assert k !in pre;
      ViewScan(e, v, pre);
      FoldSnoc(Visit(e), v, pre, k);
      ViewScanStep(e, v, pre, k);
    }
  }

  /** The scan's state after a run of distinct tiles, as ViewScan states it. */
  function Scanned(e: ViewEnv, v: View, ts: seq<TileKey>): View
  {
    var f := Fetched(ts, v.items.Keys, e.cached);
    var d := FromDisk(ts, v.items.Keys, e.cached, e.decodes);
    View(v.items + Placed(d, e.cx, e.cy), IndexAfter(e.template, f, v.server),
         v.requests + |f|, v.log + Requests(Infos(e.root, e.template, f, v.server)),
         v.loaded + |Present(ts, v.items.Keys)| + |d|, v.toDownload + |f|)
  }

  /** The induction step of ViewScan: one more tile, not visited before. */
  lemma ViewScanStep(e: ViewEnv, v: View, pre: seq<TileKey>, k: TileKey)
    requires k !in pre
    ensures ViewStep(e, Scanned(e, v, pre), k) == Scanned(e, v, pre + [k])
  {
    var k0 := v.items.Keys;
    var m := Missing(pre, k0);
    var d := FromDisk(pre, k0, e.cached, e.decodes);
    MissingSnoc(pre, k, k0);
    PresentMember(m, e.cached * e.decodes, k);
    MissingMember(pre, k0, k);
    assert k in Scanned(e, v, pre).items <==> k in k0;
    if k in k0 {
      KnownTileStep(e, v, pre, k);
    } else if k in e.cached {
      DiskTileStep(e, v, pre, k);
    } else {
      FetchTileStep(e, v, pre, k);
    }
  }

  /** A tile already displayed is only counted. */
  lemma KnownTileStep(e: ViewEnv, v: View, pre: seq<TileKey>, k: TileKey)
    requires k in v.items
    ensures Scanned(e, v, pre + [k]) == Scanned(e, v, pre).(loaded := Scanned(e, v, pre).loaded + 1)
  {
    MissingSnoc(pre, k, v.items.Keys);
  }

  /** A cached tile not displayed yet is shown when its image decodes. */
  lemma DiskTileStep(e: ViewEnv, v: View, pre: seq<TileKey>, k: TileKey)
    requires k !in v.items && k in e.cached && k !in pre
    ensures var w := Scanned(e, v, pre);
            Scanned(e, v, pre + [k]) ==
              if k in e.decodes then w.(items := w.items[k := Placement(k, e.cx, e.cy)], loaded := w.loaded + 1)
              else w
  {
    var k0 := v.items.Keys;
    var m := Missing(pre, k0);
    var d := FromDisk(pre, k0, e.cached, e.decodes);
    MissingSnoc(pre, k, k0);
    MissingSnoc(m, k, e.cached);
    MissingSnoc(m, k, e.cached * e.decodes);
    if k in e.decodes {
      PlacedSnoc(d, k, e.cx, e.cy);
      UnionUpdate(v.items, Placed(d, e.cx, e.cy), k, Placement(k, e.cx, e.cy));
    }
  }

  /** A tile neither displayed nor cached is requested with the next URL of the rotation. */
  lemma FetchTileStep(e: ViewEnv, v: View, pre: seq<TileKey>, k: TileKey)
    requires k !in v.items && k !in e.cached
    ensures var w := Scanned(e, v, pre);
            var u := TileUrl(e.template, k, w.server);
            Scanned(e, v, pre + [k]) ==
              w.(server := u.1, requests := w.requests + 1,
                 log := w.log + [RequestDownloadTile(TileInfo(k, u.0, TilePath(e.root, k)))],
                 toDownload := w.toDownload + 1)
  {
    var k0 := v.items.Keys;
    var f := Fetched(pre, k0, e.cached);
    FetchedSnoc(pre, k, k0, e.cached, e.decodes);
    RequestLogSnoc(e.root, e.template, f, k, v.server);
  }

  /** A tile neither displayed nor cached joins the requested run and no other. */
  lemma FetchedSnoc(pre: seq<TileKey>, k: TileKey, k0: set<TileKey>, cached: set<TileKey>, decodes: set<TileKey>)
    requires k !in k0 && k !in cached
    ensures Fetched(pre + [k], k0, cached) == Fetched(pre, k0, cached) + [k]
    ensures FromDisk(pre + [k], k0, cached, decodes) == FromDisk(pre, k0, cached, decodes)
    ensures Present(pre + [k], k0) == Present(pre, k0)
  {
    var m := Missing(pre, k0);
    MissingSnoc(pre, k, k0);
    MissingSnoc(m, k, cached);
    MissingSnoc(m, k, cached * decodes);
  }

  /** One more requested tile adds its request, with the next URL of the rotation, to the log. */
  lemma RequestLogSnoc(root: string, template: string, f: seq<TileKey>, k: TileKey, s: ServerIndex)
    ensures var u := TileUrl(template, k, IndexAfter(template, f, s));
            IndexAfter(template, f + [k], s) == u.1 &&
            Requests(Infos(root, template, f + [k], s)) ==
              Requests(Infos(root, template, f, s)) + [RequestDownloadTile(TileInfo(k, u.0, TilePath(root, k)))]
  {
    InfosSnoc(root, template, f, k, s);
    RequestsSnoc(Infos(root, template, f, s),
                 TileInfo(k, TileUrl(template, k, IndexAfter(template, f, s)).0, TilePath(root, k)));
  }

  /** The end of calculateVisibleTiles: during a region download the tallies are reported. */
  function Reported(r: View, total: int): View
  {
    if total > 0 then r.(log := r.log + [DownloadProgress(r.loaded, r.loaded + r.toDownload)]) else r
  }

  /**
   * calculateVisibleTiles from view `v` with the centre tile (e.cx, e.cy) at zoom z: the
   * window is scanned x outer, y inner, and then the tallies are reported.
   */
  function VisibleResult(e: ViewEnv, v: View, z: nat, total: int): View
  {
    var w := VisibleWindow(e.cx, e.cy, z);
    Reported(BoxFold(Visit(e), v, w, z, w.maxX + 1), total)
  }

  /**
   * What calculateVisibleTiles does, tile by tile of the window: shown tiles are counted as
   * loaded; cached tiles that decode are placed at their grid position and counted; the
   * rest are requested once each, in window order, with the next URLs of the rotation
   * and one more request in flight apiece; cached tiles that do not decode are skipped.
   */
  lemma VisibleScan(e: ViewEnv, v: View, z: nat, total: int)
    ensures var ts := BoxTiles(VisibleWindow(e.cx, e.cy, z), z);
            var f := Fetched(ts, v.items.Keys, e.cached);
            var d := FromDisk(ts, v.items.Keys, e.cached, e.decodes);
            var loaded := v.loaded + |Present(ts, v.items.Keys)| + |d|;
            var toDownload := v.toDownload + |f|;
            var r := VisibleResult(e, v, z, total);
            && r.items == v.items + Placed(d, e.cx, e.cy)
            && r.server == IndexAfter(e.template, f, v.server)
            && r.requests == v.requests + |f|
            && r.log == v.log + Requests(Infos(e.root, e.template, f, v.server))
                        + (if total > 0 then [DownloadProgress(loaded, loaded + toDownload)] else [])
  {
    var w := VisibleWindow(e.cx, e.cy, z);
    WindowScan(e, v, w, z);
    ReportedScan(e, v, BoxTiles(w, z), total);
  }

  /** The x/y loops over a box visit its tiles in order, each once. */
  lemma WindowScan(e: ViewEnv, v: View, w: Box, z: int)
    ensures BoxFold(Visit(e), v, w, z, w.maxX + 1) == Scanned(e, v, BoxTiles(w, z))
  {
    BoxFoldFlat(Visit(e), v, w, z, w.maxX + 1);
    ColumnsAscending(w, z, w.maxX + 1);
    AscendingDistinct(BoxTiles(w, z));
    ViewScan(e, v, BoxTiles(w, z));
  }

  /** Reported over the closed form of a scan, field by field. */
  lemma ReportedScan(e: ViewEnv, v: View, ts: seq<TileKey>, total: int)
    ensures var f := Fetched(ts, v.items.Keys, e.cached);
            var d := FromDisk(ts, v.items.Keys, e.cached, e.decodes);
            var loaded := v.loaded + |Present(ts, v.items.Keys)| + |d|;
            var toDownload := v.toDownload + |f|;
            var r := Reported(Scanned(e, v, ts), total);
            && r.items == v.items + Placed(d, e.cx, e.cy)
            && r.server == IndexAfter(e.template, f, v.server)
            && r.requests == v.requests + |f|
            && r.log == v.log + Requests(Infos(e.root, e.template, f, v.server))
                        + (if total > 0 then [DownloadProgress(loaded, loaded + toDownload)] else [])
  {
  }

  class TileMapManager {
    var zoom: int
    var hasScene: bool
    var urlTemplate: string
    var cacheDir: string
    /** m_tileItems: the tiles in the scene, with their scene position. */
    var tileItems: map<TileKey, Pos>
    var regionTotal: int
    var regionCurrent: int
    /** m_pendingTiles: the FIFO of tiles still to be downloaded. */
    var pending: seq<TileInfo>
    var timer: Timer
    var isProcessing: bool
    /** m_downloadFinishedEmitted: the finished latch. */
    var finishedEmitted: bool
    /** m_currentRequests: requests handed to the worker and not yet answered. */
    var currentRequests: int
    /** The rotation index of getTileUrl (a function-static in the source). */
    var serverIndex: ServerIndex
    /** The two function-static wait counters of checkAndEmitDownloadFinished. */
    var timeoutCounter: int
    var emptyQueueCounter: int
    /** Every signal emitted so far. */
    var log: seq<Signal>
    /** Where the current download session (since the latch was last cleared) starts in the log. */
    ghost var sessionStart: nat

    /**
     * The manager's invariant. Its last clause is the finish-once property: within a
     * session DownloadFinished has been emitted once if the latch is set and never if not.
     */
    ghost predicate Valid()
      reads this
    {
      && MinZoom <= zoom <= MaxZoom
      && 0 <= currentRequests
      && 0 <= regionCurrent
      && 0 <= regionTotal
      && 0 <= timeoutCounter <= TimeoutLimit
      && 0 <= emptyQueueCounter <= EmptyQueueLimit
      && sessionStart <= |log|
      && FinishCount(log[sessionStart..]) == (if finishedEmitted then 1 else 0)
    }

    function Net(): NetState
      reads this
    {
      NetState(currentRequests, isProcessing, finishedEmitted, timer, timeoutCounter, emptyQueueCounter)
    }

    /** The constructor; `projectRoot` is the directory found by walking up to the project file. */
    constructor (projectRoot: string)
      ensures Valid()
      ensures zoom == DefaultZoom && !hasScene && urlTemplate == DefaultTemplate
      ensures cacheDir == projectRoot + "/tilemap"
      ensures tileItems == map[] && pending == [] && log == []
      ensures regionTotal == 0 && regionCurrent == 0 && currentRequests == 0
      ensures !isProcessing && !finishedEmitted && timer == Idle
      ensures serverIndex == 0 && timeoutCounter == 0 && emptyQueueCounter == 0
    {
      zoom := DefaultZoom;
      hasScene := false;
      urlTemplate := DefaultTemplate;
      cacheDir := projectRoot + "/tilemap";
      tileItems := map[];
      regionTotal := 0;
      regionCurrent := 0;
      pending := [];
      timer := Idle;
      isProcessing := false;
      finishedEmitted := false;
      currentRequests := 0;
      serverIndex := 0;
      timeoutCounter := 0;
      emptyQueueCounter := 0;
      log := [];
      sessionStart := 0;
    }

    /** initScene: `present` says whether a scene is set. */
    method InitScene(present: bool)
      modifies this`hasScene
      ensures hasScene == present
    {
      hasScene := present;
    }

    /** setTileSource: later URLs are built from `template` (see GetTileUrl). */
    method SetTileSource(template: string)
      modifies this`urlTemplate
      ensures urlTemplate == template
    {
      urlTemplate := template;
    }

    /** `emit`: appends a signal; only DownloadFinished counts towards the session's finishes. */
    method Emit(e: Signal)
      requires sessionStart <= |log|
      modifies this`log
      ensures log == old(log) + [e]
      ensures FinishCount(log[sessionStart..]) ==
                FinishCount(old(log)[sessionStart..]) + (if e.DownloadFinished? then 1 else 0)
    {
      SessionSnoc(log, sessionStart, e);
      log := log + [e];
    }

    /** Sets the latch and emits DownloadFinished: the session's one finish. */
    method Finish()
      requires sessionStart <= |log| && !finishedEmitted && FinishCount(log[sessionStart..]) == 0
      modifies this`finishedEmitted, this`log
      ensures finishedEmitted && log == old(log) + [DownloadFinished]
      ensures FinishCount(log[sessionStart..]) == 1
    {
      finishedEmitted := true;
      Emit(DownloadFinished);
    }

    /** getTilePath. */
    function GetTilePath(k: TileKey): (p: string)
      reads this
      ensures ParseTilePath(cacheDir, p) == Some(k)
    {
      ParseTilePathRoundTrip(cacheDir, k);
      TilePath(cacheDir, k)
    }

    /**
     * getTileUrl: fills in the indices, then the next server when the URL still mentions
     * {server}, advancing the rotation.
     */
    method GetTileUrl(k: TileKey) returns (url: string)
      modifies this`serverIndex
      ensures (url, serverIndex) == TileUrl(urlTemplate, k, old(serverIndex))
    {
      url := ReplaceAll(urlTemplate, "{x}", IntToString(k.x));
      url := ReplaceAll(url, "{y}", IntToString(k.y));
      url := ReplaceAll(url, "{z}", IntToString(k.z));
      if Contains(url, "{server}") {
        var server := Servers[serverIndex];
        url := ReplaceAll(url, "{server}", server);
        serverIndex := (serverIndex + 1) % |Servers|;
      }
    }

    // -------------------------------------------------------------------------
    // downloadRegion.

    /** What the region scan consults. */
    function Env(cached: set<TileKey>): ScanEnv
      reads this
    {
      ScanEnv(cacheDir, urlTemplate, cached)
    }

    /** What the region scan builds: the queue, the rotation index and the done count. */
    function Progress(): Scan
      reads this
    {
      Scan(pending, serverIndex, regionCurrent)
    }

    /** The body of downloadRegion's inner loop for one tile. */
    method ScanTile(k: TileKey, cached: set<TileKey>)
      modifies this`pending, this`serverIndex, this`regionCurrent
      ensures Progress() == TileStep(Env(cached), old(Progress()), k)
      ensures regionCurrent >= old(regionCurrent)
    {
      if k !in cached {
        var url := GetTileUrl(k);
        pending := pending + [TileInfo(k, url, TilePath(cacheDir, k))];
      } else {
        regionCurrent := regionCurrent + 1;
      }
    }

    /** downloadRegion's inner loop: y from fromY to toY in column x. */
    method ScanColumn(x: int, fromY: int, toY: int, z: int, cached: set<TileKey>)
      modifies this`pending, this`serverIndex, this`regionCurrent
      ensures Progress() == ColumnFold(Step(Env(cached)), old(Progress()), x, fromY, toY + 1, z)
      ensures regionCurrent >= old(regionCurrent)
    {
      var y := fromY;
      while y <= toY
        invariant fromY <= y <= Max(fromY, toY + 1)
        invariant Progress() == ColumnFold(Step(Env(cached)), old(Progress()), x, fromY, y, z)
        invariant regionCurrent >= old(regionCurrent)
      {
        ScanTile(TileKey(x, y, z), cached);
        y := y + 1;
      }
    }

    /** downloadRegion's x/y loops over one zoom level's box. */
    method ScanBox(b: Box, z: int, cached: set<TileKey>)
      modifies this`pending, this`serverIndex, this`regionCurrent
      ensures Progress() == BoxFold(Step(Env(cached)), old(Progress()), b, z, b.maxX + 1)
      ensures regionCurrent >= old(regionCurrent)
    {
      var x := b.minX;
      while x <= b.maxX
        invariant b.minX <= x <= Max(b.minX, b.maxX + 1)
        invariant Progress() == BoxFold(Step(Env(cached)), old(Progress()), b, z, x)
        invariant regionCurrent >= old(regionCurrent)
      {
        ScanColumn(x, b.minY, b.maxY, z, cached);
        x := x + 1;
      }
    }

    /** downloadRegion's zoom loop, adding each level's clamped box size to the total. */
    method ScanRegion(raws: seq<RawBox>, minZoom: nat, cached: set<TileKey>)
      requires regionTotal == 0
      modifies this`pending, this`serverIndex, this`regionTotal, this`regionCurrent
      ensures Progress() == RegionFold(Step(Env(cached)), old(Progress()), raws, minZoom)
      ensures regionTotal == RegionSize(raws, minZoom)
      ensures regionCurrent >= old(regionCurrent)
    {
      assert raws[..0] == [];
      var i := 0;
      while i < |raws|
        invariant 0 <= i <= |raws|
        invariant Progress() == RegionFold(Step(Env(cached)), old(Progress()), raws[..i], minZoom)
        invariant regionTotal == RegionSize(raws[..i], minZoom)
        invariant regionCurrent >= old(regionCurrent)
      {
        var z := minZoom + i;
        var b := NormalizeBox(raws[i], z);
        ScanBox(b, z, cached);
        regionTotal := regionTotal + BoxSize(b);
        RegionSnoc(raws, minZoom, i);
        RegionFoldSnoc(Step(Env(cached)), old(Progress()), raws, minZoom, i);
        i := i + 1;
      }
      assert raws[..i] == raws;
    }

    /**
     * downloadRegion for zoom levels minZoom .. maxZoom, `raws[i]` being the two corner
     * tiles latLonToTile gives at zoom minZoom + i. The queue is replaced by the scan of
     * the region from an empty queue (see RegionScan for what it holds); the total is the
     * sum of the clamped box sizes. When nothing is missing the latch is set and
     * DownloadFinished emitted at once, without starting the timer; otherwise processing
     * starts with the timer due immediately.
     */
    method DownloadRegion(raws: seq<RawBox>, minZoom: nat, maxZoom: int, cached: set<TileKey>)
      requires Valid()
      requires |raws| == Max(0, maxZoom - minZoom + 1)
      modifies this`pending, this`serverIndex, this`regionTotal, this`regionCurrent,
               this`currentRequests, this`log, this`finishedEmitted, this`isProcessing,
               this`timer, this`sessionStart
      ensures Valid()
      ensures Progress() == RegionFold(Step(Env(cached)), Scan([], old(serverIndex), 0), raws, minZoom)
      ensures regionTotal == RegionSize(raws, minZoom)
      ensures currentRequests == 0
      ensures sessionStart == |old(log)|
      ensures log == old(log)
                     + (if regionCurrent > 0 then [RegionDownloadProgress(regionCurrent, regionTotal, minZoom)] else [])
                     + (if pending == [] then [DownloadFinished] else [])
      ensures finishedEmitted == (pending == [])
      ensures isProcessing == (if pending == [] then old(isProcessing) else true)
      ensures timer == (if pending == [] then old(timer) else Armed(0))
    {
      BeginRegion();
      ScanRegion(raws, minZoom, cached);
      StartRegion(minZoom);
    }

    /** The start of downloadRegion: the queue and counters are cleared and a session begins. */
    method BeginRegion()
      requires Valid()
      modifies this`pending, this`regionTotal, this`regionCurrent, this`finishedEmitted,
               this`currentRequests, this`sessionStart
      ensures pending == [] && regionTotal == 0 && regionCurrent == 0
      ensures !finishedEmitted && currentRequests == 0 && sessionStart == |log|
      ensures MinZoom <= zoom <= MaxZoom
      ensures 0 <= timeoutCounter <= TimeoutLimit && 0 <= emptyQueueCounter <= EmptyQueueLimit
    {
      pending := [];
      regionTotal := 0;
      regionCurrent := 0;
      finishedEmitted := false;
      currentRequests := 0;
      sessionStart := |log|;
    }

    /**
     * The end of downloadRegion: initial progress when some tiles were already cached,
     * then either the immediate finish (nothing to download) or the start of processing.
     */
    method StartRegion(minZoom: int)
      requires sessionStart == |log| && !finishedEmitted && regionCurrent >= 0
      requires MinZoom <= zoom <= MaxZoom
      requires 0 <= currentRequests && 0 <= regionTotal
      requires 0 <= timeoutCounter <= TimeoutLimit && 0 <= emptyQueueCounter <= EmptyQueueLimit
      modifies this`log, this`finishedEmitted, this`isProcessing, this`timer
      ensures Valid()
      ensures log == old(log)
                     + (if regionCurrent > 0 then [RegionDownloadProgress(regionCurrent, regionTotal, minZoom)] else [])
                     + (if pending == [] then [DownloadFinished] else [])
      ensures FinishCount(log[sessionStart..]) == (if finishedEmitted then 1 else 0)
      ensures finishedEmitted == (pending == [])
      ensures isProcessing == (if pending == [] then old(isProcessing) else true)
      ensures timer == (if pending == [] then old(timer) else Armed(0))
    {
      assert log[sessionStart..] == [];
      if regionCurrent > 0 {
        Emit(RegionDownloadProgress(regionCurrent, regionTotal, minZoom));
      }
      if pending == [] {
        finishedEmitted := true;
        Emit(DownloadFinished);
        return;
      }
      isProcessing := true;
      timer := Armed(0);
    }
      // -------------------------------------------------------------------------
    // Dispatch and completion.

    /**
     * checkAndEmitDownloadFinished: one call of the completion safety net. The queue and
     * the region counters are only read; DownloadFinished is emitted exactly when the
     * latch goes from clear to set.
     */
    method CheckAndEmitDownloadFinished()
      requires Valid()
      modifies this`currentRequests, this`isProcessing, this`finishedEmitted, this`timer,
               this`timeoutCounter, this`emptyQueueCounter, this`log
      ensures Valid()
      ensures Net() == SafetyNet(regionTotal, regionCurrent, pending == [], old(Net()))
      ensures log == old(log) + (if !old(finishedEmitted) && finishedEmitted then [DownloadFinished] else [])
    {
      // The source first resets a negative in-flight count; Valid() rules one out.
      SafetyNetStages(regionTotal, regionCurrent, pending == [], Net());
      NetBranches();
      KeepTimerAlive();
      FinishLate();
    }

    /** The keep-alive stage of checkAndEmitDownloadFinished. */
    method KeepTimerAlive()
      modifies this`timer
      ensures Net() == KeepAlive(pending == [], old(Net()))
    {
      if isProcessing && (pending != [] || currentRequests > 0) {
        timer := Arm(timer, 200);
      }
    }

    /** The last stage of checkAndEmitDownloadFinished. */
    method FinishLate()
      requires Valid()
      modifies this`finishedEmitted, this`log
      ensures Valid()
      ensures Net() == LateFinish(regionTotal, regionCurrent, old(Net()))
      ensures log == old(log) + (if !old(finishedEmitted) && finishedEmitted then [DownloadFinished] else [])
    {
      if !isProcessing && regionTotal > 0 && regionCurrent >= regionTotal && !finishedEmitted {
        Finish();
      }
    }

    /** The chain of cases of checkAndEmitDownloadFinished. */
    method NetBranches()
      requires Valid()
      modifies this`currentRequests, this`isProcessing, this`finishedEmitted, this`timer,
               this`timeoutCounter, this`emptyQueueCounter, this`log
      ensures Valid()
      ensures Net() == NetBranch(regionTotal, regionCurrent, pending == [], old(Net()))
      ensures log == old(log) + (if !old(finishedEmitted) && finishedEmitted then [DownloadFinished] else [])
    {
      var done := regionTotal > 0 && regionCurrent >= regionTotal;
      if done && currentRequests == 0 {
        if !finishedEmitted {
          isProcessing := false;
          Finish();
        }
      } else if finishedEmitted && currentRequests == 0 && pending == [] {
        isProcessing := false;
      } else if done && currentRequests > 0 {
        WaitForReplies();
      } else if isProcessing && pending == [] && currentRequests > 0 {
        WaitOnEmptyQueue();
      } else if isProcessing && regionTotal > 0 {
        timer := Arm(timer, 300);
      }
    }

    /** The wait of checkAndEmitDownloadFinished when only replies are missing. */
    method WaitForReplies()
      requires Valid()
      modifies this`currentRequests, this`isProcessing, this`finishedEmitted, this`timer,
               this`timeoutCounter, this`log
      ensures Valid()
      ensures Net() == TimeoutWait(old(Net()))
      ensures log == old(log) + (if !old(finishedEmitted) && finishedEmitted then [DownloadFinished] else [])
    {
      timeoutCounter := timeoutCounter + 1;
      if timeoutCounter > TimeoutLimit {
        currentRequests := 0;
        isProcessing := false;
        if !finishedEmitted {
          Finish();
        }
        timeoutCounter := 0;
      } else {
        timer := Arm(timer, 500);
      }
    }

    /** The wait of checkAndEmitDownloadFinished when the queue is empty but replies are missing. */
    method WaitOnEmptyQueue()
      requires Valid()
      modifies this`currentRequests, this`isProcessing, this`finishedEmitted, this`timer,
               this`emptyQueueCounter, this`log
      ensures Valid()
      ensures Net() == EmptyQueueWait(old(Net()))
      ensures log == old(log) + (if !old(finishedEmitted) && finishedEmitted then [DownloadFinished] else [])
    {
      emptyQueueCounter := emptyQueueCounter + 1;
      if emptyQueueCounter > EmptyQueueLimit {
        currentRequests := 0;
        isProcessing := false;
        if !finishedEmitted {
          Finish();
        }
        emptyQueueCounter := 0;
      } else {
        timer := Arm(timer, 500);
      }
    }

    /**
     * processNextBatch: while processing, either runs the safety net (queue empty and
     * nothing in flight), waits (in-flight count at the cap), or hands the front of the
     * queue to the worker, one tile per call, and re-arms the timer.
     */
    method ProcessNextBatch()
      requires Valid()
      modifies this`pending, this`currentRequests, this`isProcessing, this`finishedEmitted,
               this`timer, this`timeoutCounter, this`emptyQueueCounter, this`log
      ensures Valid()
      ensures !old(isProcessing) ==>
                pending == old(pending) && log == old(log) && Net() == old(Net())
      ensures old(isProcessing) && old(pending) == [] && old(currentRequests) == 0 ==>
                && pending == []
                && Net() == SafetyNet(regionTotal, regionCurrent, true, old(Net()))
                && log == old(log) + (if !old(finishedEmitted) && finishedEmitted then [DownloadFinished] else [])
      ensures old(isProcessing) && old(currentRequests) >= MaxConcurrentRequests ==>
                pending == old(pending) && log == old(log) && Net() == old(Net()).(timer := Arm(old(timer), 100))
      ensures old(isProcessing) && old(pending) != [] && old(currentRequests) < MaxConcurrentRequests ==>
                && pending == old(pending)[1..]
                && log == old(log) + [RequestDownloadTile(old(pending)[0])]
                && Net() == old(Net()).(requests := old(currentRequests) + 1, timer := Arm(old(timer), 100))
      ensures old(isProcessing) && old(pending) == [] && 0 < old(currentRequests) < MaxConcurrentRequests ==>
                pending == old(pending) && log == old(log) && Net() == old(Net())
      ensures old(currentRequests) <= MaxConcurrentRequests ==> currentRequests <= MaxConcurrentRequests
    {
      if !isProcessing {
        return;
      }
      if pending == [] && currentRequests == 0 {
        CheckAndEmitDownloadFinished();
        return;
      }
      if currentRequests >= MaxConcurrentRequests {
        timer := Arm(timer, 100);
        return;
      }
      if pending != [] && currentRequests < MaxConcurrentRequests {
        DispatchFront();
      }
    }

    /** The dispatch of processNextBatch: the front of the queue goes to the worker. */
    method DispatchFront()
      requires Valid() && pending != []
      modifies this`pending, this`currentRequests, this`timer, this`log
      ensures Valid()
      ensures pending == old(pending)[1..] && log == old(log) + [RequestDownloadTile(old(pending)[0])]
      ensures currentRequests == old(currentRequests) + 1 && timer == Arm(old(timer), 100)
    {
      var info := pending[0];
      pending := pending[1..];
      currentRequests := currentRequests + 1;
      Emit(RequestDownloadTile(info));
      if pending != [] || currentRequests > 0 {
        timer := Arm(timer, 100);
      }
    }

    /**
     * The single-shot timer fires: it stops and processNextBatch runs on the state with the
     * timer idle, so every branch that wants more work re-arms it afresh.
     */
    method TimerFires()
      requires Valid() && timer.Armed?
      modifies this`pending, this`currentRequests, this`isProcessing, this`finishedEmitted,
               this`timer, this`timeoutCounter, this`emptyQueueCounter, this`log
      ensures Valid()
      ensures !old(isProcessing) ==>
                pending == old(pending) && log == old(log) && Net() == old(Net()).(timer := Idle)
      ensures old(isProcessing) && old(pending) == [] && old(currentRequests) == 0 ==>
                && pending == []
                && Net() == SafetyNet(regionTotal, regionCurrent, true, old(Net()).(timer := Idle))
                && log == old(log) + (if !old(finishedEmitted) && finishedEmitted then [DownloadFinished] else [])
      ensures old(isProcessing) && old(currentRequests) >= MaxConcurrentRequests ==>
                pending == old(pending) && log == old(log) && Net() == old(Net()).(timer := Armed(100))
      ensures old(isProcessing) && old(pending) != [] && old(currentRequests) < MaxConcurrentRequests ==>
                && pending == old(pending)[1..]
                && log == old(log) + [RequestDownloadTile(old(pending)[0])]
                && Net() == old(Net()).(requests := old(currentRequests) + 1, timer := Armed(100))
      ensures old(isProcessing) && old(pending) == [] && 0 < old(currentRequests) < MaxConcurrentRequests ==>
                pending == old(pending) && log == old(log) && Net() == old(Net()).(timer := Idle)
      ensures old(currentRequests) <= MaxConcurrentRequests ==> currentRequests <= MaxConcurrentRequests
    {
      timer := Idle;
      ProcessNextBatch();
    }

    /**
     * onTileDownloaded for tile k: the in-flight count drops (never below zero); in
     * region mode (a positive total) a success counts as done, and progress is reported.
     * A successful tile whose bytes decode is placed in the scene. The region finishes,
     * once, when nothing is in flight and either every tile is done or the queue is empty;
     * otherwise processing continues with the timer.
     */
    method OnTileDownloaded(k: TileKey, success: bool, decodes: bool, cx: int, cy: int)
      requires Valid()
      modifies this`currentRequests, this`regionCurrent, this`tileItems, this`log,
               this`finishedEmitted, this`isProcessing, this`timer
      ensures Valid()
      ensures currentRequests == Max(0, old(currentRequests) - 1)
      ensures regionCurrent == old(regionCurrent) + (if success && regionTotal > 0 then 1 else 0)
      ensures tileItems == if success && hasScene && decodes then old(tileItems)[k := Placement(k, cx, cy)] else old(tileItems)
      ensures finishedEmitted == (old(finishedEmitted) ||
                (regionTotal > 0 && currentRequests == 0 && (regionCurrent >= regionTotal || pending == [])))
      ensures isProcessing == (old(isProcessing) && finishedEmitted == old(finishedEmitted))
      ensures log == old(log)
                     + (if regionTotal > 0 then [RegionDownloadProgress(regionCurrent, regionTotal, k.z)] else [])
                     + (if finishedEmitted && !old(finishedEmitted) then [DownloadFinished] else [])
      ensures timer == if regionTotal > 0 && !(currentRequests == 0 && regionCurrent >= regionTotal)
                          && isProcessing && (pending != [] || currentRequests > 0)
                       then Arm(old(timer), 100) else old(timer)
    {
      TakeReply(k, success, decodes, cx, cy);
      if regionTotal > 0 {
        ReportRegion(k.z);
      }
    }

    /** The head of onTileDownloaded: the in-flight count, the region count and the scene. */
    method TakeReply(k: TileKey, success: bool, decodes: bool, cx: int, cy: int)
      requires Valid()
      modifies this`currentRequests, this`regionCurrent, this`tileItems
      ensures Valid()
      ensures currentRequests == Max(0, old(currentRequests) - 1)
      ensures regionCurrent == old(regionCurrent) + (if success && regionTotal > 0 then 1 else 0)
      ensures tileItems == if success && hasScene && decodes then old(tileItems)[k := Placement(k, cx, cy)] else old(tileItems)
    {
      currentRequests := Max(0, currentRequests - 1);
      var regionMode := regionTotal > 0;
      if regionMode && success {
        regionCurrent := regionCurrent + 1;
      }
      if success && hasScene && decodes {
        tileItems := tileItems[k := Placement(k, cx, cy)];
      }
    }

    /**
     * The region-mode tail of onTileDownloaded: progress is reported; the region finishes
     * (once) when nothing is in flight and either every tile is done or the queue is
     * empty; otherwise, while processing with work left, the timer runs.
     */
    method ReportRegion(z: int)
      requires Valid() && regionTotal > 0
      modifies this`log, this`finishedEmitted, this`isProcessing, this`timer
      ensures Valid()
      ensures finishedEmitted == (old(finishedEmitted) ||
                (currentRequests == 0 && (regionCurrent >= regionTotal || pending == [])))
      ensures isProcessing == (old(isProcessing) && finishedEmitted == old(finishedEmitted))
      ensures log == old(log) + [RegionDownloadProgress(regionCurrent, regionTotal, z)]
                     + (if finishedEmitted && !old(finishedEmitted) then [DownloadFinished] else [])
      ensures timer == if !(currentRequests == 0 && regionCurrent >= regionTotal)
                          && isProcessing && (pending != [] || currentRequests > 0)
                       then Arm(old(timer), 100) else old(timer)
    {
      Emit(RegionDownloadProgress(regionCurrent, regionTotal, z));
      if regionTotal > 0 && regionCurrent >= regionTotal && currentRequests == 0 {
        if !finishedEmitted {
          isProcessing := false;
          Finish();
        }
      } else if isProcessing && (pending != [] || currentRequests > 0) {
        timer := Arm(timer, 100);
      } else if pending == [] && currentRequests == 0 {
        if !finishedEmitted {
          isProcessing := false;
          Finish();
        }
      }
    }

    /**
     * onTileLoaded: the in-flight count drops (never below zero) and a loaded image is
     * placed in the scene.
     */
    method OnTileLoaded(k: TileKey, loaded: bool, cx: int, cy: int)
      requires Valid()
      modifies this`currentRequests, this`tileItems
      ensures Valid()
      ensures currentRequests == Max(0, old(currentRequests) - 1)
      ensures tileItems == if loaded && hasScene then old(tileItems)[k := Placement(k, cx, cy)] else old(tileItems)
    {
      currentRequests := Max(0, currentRequests - 1);
      if loaded && hasScene {
        tileItems := tileItems[k := Placement(k, cx, cy)];
      }
    }

    // -------------------------------------------------------------------------
    // calculateVisibleTiles, cleanupTiles, repositionTiles and setZoom.

    /** What the visible-window scan consults, for the given cache contents and centre tile. */
    function ViewEnvOf(cached: set<TileKey>, decodes: set<TileKey>, cx: int, cy: int): ViewEnv
      reads this
    {
      ViewEnv(cacheDir, urlTemplate, cached, decodes, cx, cy)
    }

    /** What the visible-window scan builds, with its two local tallies. */
    function ViewOf(loaded: int, toDownload: int): View
      reads this
    {
      View(tileItems, serverIndex, currentRequests, log, loaded, toDownload)
    }

    /** The body of calculateVisibleTiles' inner loop for one tile. */
    method VisitTile(k: TileKey, cached: set<TileKey>, decodes: set<TileKey>, cx: int, cy: int,
                     loaded: int, toDownload: int) returns (loaded': int, toDownload': int)
      requires Valid()
      modifies this`tileItems, this`serverIndex, this`currentRequests, this`log
      ensures Valid()
      ensures ViewOf(loaded', toDownload') ==
                ViewStep(ViewEnvOf(cached, decodes, cx, cy), old(ViewOf(loaded, toDownload)), k)
    {
      loaded', toDownload' := loaded, toDownload;
      if k in tileItems {
        loaded' := loaded + 1;
        return;
      }
      if k in cached {
        if k in decodes {
          tileItems := tileItems[k := Placement(k, cx, cy)];
          loaded' := loaded + 1;
        }
      } else {
        // The request is the network path of downloadTile, written out again in the source.
        toDownload' := toDownload + 1;
        DownloadTile(k, cached);
      }
    }

    /** calculateVisibleTiles' inner loop: y from fromY to toY in column x. */
    method VisitColumn(x: int, fromY: int, toY: int, z: int, cached: set<TileKey>, decodes: set<TileKey>,
                       cx: int, cy: int, loaded: int, toDownload: int) returns (loaded': int, toDownload': int)
      requires Valid()
      modifies this`tileItems, this`serverIndex, this`currentRequests, this`log
      ensures Valid()
      ensures ViewOf(loaded', toDownload') ==
                ColumnFold(Visit(ViewEnvOf(cached, decodes, cx, cy)), old(ViewOf(loaded, toDownload)), x, fromY, toY + 1, z)
    {
      loaded', toDownload' := loaded, toDownload;
      var y := fromY;
      while y <= toY
        invariant fromY <= y <= Max(fromY, toY + 1)
        invariant Valid()
        invariant ViewOf(loaded', toDownload') ==
                    ColumnFold(Visit(ViewEnvOf(cached, decodes, cx, cy)), old(ViewOf(loaded, toDownload)), x, fromY, y, z)
      {
        loaded', toDownload' := VisitTile(TileKey(x, y, z), cached, decodes, cx, cy, loaded', toDownload');
        y := y + 1;
      }
    }

    /** calculateVisibleTiles' x/y loops over the window `b` at zoom z. */
    method VisitBox(b: Box, z: int, cached: set<TileKey>, decodes: set<TileKey>, cx: int, cy: int)
      returns (loaded: int, toDownload: int)
      requires Valid()
      modifies this`tileItems, this`serverIndex, this`currentRequests, this`log
      ensures Valid()
      ensures ViewOf(loaded, toDownload) ==
                BoxFold(Visit(ViewEnvOf(cached, decodes, cx, cy)), old(ViewOf(0, 0)), b, z, b.maxX + 1)
    {
      loaded, toDownload := 0, 0;
      var x := b.minX;
      while x <= b.maxX
        invariant b.minX <= x <= Max(b.minX, b.maxX + 1)
        invariant Valid()
        invariant ViewOf(loaded, toDownload) ==
                    BoxFold(Visit(ViewEnvOf(cached, decodes, cx, cy)), old(ViewOf(0, 0)), b, z, x)
      {
        loaded, toDownload := VisitColumn(x, b.minY, b.maxY, z, cached, decodes, cx, cy, loaded, toDownload);
        x := x + 1;
      }
    }

    /**
     * calculateVisibleTiles with the centre tile (cx, cy) at the current zoom: `cached`
     * are the tiles with a cache file and `decodes` those whose file decodes to an image.
     * Without a scene nothing happens; otherwise the table, rotation, in-flight count and
     * log are those of VisibleResult (see VisibleScan for what that holds).
     */
    method CalculateVisibleTiles(cx: int, cy: int, cached: set<TileKey>, decodes: set<TileKey>)
      requires Valid()
      modifies this`tileItems, this`serverIndex, this`currentRequests, this`log
      ensures Valid()
      ensures !hasScene ==>
                tileItems == old(tileItems) && serverIndex == old(serverIndex) &&
                currentRequests == old(currentRequests) && log == old(log)
      ensures hasScene ==>
                var r := VisibleResult(ViewEnvOf(cached, decodes, cx, cy), old(ViewOf(0, 0)), zoom, regionTotal);
                tileItems == r.items && serverIndex == r.server && currentRequests == r.requests && log == r.log
    {
      if !hasScene {
        return;
      }
      var w := VisibleWindow(cx, cy, zoom);
      var loaded, toDownload := VisitBox(w, zoom, cached, decodes, cx, cy);
      ReportTallies(loaded, toDownload);
    }

    /** The end of calculateVisibleTiles: progress is reported only during a region download. */
    method ReportTallies(loaded: int, toDownload: int)
      requires Valid()
      modifies this`log
      ensures Valid()
      ensures ViewOf(loaded, toDownload) == Reported(old(ViewOf(loaded, toDownload)), regionTotal)
    {
      if regionTotal > 0 {
        Emit(DownloadProgress(loaded, loaded + toDownload));
      }
    }

    /**
     * cleanupTiles with the centre tile (cx, cy) at the current zoom: the first loop
     * collects the tiles of other zooms and those outside the widened window, the second
     * takes them out of the table. Exactly the retained tiles remain, at their positions.
     */
    method CleanupTiles(cx: int, cy: int)
      modifies this`tileItems
      ensures tileItems == RetainedItems(old(tileItems), zoom, cx, cy)
    {
      var toRemove := CollectEvicted(cx, cy);
      var left := toRemove;
      while left != {}
        invariant left <= toRemove
        invariant tileItems == old(tileItems) - (toRemove - left)
        decreases |left|
      {
        var k :| k in left;
        tileItems := tileItems - {k};
        left := left - {k};
      }
      assert tileItems == RetainedItems(old(tileItems), zoom, cx, cy);
    }

    /** cleanupTiles' first loop: the keys of the table that are not retained. */
    method CollectEvicted(cx: int, cy: int) returns (toRemove: set<TileKey>)
      ensures forall k :: k in toRemove <==> k in tileItems && !Retained(k, zoom, cx, cy)
    {
      toRemove := {};
      var unseen := tileItems.Keys;
      while unseen != {}
        invariant unseen <= tileItems.Keys
        invariant forall k :: k in toRemove <==> k in tileItems && k !in unseen && !Retained(k, zoom, cx, cy)
        decreases |unseen|
      {
        var k :| k in unseen;
        if !Retained(k, zoom, cx, cy) {
          toRemove := toRemove + {k};
        }
        unseen := unseen - {k};
      }
    }

    /**
     * repositionTiles with the centre tile (cx, cy) at the current zoom: with a scene, every
     * tile of the current zoom moves to its grid position and the others stay put.
     */
    method RepositionTiles(cx: int, cy: int)
      modifies this`tileItems
      ensures tileItems == if hasScene then Repositioned(old(tileItems), zoom, cx, cy) else old(tileItems)
    {
      if !hasScene {
        return;
      }
      var unseen := tileItems.Keys;
      while unseen != {}
        invariant unseen <= tileItems.Keys
        invariant tileItems.Keys == old(tileItems).Keys
        invariant forall k :: k in tileItems ==>
                    tileItems[k] == if k.z == zoom && k !in unseen then Placement(k, cx, cy) else old(tileItems)[k]
        decreases |unseen|
      {
        var k :| k in unseen;
        if k.z == zoom {
          tileItems := tileItems[k := Placement(k, cx, cy)];
        }
        unseen := unseen - {k};
      }
      assert tileItems == Repositioned(old(tileItems), zoom, cx, cy);
    }

    /**
     * setZoom(z), `cx`, `cy` being the centre tile at the new zoom: the zoom is clamped,
     * the table cleaned up and repositioned, the visible tiles loaded, and then the region
     * counters and the finished latch are reset, which starts a new session.
     */
    method SetZoom(z: int, cx: int, cy: int, cached: set<TileKey>, decodes: set<TileKey>)
      requires Valid()
      modifies this`zoom, this`tileItems, this`serverIndex, this`currentRequests, this`log,
               this`regionTotal, this`regionCurrent, this`finishedEmitted, this`sessionStart
      ensures Valid()
      ensures zoom == ClampZoom(z)
      ensures regionTotal == 0 && regionCurrent == 0 && !finishedEmitted
      ensures sessionStart == |log|
      ensures !hasScene ==>
                tileItems == RetainedItems(old(tileItems), zoom, cx, cy) && serverIndex == old(serverIndex) &&
                currentRequests == old(currentRequests) && log == old(log)
      ensures hasScene ==>
                var kept := Repositioned(RetainedItems(old(tileItems), zoom, cx, cy), zoom, cx, cy);
                var v := View(kept, old(serverIndex), old(currentRequests), old(log), 0, 0);
                var r := VisibleResult(ViewEnvOf(cached, decodes, cx, cy), v, zoom, old(regionTotal));
                tileItems == r.items && serverIndex == r.server && currentRequests == r.requests && log == r.log
    {
      ClampAndStoreZoom(z);
      Redraw(cx, cy, cached, decodes);
      ResetSession();
    }

    /** The start of setZoom: the zoom is stored clamped to [MinZoom, MaxZoom]. */
    method ClampAndStoreZoom(z: int)
      requires Valid()
      modifies this`zoom
      ensures Valid()
      ensures zoom == ClampZoom(z)
    {
      zoom := ClampZoom(z);
    }

    /** The middle of setZoom: cleanupTiles, repositionTiles, then loadTiles. */
    method Redraw(cx: int, cy: int, cached: set<TileKey>, decodes: set<TileKey>)
      requires Valid()
      modifies this`tileItems, this`serverIndex, this`currentRequests, this`log
      ensures Valid()
      ensures !hasScene ==>
                tileItems == RetainedItems(old(tileItems), zoom, cx, cy) && serverIndex == old(serverIndex) &&
                currentRequests == old(currentRequests) && log == old(log)
      ensures hasScene ==>
                var kept := Repositioned(RetainedItems(old(tileItems), zoom, cx, cy), zoom, cx, cy);
                var v := View(kept, old(serverIndex), old(currentRequests), old(log), 0, 0);
                var r := VisibleResult(ViewEnvOf(cached, decodes, cx, cy), v, zoom, regionTotal);
                tileItems == r.items && serverIndex == r.server && currentRequests == r.requests && log == r.log
    {
      CleanupTiles(cx, cy);
      RepositionTiles(cx, cy);
      CalculateVisibleTiles(cx, cy, cached, decodes);
    }

    /** The end of setZoom: the region counters and the latch are reset; a new session starts. */
    method ResetSession()
      requires Valid()
      modifies this`regionTotal, this`regionCurrent, this`finishedEmitted, this`sessionStart
      ensures Valid()
      ensures regionTotal == 0 && regionCurrent == 0 && !finishedEmitted
      ensures sessionStart == |log|
    {
      regionTotal := 0;
      regionCurrent := 0;
      finishedEmitted := false;
      sessionStart := |log|;
    }

    /**
     * downloadTile: a cached tile is requested from disk, a missing one from the network
     * with the next URL of the rotation; either way one more request is in flight.
     */
    method DownloadTile(k: TileKey, cached: set<TileKey>)
      requires Valid()
      modifies this`currentRequests, this`serverIndex, this`log
      ensures Valid()
      ensures currentRequests == old(currentRequests) + 1
      ensures k in cached ==>
                serverIndex == old(serverIndex) && log == old(log) + [RequestLoadTile(k, TilePath(cacheDir, k))]
      ensures k !in cached ==>
                var u := TileUrl(urlTemplate, k, old(serverIndex));
                serverIndex == u.1 && log == old(log) + [RequestDownloadTile(TileInfo(k, u.0, TilePath(cacheDir, k)))]
    {
      if k in cached {
        var filePath := TilePath(cacheDir, k);
        currentRequests := currentRequests + 1;
        Emit(RequestLoadTile(k, filePath));
        return;
      }
      var url := GetTileUrl(k);
      var filePath := TilePath(cacheDir, k);
      currentRequests := currentRequests + 1;
      Emit(RequestDownloadTile(TileInfo(k, url, filePath)));
    }
  }
}
