# MyGis tile map core, modelled in Dafny

This project models the core of MyGis, a Qt desktop map viewer:

- **TileMapManager** (`tilemapmanager.cpp`) keeps the table of displayed tiles. It computes
  the tiles visible around the centre tile and shows cached ones from disk. It requests
  missing ones from the worker with a URL whose `{server}` placeholder rotates over
  `a`, `b` and `c`. It evicts and repositions tiles when the zoom changes.
- For a region download, TileMapManager scans every zoom level of a box. It queues the
  missing tiles and counts the cached ones as done. It then drips the queue to the worker
  (at most 10 requests in flight, driven by a single-shot timer). It counts the replies and
  emits `downloadFinished` once per session. Its completion check has waits meant for
  replies that never come, but its only caller runs it with no request in flight, so those
  waits are never reached and a lost reply leaves the download unfinished.
- **TileWorker** (`tileworker.cpp`) fetches and stores tiles. The blocking path makes up to
  three attempts with growing pauses. The asynchronous path retries with exponential
  back-off. Both accept a reply only when it is non-empty, starts with the PNG signature
  and is written to disk whole. A 404 ends the attempts at once.
- **ToolManager** and the two measure tools (`maptools.cpp`) route mouse and key events to
  the current tool. The tools draw a rubber band with one node per point and commit the
  measurement on a double click or ESC.

Modules, one per file:

- `Wrappers`: `Option`.
- `Decimal`: decimal printing and parsing of integers (`QString::number`, `toInt`), with
  the round trip.
- `TileGeometry`: tile keys, corner boxes and their clamping, the region enumeration and
  generic folds over it, the visible window, the eviction rule and the grid placement.
- `TilePaths`: cache paths and their parser, placeholder substitution (`QString::replace`),
  the URL template and the server rotation, and `getMaxAvailableZoom`.
- `TileManager`: the class `TileMapManager` and the pure specifications of its loops (region
  scan, window scan, completion safety net).
- `TileWork`: the worker's reply classification, retry policies, and the class `TileWorker`.
- `MapTools`: the classes `MeasureTool` (distance or area, by `kind`) and `ToolManager`.

Each method with a loop is proved against a fold or a function over its inputs. The
properties the source relies on are proved about those functions:

- the queue holds exactly the missing tiles, in order;
- every visible tile survives cleanup;
- the finished signal is emitted at most once per session;
- a chain of retries ends in exactly one report;
- the path parser inverts `getTilePath`.

Geographic projection (`latLonToTile`) is not modelled: the methods take the tile
coordinates it would produce (the centre tile, or a region's corner tiles per zoom level)
as arguments. The cache directory's contents are arguments too: `cached` holds the tiles
with a file, and `decodes` the tiles whose file decodes to an image.

## Model

| member | source | states |
|---|---|---|
| TileGeometry.ClampZoom | tilemapmanager.cpp:194 | the zoom is bounded to 0..19, and a zoom already in range is kept |
| TileGeometry.NormalizeBoxSpan | tilemapmanager.cpp:258-266 | a tile is in the normalised box exactly when it lies between the two corners (in either order) and is a valid tile of that zoom |
| TileGeometry.BoxTilesMember | tilemapmanager.cpp:273-292 | the x-then-y loops visit exactly the tiles of the box at that zoom |
| TileGeometry.BoxTilesLength | tilemapmanager.cpp:268 | the loops visit width times height tiles, with an empty dimension counting zero |
| TileGeometry.RegionTilesMember | tilemapmanager.cpp:252-297 | the region loops visit exactly the tiles in the clamped box of each zoom from minZoom to maxZoom |
| TileGeometry.RegionTilesValid | tilemapmanager.cpp:262-266 | every tile the region loops visit is a valid tile of its zoom |
| TileGeometry.RegionTilesLength | tilemapmanager.cpp:295 | the number of tiles visited equals the region total, the sum of the box sizes |
| TileGeometry.RegionTilesAscending | tilemapmanager.cpp:252-292 | the region loops visit tiles in strictly increasing (zoom, x, y) order, so none twice |
| TileGeometry.RegionFoldFlat | tilemapmanager.cpp:252-297 | the three nested loops fold the same step over the flat visiting order |
| TileGeometry.MissingMember | tilemapmanager.cpp:276 | a tile is queued exactly when it is in the region and has no cache file |
| TileGeometry.PresentMember | tilemapmanager.cpp:286-289 | a tile is counted as done exactly when it is in the region and has a cache file |
| TileGeometry.MissingPresentPartition | tilemapmanager.cpp:276-290 | every visited tile is either queued or counted, never both |
| TileGeometry.AllCachedNothingMissing | tilemapmanager.cpp:309-314 | when every tile is cached nothing is queued and all are counted |
| TileGeometry.PlacementGrid | tilemapmanager.cpp:740-742 | the centre tile sits at the middle cell, and neighbours are one tile size apart in x and y |
| TileGeometry.VisibleTilesRetained | tilemapmanager.cpp:703-713 | every tile of the visible window survives cleanup at the same zoom and centre |
| TileGeometry.VisibleTilesValid | tilemapmanager.cpp:709-713 | the visible window holds only valid tiles of the current zoom |
| TileGeometry.RetainedItemsIdempotent | tilemapmanager.cpp:769-812 | a second cleanup with the same zoom and centre removes nothing |
| TileGeometry.BoxSizeAsWrittenMiscounts | tilemapmanager.cpp:268 | the source's size product gives -2 for a box that holds no tile |
| TileGeometry.BoxSizeAgreesWhenNonEmpty | tilemapmanager.cpp:268 | on a non-empty box the source's product and the corrected size agree |
| Decimal.ParseIntOfIntToString | tilemapmanager.cpp:594 | reading back a printed coordinate gives the coordinate |
| Decimal.IntToStringInjective | tilemapmanager.cpp:594 | different coordinates print differently |
| TilePaths.ParseTilePathRoundTrip | tilemapmanager.cpp:591-595 | the cache path of a tile parses back to that tile |
| TilePaths.TilePathInjective | tilemapmanager.cpp:591-595 | two tiles never share a cache path |
| TilePaths.ReplaceFills | tilemapmanager.cpp:649-651 | replacing a placeholder in a well-formed template fills exactly its holes |
| TilePaths.DefaultTemplateUrl | tilemapmanager.cpp:56 | the default template gives `https://<server>.tile.openstreetmap.org/z/x/y.png` with the current server, and advances the rotation |
| TilePaths.ServerTemplateUrl | tilemapmanager.cpp:645-667 | a template with a `{server}` hole gets the current server and advances the index modulo 3 |
| TilePaths.LiteralTemplateUrl | tilemapmanager.cpp:657-664 | a template without placeholders is returned unchanged and leaves the rotation alone |
| TilePaths.RotationAdvances | tilemapmanager.cpp:654-660 | over k URLs that all use the server, the rotation index advances by k modulo 3 |
| TilePaths.DefaultRotation | tilemapmanager.cpp:654-660 | with the default template the index after k URLs is the start plus k, modulo 3 |
| TilePaths.InfosSnoc | tilemapmanager.cpp:278-284 | one more queued tile adds its entry with the next URL of the rotation |
| TilePaths.MaxAvailableZoom | tilemapmanager.cpp:1017-1063 | the result is 0 without a cache directory, at least every numeric zoom directory holding a PNG, and always such a directory's zoom when positive |
| TileManager.SafetyNetCompletes | tilemapmanager.cpp:491-563 | the latch is never cleared, and it is set once the region is complete and nothing is in flight or processing has stopped; the count only drops to zero with latching |
| TileManager.SafetyNetCounters | tilemapmanager.cpp:510-541 | one call keeps the two wait counters within 0..50 and 0..30, the bounds Valid() requires of the manager |
| TileManager.SafetyNetGivesUp | tilemapmanager.cpp:508-525 | checkAndEmitDownloadFinished on its own: called on a complete region with requests counted in flight, it zeroes the count and sets the latch within 51 calls; no caller reaches this wait (SafetyNetAtDrain) |
| TileManager.SafetyNetAtDrain | tilemapmanager.cpp:333-335 | as processNextBatch calls it (empty queue, nothing in flight), the safety net never moves the in-flight count or the wait counters; it latches exactly on a complete region, stops processing once latch and completion agree, and re-arms the timer only for an incomplete, unlatched region still being processed |
| TileManager.RepeatSettled | tilemapmanager.cpp:499-505 | a latched, idle, complete session stays so under further calls |
| TileManager.ScanQueuesMissing | tilemapmanager.cpp:273-292 | the scan's queue is the missing tiles in visiting order with their URLs and paths, and the cached ones are counted |
| TileManager.RegionScan | tilemapmanager.cpp:252-297 | the queue of downloadRegion is the region's missing tiles with their rotated URLs, and the count is its cached tiles |
| TileManager.ViewScan | tilemapmanager.cpp:722-758 | the window loops show the cached, decodable tiles at their grid cells, request the missing ones in order and count both |
| TileManager.VisibleScan | tilemapmanager.cpp:691-767 | the closed form of calculateVisibleTiles: the table gains the decodable cached tiles, one request per missing tile, and progress is reported during a region download |
| TileManager.SessionSnoc | tilemapmanager.cpp:430-433 | appending one signal to the session adds one finish exactly when it is DownloadFinished |
| TileManager.TileMapManager.InitScene | tilemapmanager.cpp:179-182 | the manager has a scene exactly when one is given; CalculateVisibleTiles and RepositionTiles do nothing without one |
| TileManager.TileMapManager.SetTileSource | tilemapmanager.cpp:565-568 | the template is stored and nothing else changes; later URLs follow it as GetTileUrl says |
| TileManager.TileMapManager.constructor | tilemapmanager.cpp:47-115 | zoom 10, the OpenStreetMap template, an empty table, counters at zero, no processing and the cache directory under the project root |
| TileManager.TileMapManager.GetTilePath | tilemapmanager.cpp:591-595 | the path parses back to the tile |
| TileManager.TileMapManager.GetTileUrl | tilemapmanager.cpp:645-667 | the URL and the new rotation index are those of TileUrl on the old index |
| TileManager.TileMapManager.Finish | tilemapmanager.cpp:430-433 | setting the latch emits the session's one DownloadFinished |
| TileManager.TileMapManager.ScanRegion | tilemapmanager.cpp:252-297 | the zoom loop's queue, rotation and count are the region fold, and the total is the region size |
| TileManager.TileMapManager.DownloadRegion | tilemapmanager.cpp:234-320 | the queue is the region scan from an empty queue; initial progress when tiles are cached; an immediate finish when nothing is queued, otherwise processing starts at once |
| TileManager.TileMapManager.CheckAndEmitDownloadFinished | tilemapmanager.cpp:491-563 | the state changes as SafetyNet says, and DownloadFinished is logged exactly when the latch goes up |
| TileManager.TileMapManager.ProcessNextBatch | tilemapmanager.cpp:322-370 | stopped: nothing; drained: the safety net; saturated: the timer armed at 100 ms; otherwise the front is dispatched, and the in-flight count never exceeds 10 |
| TileManager.TileMapManager.TimerFires | tilemapmanager.cpp:106-107 | the expiry of the single-shot timer runs processNextBatch on the stopped timer: stopped processing leaves the timer idle; a drained queue runs the safety net; a saturated or dispatching batch re-arms it at 100 ms; an empty queue with replies outstanding leaves it idle; at most 10 requests stay in flight |
| TileManager.TileMapManager.OnTileDownloaded | tilemapmanager.cpp:372-453 | one request fewer (not below 0); a success advances the region count and shows a decodable tile; the region report, the finish and the timer follow the source's cases |
| TileManager.TileMapManager.OnTileLoaded | tilemapmanager.cpp:455-489 | one request fewer (not below 0), and a loaded tile is shown at its grid cell when there is a scene |
| TileManager.TileMapManager.DownloadTile | tilemapmanager.cpp:669-689 | a cached tile is requested from disk with its path, and a missing one from the network with the next URL; either adds one in-flight request |
| TileManager.TileMapManager.VisitBox | tilemapmanager.cpp:722-758 | the x and y loops leave the state and the two tallies as the window fold gives them |
| TileManager.TileMapManager.CalculateVisibleTiles | tilemapmanager.cpp:691-767 | without a scene nothing changes; otherwise the new state is VisibleResult of the old one |
| TileManager.TileMapManager.CleanupTiles | tilemapmanager.cpp:769-812 | the table keeps exactly the tiles of the current zoom within two tiles of the visible window |
| TileManager.TileMapManager.CollectEvicted | tilemapmanager.cpp:785-797 | the removal list is exactly the displayed tiles that fail the retention rule |
| TileManager.TileMapManager.RepositionTiles | tilemapmanager.cpp:814-838 | with a scene, the tiles of the current zoom move to their grid cells and the others stay; keys never change |
| TileManager.TileMapManager.SetZoom | tilemapmanager.cpp:191-224 | the zoom is clamped; evict, reposition and recompute the window; the region counters and the latch are reset |
| TileWork.AcceptableIsSigned | tileworker.cpp:152-163 | a payload is accepted exactly when it starts with the 4-byte PNG signature |
| TileWork.PerformDownloadReports | tileworker.cpp:103-232 | one attempt reports success with the data only when the payload is a PNG and stored whole, reports a 404 once, and otherwise says nothing and asks for a retry |
| TileWork.FirstDone | tileworker.cpp:84-93 | the first attempt that ends the loop, with every earlier one asking for a retry |
| TileWork.BlockingOneSignal | tileworker.cpp:75-101 | the blocking download makes 1 to 3 attempts and reports exactly once for the tile, and reports "Failed after 3 attempts" exactly when all three ask for a retry |
| TileWork.BlockingNotFoundFirst | tileworker.cpp:210-217 | a first 404 ends the download after one attempt with "Tile not found (404)" |
| TileWork.PausesGrow | tileworker.cpp:85-89 | attempt k+1 is preceded by a pause of 1000·k ms, and the first by none |
| TileWork.OnReplyRule | tileworker.cpp:298-364 | an error other than 404 is retried while attempt + 1 is below the maximum, and is otherwise reported; a 404 or a checked payload is reported once |
| TileWork.BackoffDoubles | tileworker.cpp:320 | the back-off starts at the initial delay and doubles with each attempt |
| TileWork.ChainAtMostOne | tileworker.cpp:298-364 | a chain of retries reports a tile at most once |
| TileWork.ChainEnds | tileworker.cpp:298-364 | given enough replies, a chain of retries reports its tile exactly once |
| TileWork.LoadResult | tileworker.cpp:31-57 | loading succeeds exactly for a stored, non-empty file, with its bytes; a failure carries no data and an error |
| TileWork.TileWorker.constructor | tileworker.h:44-45 | three retries with a 3000 ms initial back-off, and nothing in flight |
| TileWork.TileWorker.ConfigureNetworkRetries | tileworker.cpp:261-265 | negative settings are raised to 0 |
| TileWork.TileWorker.LoadTileFromFile | tileworker.cpp:31-57 | exactly one tileLoadedBytes signal is emitted, the one LoadResult gives: the bytes of a stored, non-empty file, otherwise a failure naming the cause |
| TileWork.TileWorker.PerformDownload | tileworker.cpp:103-232 | the result says whether the attempt ended the loop, and the log gains the attempt's report |
| TileWork.TileWorker.DownloadAndSaveTile | tileworker.cpp:75-101 | the loop logs what Blocking says and pauses as Pauses says, for the attempts Calls counts |
| TileWork.TileWorker.StartAsyncRequest | tileworker.cpp:267-296 | the request (tile, URL, path and attempt number) joins the requests in flight, whose reply OnReplyFinished handles |
| TileWork.TileWorker.DownloadAsync | tileworker.cpp:69-73 | the asynchronous path starts with attempt 0, so ChainEnds bounds its replies by max(1, retryMax) |
| TileWork.TileWorker.OnReplyFinished | tileworker.cpp:298-364 | the reply leaves the in-flight list; its signal is logged or its retry scheduled, as OnReply says |
| TileWork.TileWorker.RetryFires | tileworker.cpp:319-324 | corrected: a due retry leaves the timers and re-sends the failed request, its URL included, with the next attempt number |
| TileWork.TileWorker.RetryFiresAsWritten | tileworker.cpp:319-324 | as written: a due retry re-sends the tile, path and attempt, but with whatever URL is read from the deleted reply |
| TileWork.StaleRetryDiffers | tileworker.cpp:319-324 | a retry that reads any URL but the failed one from the deleted reply is not the request the corrected retry re-sends |
| MapTools.NodeItemsAt | maptools.cpp:217-226 | one node item per committed point, at that point |
| MapTools.CommitCount | maptools.cpp:193-235 | a commit adds the path, one node per point and a label only when the text is non-empty |
| MapTools.MeasureTool.constructor | maptools.cpp:116 | a new tool has no graphics, no points and no commits |
| MapTools.MeasureTool.UpdateRubber | maptools.cpp:158-185 | the path runs through the points, closed only when asked and non-empty, and there is exactly one node per point |
| MapTools.MeasureTool.EnsureGraphics | maptools.cpp:141-156 | missing graphics are created empty and existing ones kept |
| MapTools.MeasureTool.UpdateLabel | maptools.cpp:187-191 | the caption shows the text |
| MapTools.MeasureTool.CommitGeometry | maptools.cpp:193-235 | under two points nothing is committed; otherwise the projected points, the path, the nodes and a non-empty label are committed |
| MapTools.MeasureTool.ClearCommitted | maptools.cpp:237-241 | every committed item and record goes |
| MapTools.MeasureTool.ClearGraphics | maptools.cpp:134-139 | the rubber band, nodes and caption are removed |
| MapTools.MeasureTool.OnActivate | maptools.cpp:118-123 | editing starts with no graphics and no geographic points |
| MapTools.MeasureTool.OnDeactivate | maptools.cpp:125-130 | editing stops, the graphics go and the committed items stay |
| MapTools.MeasureTool.OnMousePress | maptools.cpp:304-320 | a left press appends the point, and a right press while editing removes the last one; either redraws the band |
| MapTools.MeasureTool.OnMouseMove | maptools.cpp:322-340 | with points, the band runs on to the cursor and the caption and status show the measure; otherwise nothing happens |
| MapTools.MeasureTool.Complete | maptools.cpp:346-368 | with enough points (2 for distance, 3 for area) the measurement is committed, closed and filled for area; the graphics and scene points go either way |
| MapTools.MeasureTool.OnMouseDoubleClick | maptools.cpp:346-357 | completes the measurement and reports "测量完成" when it committed |
| MapTools.MeasureTool.OnKeyPress | maptools.cpp:359-368 | ESC completes the measurement and is handled, and other keys change nothing |
| MapTools.ToolManager.RegisterTool | maptools.cpp:14-20 | a tool is filed under its id, and a null tool is ignored |
| MapTools.ToolManager.DeactivateTool | maptools.cpp:42-49 | the current tool is deactivated and the change reported; only the arrow cursor is requested when there is none |
| MapTools.ToolManager.ActivateTool | maptools.cpp:22-40 | the current tool toggles off; an unknown id fails with no tool current; a known one becomes current, starts editing and reports its id, cursor and hint |
| MapTools.ToolManager.HandleMousePress | maptools.cpp:51-53 | unhandled without a tool; otherwise the current tool ends as its onMousePress says: a left press appends the point and its projection, a right press while editing drops the last of each, either redraws the band with one node per point, and anything else changes nothing; commits and editing state are kept |
| MapTools.ToolManager.HandleMouseMove | maptools.cpp:54-56 | unhandled without a tool; with points, the current tool's band runs on to the cursor, its caption shows the text and the status is passed on; its points and commits are kept |
| MapTools.ToolManager.HandleMouseRelease | maptools.cpp:57-59 | never handled |
| MapTools.ToolManager.HandleMouseDoubleClick | maptools.cpp:60-62 | the current tool completes: with enough points its measurement is appended to its committed items and geographic records and "测量完成" is reported, otherwise its commits are kept; it is then deactivated with its graphics and scene points gone |
| MapTools.ToolManager.HandleKeyPress | maptools.cpp:63-73 | ESC commits the current tool's measurement as a double click does, deactivates it and is handled; other keys change nothing and are not handled |
| MapTools.ToolManager.ClearAllCommitted | maptools.cpp:75-79 | every registered tool drops its committed items and records and keeps its points, graphics and editing state |

## Left out

- `latLonToTile`, `tileToLatLon` and `sceneToLatLon` are floating-point projections. Their
  results (the centre tile, a region's corner tiles, a point's geographic coordinates) are
  arguments.
- The network, the worker thread, the mutex and the real timers are left out. A reply, a
  timer expiry or a worker signal is a method call; the processing timer is the `Timer`
  value, and the worker's per-reply timers are the `timers` list.
- The disk is an argument:
  - the existence checks (`tileExists`) are the `cached` set;
  - pixmap decoding is the `decodes` set, or a flag;
  - a write is the `Disk` outcome of a reply;
  - `saveTile` writes the file and changes no model state.
- The bodies of `onMouseMove` that compute a length or an area (haversine distance,
  polygon area, unit choice and number formatting) are not modelled: the formatted text is
  an argument.
- `onViewChanged` and `refreshForViewChange` rebuild the committed overlays from their
  geographic points in floating point; they are not modelled.
- `setCenter` and `loadTiles` store the centre and then run `calculateVisibleTiles`, whose
  scene check is part of `CalculateVisibleTiles`. The centre is its argument, so they add
  nothing.
- `setZoom` sets the scene rectangle, which is display geometry and is not modelled.
- `checkLocalTiles` and `loadLocalTiles` are not modelled. At startup `checkLocalTiles`
  stores the largest numeric zoom directory as the zoom without clamping
  (`tilemapmanager.cpp:874`), and `loadLocalTiles` adds the cached, decodable tiles of the
  window to the tile table (`tilemapmanager.cpp:942`). The model's zoom bound of 0..19 in
  `Valid()` assumes that `SetZoom` is the only writer of the zoom; a directory named `25`
  would break it in the source.
- Logging, `getLocalTilesInfo` and `onDownloadProgress` are diagnostics that change no model
  state.
- `startWorkerThread`, `stopWorkerThread`, the destructor and `setContext` are lifecycle
  plumbing.
- Connecting a tool's signals again on re-registration is not modelled: the relay is
  modelled once.
- TileManager.TileMapManager.DownloadRegion: the 32-bit `int` of the per-zoom total and of
  the region total (`tilemapmanager.cpp:268`, `295`) is not modelled; TileGeometry.RegionSize
  is unbounded, while the source's sum wraps once a region holds 2^31 tiles or more (a whole
  world box from zoom 16 on).
- TileManager.TileMapManager.DownloadRegion: `1 << zoom` (`tilemapmanager.cpp:262`) is
  undefined for a zoom of 31 or more or below 0; the model uses the exact power 2^zoom for
  every zoom from minZoom to maxZoom.
- TilePaths.MaxAvailableZoom: Decimal.ParseInt reads any decimal integer, while `toInt(&ok)`
  fails outside the 32-bit range, so a zoom directory named with a larger number is counted
  by the model and skipped by the source (`tilemapmanager.cpp:1034-1035`).
- TileManager.TileMapManager.GetTilePath: TilePaths.TilePath joins the cache directory and
  the indices directly, while the chained `.arg()` at `tilemapmanager.cpp:594` would also
  substitute into a cache directory that itself contains `%2`, `%3` or `%4`.
- Recovery from lost replies: processNextBatch runs checkAndEmitDownloadFinished only with an
  empty queue and nothing in flight (`tilemapmanager.cpp:333-335`). So the waits for replies
  that never come (`tilemapmanager.cpp:508-541`) and the keep-alive (`550-556`) are never
  reached. A lost reply with the queue empty leaves the timer idle, as `TimerFires` states,
  and the download never finishes. Ten lost replies re-arm the timer at 100 ms on every tick.
  The model keeps this behaviour and does not claim a fix.
- MapTools.MeasureTool.UpdateLabel: the caption's position, 8 right of and 8 above the
  cursor (`maptools.cpp:190`), is not kept; committed captions keep theirs (`LabelAt`).
- TileWork.Backoff: does not model the 32-bit overflow of
  `m_backoffInitialMs * (int)qPow(2, attempt)` for large attempts or delays.
- TileManager.TileMapManager.CheckAndEmitDownloadFinished: the source resets a negative
  in-flight count first. The class invariant keeps the count non-negative, so that reset
  is dead in the model. SafetyNet still models it.
- TileWork.OnReply: a reply aborted by the 30-second guard is an error other than 404 and
  is retried like one. Its final error text is taken to be Qt's "Operation canceled"; the
  text Qt actually produces is not modelled.
- The 404 reply of a region download does not advance the region's progress count
  (`tilemapmanager.cpp:383-391` counts successes only); the model follows the code.

## Findings

| source | as written | input that shows it | evidently intended | confidence | as-written member | corrected member |
|---|---|---|---|---|---|---|
| tilemapmanager.cpp:268 | `(maxTileX - minTileX + 1) * (maxTileY - minTileY + 1)` is added to the region total even when clamping emptied the box | zoom 1 with corner tiles (3, 0) and (3, 1): the clamped box has x from 3 to 1 and y from 0 to 1, so the product is -1 · 2 = -2 while no tile is visited | the total counts the tiles the loops visit: width and height floored at 0 | not executed | TileGeometry.BoxSizeAsWrittenMiscounts | TileGeometry.RegionTilesLength |

| tileworker.cpp:321-324 | the retry timer's lambda reads `reply->property("tile_url")` from a reply that line 324 has already passed to `deleteLater`, so with any positive back-off the reply is deleted before the timer fires | a failed reply with attempt + 1 < retryMax and the default 3000 ms back-off: the lambda runs 3 s after the reply was deleted and reads freed memory, so the URL it retries with is undefined | the retry re-sends the URL of the request that failed, copied into the lambda like the key and path | not executed | TileWork.StaleRetryDiffers | TileWork.TileWorker.RetryFires |

The model's `DownloadRegion` adds the corrected box size (`TileGeometry.BoxSize`), so the
region total always equals the number of tiles visited. `TileGeometry.BoxSizeAgreesWhenNonEmpty`
shows that the two agree on every box that holds a tile. The worker's `OnReplyFinished`
schedules the corrected retry, whose request carries the failed URL, and `RetryFires`
re-sends it; `RetryFiresAsWritten` is the source's retry, with the URL it reads from the
deleted reply as an argument.
