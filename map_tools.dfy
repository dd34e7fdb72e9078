/**
 * The map tools: ToolManager, which keeps a registry of tools and at most one current
 * tool and routes input events to it, and the two measure tools (distance and area),
 * which collect points, draw a rubber band with one node per point, and on completion
 * commit the shape as scene items together with its geographic coordinates.
 *
 * Scene items are values (a path, a node or a caption at a position); the projection from
 * scene to geographic coordinates is an argument; the measured length or area, which only
 * feeds the caption text, is given as that text.
 */
module MapTools {
  import opened Wrappers

  datatype Point = Point(x: real, y: real)

  datatype Kind = Distance | Area
  datatype Cursor = ArrowCursor | CrossCursor
  datatype Button = LeftButton | RightButton | OtherButton
  datatype Key = Escape | OtherKey(code: int)

  /** The status hint both measure tools show while active. */
  const MeasureHint: string := "左键加点, 右键撤销, 双击结束, ESC 取消"
  /** The status a double-click that commits reports. */
  const MeasureDone: string := "测量完成"

  function ToolId(kind: Kind): string
  {
    match kind
    case Distance => "measure_distance"
    case Area => "measure_area"
  }

  /** The fewest points a measurement needs to be committed. */
  function MinPoints(kind: Kind): nat
  {
    match kind
    case Distance => 2
    case Area => 3
  }

  /** Whether a committed shape is closed and filled: only areas are. */
  function Closes(kind: Kind): bool
  {
    kind.Area?
  }

  /** The rubber band of the distance tool is open; the area tool closes it from three points. */
  function RubberClosed(kind: Kind, n: nat): bool
  {
    kind.Area? && n >= 3
  }

  /** A scene item a committed measurement leaves behind. */
  datatype Item =
    | PathItem(points: seq<Point>, closed: bool, filled: bool)
    | NodeItem(at: Point)
    | LabelItem(text: string, at: Point)

  /** A committed measurement in geographic coordinates, kept to redraw it after a zoom. */
  datatype CommittedGeo = CommittedGeo(latLon: seq<Point>, closed: bool, caption: string, filled: bool)

  /** The rubber-band path: its points and whether the subpath is closed. */
  datatype Rubber = Rubber(points: seq<Point>, closed: bool)

  /** One node item per point, in order. */
  function NodeItems(pts: seq<Point>): seq<Item>
    decreases |pts|
  {
    if pts == [] then [] else NodeItems(pts[..|pts| - 1]) + [NodeItem(pts[|pts| - 1])]
  }

  lemma {:induction false} NodeItemsAt(pts: seq<Point>)
    ensures |NodeItems(pts)| == |pts|
    ensures forall i :: 0 <= i < |pts| ==> NodeItems(pts)[i] == NodeItem(pts[i])
    decreases |pts|
  {
    if pts != [] {
      NodeItemsAt(pts[..|pts| - 1]);
    }
  }

  /** Where a caption is drawn: 8 right of and 8 above the last point. */
  function LabelAt(p: Point): Point
  {
    Point(p.x + 8.0, p.y - 8.0)
  }

  /** The items commitGeometry adds for `pts`: the path, a node per point, then the caption if any. */
  function CommitItems(pts: seq<Point>, closed: bool, caption: string, filled: bool): seq<Item>
    requires pts != []
  {
    [PathItem(pts, closed, filled)] + NodeItems(pts) +
    (if caption != "" then [LabelItem(caption, LabelAt(pts[|pts| - 1]))] else [])
  }

  /**
   * A commit adds 1 + |pts| items, plus one when the caption is non-empty: first the path
   * over the points, then a node at each point in order, then the caption by the last point.
   */
  lemma CommitCount(pts: seq<Point>, closed: bool, caption: string, filled: bool)
    requires pts != []
    ensures var items := CommitItems(pts, closed, caption, filled);
            && |items| == 1 + |pts| + (if caption != "" then 1 else 0)
            && items[0] == PathItem(pts, closed, filled)
            && (forall i :: 0 <= i < |pts| ==> items[1 + i] == NodeItem(pts[i]))
            && (caption != "" ==> items[|items| - 1] == LabelItem(caption, LabelAt(pts[|pts| - 1])))
  {
    NodeItemsAt(pts);
  }

  /** The geographic coordinates of the points under `project`. */
  function Projected(project: Point -> Point, pts: seq<Point>): (r: seq<Point>)
    ensures |r| == |pts| && forall i :: 0 <= i < |pts| ==> r[i] == project(pts[i])
  {
    seq(|pts|, i requires 0 <= i < |pts| => project(pts[i]))
  }

  /** The text of the caption item, or the empty text when there is none. */
  function LabelText(caption: Option<string>): string
  {
    if caption.Some? then caption.value else ""
  }

  // ---------------------------------------------------------------------------
  // The measure tools.

  /**
   * MeasureBase with the points of MeasureDistanceTool or MeasureAreaTool, chosen by
   * `kind`. `path`, `nodes` and `caption` are the editing graphics; `committed` and
   * `committedGeo` the committed measurements.
   */
  class MeasureTool {
    const kind: Kind
    var path: Option<Rubber>
    /** The positions of the node items, one per rubber-band point. */
    var nodes: seq<Point>
    var caption: Option<string>
    var committed: seq<Item>
    var committedGeo: seq<CommittedGeo>
    var isEditing: bool
    var pointsGeo: seq<Point>
    var pointsScene: seq<Point>

    constructor (k: Kind)
      ensures kind == k
      ensures path == None && nodes == [] && caption == None
      ensures committed == [] && committedGeo == []
      ensures !isEditing && pointsGeo == [] && pointsScene == []
      ensures Drawn()
    {
      kind := k;
      path := None;
      nodes := [];
      caption := None;
      committed := [];
      committedGeo := [];
      isEditing := false;
      pointsGeo := [];
      pointsScene := [];
    }

    /** The node items mark exactly the points of the rubber band, and there are none without one. */
    predicate Drawn()
      reads this
    {
      nodes == if path.Some? then path.value.points else []
    }

    /** The tool's descriptor: its id, cursor and hint. */
    function Id(): string
    {
      ToolId(kind)
    }

    /** clearGraphics: the rubber band, its nodes and the caption are removed. */
    method ClearGraphics()
      modifies this`path, this`nodes, this`caption
      ensures path == None && nodes == [] && caption == None
      ensures Drawn()
    {
      path := None;
      nodes := [];
      caption := None;
    }

    /** ensureGraphics: a missing path or caption is created empty; existing ones stay. */
    method EnsureGraphics()
      modifies this`path, this`caption
      ensures path == if old(path).Some? then old(path) else Some(Rubber([], false))
      ensures caption == if old(caption).Some? then old(caption) else Some("")
    {
      if path.None? {
        path := Some(Rubber([], false));
      }
      if caption.None? {
        caption := Some("");
      }
    }

    /**
     * updateRubber: the path runs through `pts` (closed only when asked and non-empty), and
     * surplus nodes are dropped from the end before the rest are moved onto the points and
     * missing ones appended, so there is exactly one node per point.
     */
    method UpdateRubber(pts: seq<Point>, closed: bool)
      modifies this`path, this`nodes, this`caption
      ensures path == Some(Rubber(pts, closed && pts != []))
      ensures nodes == pts
      ensures caption == if old(caption).Some? then old(caption) else Some("")
      ensures Drawn()
    {
      EnsureGraphics();
      path := Some(Rubber(pts, closed && pts != []));
      while |nodes| > |pts|
        invariant path == Some(Rubber(pts, closed && pts != []))
        invariant caption == if old(caption).Some? then old(caption) else Some("")
        decreases |nodes|
      {
        nodes := nodes[..|nodes| - 1];
      }
      var i := 0;
      while i < |pts|
        invariant 0 <= i <= |pts|
        invariant i <= |nodes| <= |pts|
        invariant nodes[..i] == pts[..i]
        invariant path == Some(Rubber(pts, closed && pts != []))
        invariant caption == if old(caption).Some? then old(caption) else Some("")
      {
        if i < |nodes| {
          nodes := nodes[i := pts[i]];
        } else {
          nodes := nodes + [pts[i]];
        }
        i := i + 1;
      }
      assert nodes[..i] == nodes && pts[..i] == pts;
    }

    /** updateLabel: the caption shows `text`. */
    method UpdateLabel(text: string)
      modifies this`path, this`caption
      ensures path == if old(path).Some? then old(path) else Some(Rubber([], false))
      ensures caption == Some(text)
    {
      EnsureGraphics();
      caption := Some(text);
    }

    /**
     * commitGeometry: fewer than two points commit nothing; otherwise the points'
     * geographic coordinates are recorded and the path, nodes and caption items added (see
     * CommitCount).
     */
    method CommitGeometry(pts: seq<Point>, closed: bool, text: string, filled: bool, project: Point -> Point)
      modifies this`committed, this`committedGeo
      ensures |pts| < 2 ==> committed == old(committed) && committedGeo == old(committedGeo)
      ensures |pts| >= 2 ==>
                committedGeo == old(committedGeo) + [CommittedGeo(Projected(project, pts), closed, text, filled)] &&
                committed == old(committed) + CommitItems(pts, closed, text, filled)
    {
      if |pts| < 2 {
        return;
      }
      var latLon := [];
      for i := 0 to |pts|
        invariant latLon == Projected(project, pts[..i])
      {
        latLon := latLon + [project(pts[i])];
      }
      assert pts[..|pts|] == pts;
      committedGeo := committedGeo + [CommittedGeo(latLon, closed, text, filled)];
      committed := committed + [PathItem(pts, closed, filled)];
      for i := 0 to |pts|
        invariant committed == old(committed) + [PathItem(pts, closed, filled)] + NodeItems(pts[..i])
        invariant committedGeo == old(committedGeo) + [CommittedGeo(latLon, closed, text, filled)]
      {
        assert pts[..i + 1][..i] == pts[..i];
        committed := committed + [NodeItem(pts[i])];
      }
      if text != "" {
        committed := committed + [LabelItem(text, LabelAt(pts[|pts| - 1]))];
      }
    }

    /** clearCommitted: every committed item and record is dropped. */
    method ClearCommitted()
      modifies this`committed, this`committedGeo
      ensures committed == [] && committedGeo == []
    {
      committed := [];
      committedGeo := [];
    }

    /** onActivate: editing starts without graphics or geographic points. */
    method OnActivate()
      modifies this`path, this`nodes, this`caption, this`isEditing, this`pointsGeo
      ensures path == None && nodes == [] && caption == None
      ensures isEditing && pointsGeo == []
      ensures Drawn()
    {
      ClearGraphics();
      isEditing := true;
      pointsGeo := [];
    }

    /** onDeactivate: the editing graphics go, the committed ones stay. */
    method OnDeactivate()
      modifies this`path, this`nodes, this`caption, this`isEditing
      ensures path == None && nodes == [] && caption == None
      ensures !isEditing
      ensures Drawn()
    {
      ClearGraphics();
      isEditing := false;
    }

    /**
     * onMousePress at scene point p: a left press appends the point (and its projection);
     * a right press while editing removes the last point; either redraws the rubber band and
     * is handled. Any other press is not handled and changes nothing.
     */
    method OnMousePress(button: Button, p: Point, project: Point -> Point) returns (handled: bool)
      modifies this`path, this`nodes, this`caption, this`pointsScene, this`pointsGeo
      ensures handled <==> button.LeftButton? || (button.RightButton? && isEditing && old(pointsScene) != [])
      ensures button.LeftButton? ==>
                pointsScene == old(pointsScene) + [p] && pointsGeo == old(pointsGeo) + [project(p)]
      ensures !button.LeftButton? && handled ==>
                pointsScene == old(pointsScene)[..|old(pointsScene)| - 1] &&
                pointsGeo == if old(pointsGeo) == [] then [] else old(pointsGeo)[..|old(pointsGeo)| - 1]
      ensures handled ==> nodes == pointsScene && path == Some(Rubber(pointsScene, RubberClosed(kind, |pointsScene|) && pointsScene != []))
      ensures handled ==> Drawn()
      ensures !handled ==>
                pointsScene == old(pointsScene) && pointsGeo == old(pointsGeo) &&
                path == old(path) && nodes == old(nodes) && caption == old(caption)
    {
      if button.LeftButton? {
        pointsScene := pointsScene + [p];
        pointsGeo := pointsGeo + [project(p)];
        UpdateRubber(pointsScene, RubberClosed(kind, |pointsScene|));
        return true;
      }
      if button.RightButton? && isEditing && pointsScene != [] {
        pointsScene := pointsScene[..|pointsScene| - 1];
        if pointsGeo != [] {
          pointsGeo := pointsGeo[..|pointsGeo| - 1];
        }
        UpdateRubber(pointsScene, RubberClosed(kind, |pointsScene|));
        return true;
      }
      return false;
    }

    /**
     * onMouseMove at scene point p, `text` being the formatted length or area: with no
     * point yet nothing happens; otherwise the rubber band runs on to p, the caption shows the
     * text, and the text is reported as the status.
     */
    method OnMouseMove(p: Point, text: string) returns (handled: bool, status: Option<string>)
      modifies this`path, this`nodes, this`caption
      ensures handled <==> pointsScene != []
      ensures !handled ==> status == None && path == old(path) && nodes == old(nodes) && caption == old(caption)
      ensures handled ==>
                status == Some(text) && caption == Some(text) && nodes == pointsScene + [p] &&
                path == Some(Rubber(pointsScene + [p], RubberClosed(kind, |pointsScene| + 1)))
      ensures handled ==> Drawn()
    {
      if pointsScene == [] {
        return false, None;
      }
      var tmp := pointsScene + [p];
      UpdateRubber(tmp, RubberClosed(kind, |tmp|));
      UpdateLabel(text);
      return true, Some(text);
    }

    /** onMouseRelease: never handled. */
    method OnMouseRelease() returns (handled: bool)
      ensures !handled
    {
      return false;
    }

    /**
     * The end of a measurement: too few points commit nothing and only the scene points
     * are dropped; otherwise the points are committed with the caption's text, and both point
     * lists are emptied. The editing graphics are removed either way.
     */
    method Complete(project: Point -> Point) returns (done: bool)
      modifies this`path, this`nodes, this`caption, this`pointsScene, this`pointsGeo,
               this`committed, this`committedGeo
      ensures done <==> |old(pointsScene)| >= MinPoints(kind)
      ensures path == None && nodes == [] && caption == None && pointsScene == []
      ensures Drawn()
      ensures !done ==>
                committed == old(committed) && committedGeo == old(committedGeo) && pointsGeo == old(pointsGeo)
      ensures done ==>
                pointsGeo == [] &&
                committedGeo == old(committedGeo) +
                  [CommittedGeo(Projected(project, old(pointsScene)), Closes(kind), LabelText(old(caption)), Closes(kind))] &&
                committed == old(committed) + CommitItems(old(pointsScene), Closes(kind), LabelText(old(caption)), Closes(kind))
    {
      if |pointsScene| < MinPoints(kind) {
        ClearGraphics();
        pointsScene := [];
        return false;
      }
      var finalLabel := LabelText(caption);
      CommitGeometry(pointsScene, Closes(kind), finalLabel, Closes(kind), project);
      ClearGraphics();
      pointsScene := [];
      pointsGeo := [];
      return true;
    }

    /**
     * onMouseDoubleClick: the measurement is completed; a commit reports MeasureDone; the
     * tool then asks to be deactivated. Always handled.
     */
    method OnMouseDoubleClick(project: Point -> Point) returns (status: Option<string>)
      modifies this`path, this`nodes, this`caption, this`pointsScene, this`pointsGeo,
               this`committed, this`committedGeo
      ensures status == if |old(pointsScene)| >= MinPoints(kind) then Some(MeasureDone) else None
      ensures path == None && nodes == [] && caption == None && pointsScene == []
      ensures |old(pointsScene)| < MinPoints(kind) ==>
                committed == old(committed) && committedGeo == old(committedGeo) && pointsGeo == old(pointsGeo)
      ensures |old(pointsScene)| >= MinPoints(kind) ==>
                pointsGeo == [] &&
                committedGeo == old(committedGeo) +
                  [CommittedGeo(Projected(project, old(pointsScene)), Closes(kind), LabelText(old(caption)), Closes(kind))] &&
                committed == old(committed) + CommitItems(old(pointsScene), Closes(kind), LabelText(old(caption)), Closes(kind))
    {
      var done := Complete(project);
      status := if done then Some(MeasureDone) else None;
    }

    /** onKeyPress: ESC completes the measurement and is handled; any other key is not. */
    method OnKeyPress(key: Key, project: Point -> Point) returns (handled: bool)
      modifies this`path, this`nodes, this`caption, this`pointsScene, this`pointsGeo,
               this`committed, this`committedGeo
      ensures handled <==> key.Escape?
      ensures !handled ==>
                path == old(path) && nodes == old(nodes) && caption == old(caption) &&
                pointsScene == old(pointsScene) && pointsGeo == old(pointsGeo) &&
                committed == old(committed) && committedGeo == old(committedGeo)
      ensures handled ==> path == None && nodes == [] && caption == None && pointsScene == []
      ensures handled && |old(pointsScene)| < MinPoints(kind) ==>
                committed == old(committed) && committedGeo == old(committedGeo) && pointsGeo == old(pointsGeo)
      ensures handled && |old(pointsScene)| >= MinPoints(kind) ==>
                pointsGeo == [] &&
                committedGeo == old(committedGeo) +
                  [CommittedGeo(Projected(project, old(pointsScene)), Closes(kind), LabelText(old(caption)), Closes(kind))] &&
                committed == old(committed) + CommitItems(old(pointsScene), Closes(kind), LabelText(old(caption)), Closes(kind))
    {
      if !key.Escape? {
        return false;
      }
      var _ := Complete(project);
      return true;
    }
  }

  // ---------------------------------------------------------------------------
  // The tool manager.

  datatype ToolSignal =
    | CurrentToolChanged(id: string)
    | RequestCursor(cursor: Cursor)
    | RequestStatus(text: string)

  /** What deactivateTool emits when a tool was current. */
  const Deactivation: seq<ToolSignal> := [CurrentToolChanged(""), RequestCursor(ArrowCursor), RequestStatus("")]

  class ToolManager {
    /** m_tools: the registry, keyed by each tool's id. */
    var tools: map<string, MeasureTool>
    /** m_current: the current tool, if any. */
    var current: MeasureTool?
    /** Every signal emitted so far. */
    var log: seq<ToolSignal>

    constructor ()
      ensures tools == map[] && current == null && log == []
    {
      tools := map[];
      current := null;
      log := [];
    }

    /** registerTool: a tool is filed under its id, replacing any tool of that id. */
    method RegisterTool(tool: MeasureTool?)
      modifies this`tools
      ensures tool == null ==> tools == old(tools)
      ensures tool != null ==> tools == old(tools)[tool.Id() := tool]
    {
      if tool == null {
        return;
      }
      tools := tools[tool.Id() := tool];
    }

    /**
     * deactivateTool: the current tool, if any, is deactivated and the change reported; the
     * arrow cursor is requested either way.
     */
    method DeactivateTool()
      modifies this`current, this`log, current
      ensures current == null
      ensures old(current) == null ==> log == old(log) + [RequestCursor(ArrowCursor)]
      ensures old(current) != null ==>
                log == old(log) + Deactivation && !old(current).isEditing &&
                old(current).path == None && old(current).nodes == [] && old(current).caption == None
      ensures old(current) != null ==>
                old(current).pointsScene == old(current.pointsScene) && old(current).pointsGeo == old(current.pointsGeo) &&
                old(current).committed == old(current.committed) && old(current).committedGeo == old(current.committedGeo)
    {
      if current == null {
        log := log + [RequestCursor(ArrowCursor)];
        return;
      }
      current.OnDeactivate();
      current := null;
      log := log + Deactivation;
    }

    /**
     * activateTool(id): asking for the current tool turns it off (and succeeds); otherwise
     * the current tool is deactivated without a report, and then an unknown id fails with
     * no tool current, while a registered one becomes current, starts editing, and is
     * reported with its cursor and hint. Every tool keeps its points and commits: scene
     * points left from an earlier activation survive.
     */
    method ActivateTool(id: string) returns (ok: bool)
      modifies this`current, this`log, current, if id in tools then {tools[id]} else {}
      ensures old(current) != null && id in tools && tools[id] == old(current) ==>
                ok && current == null && log == old(log) + Deactivation && !old(current).isEditing
      ensures id !in tools ==>
                !ok && current == null && log == old(log) &&
                (old(current) != null ==> !old(current).isEditing)
      ensures id in tools && tools[id] != old(current) ==>
                ok && current == tools[id] && current.isEditing && current.pointsGeo == [] &&
                current.path == None && current.nodes == [] && current.caption == None &&
                log == old(log) + [CurrentToolChanged(id), RequestCursor(CrossCursor), RequestStatus(MeasureHint)] &&
                (old(current) != null ==> !old(current).isEditing)
      ensures id in tools && tools[id] != old(current) ==>
                tools[id].pointsScene == old(tools[id].pointsScene) &&
                tools[id].committed == old(tools[id].committed) &&
                tools[id].committedGeo == old(tools[id].committedGeo)
      ensures old(current) != null ==>
                old(current).path == None && old(current).nodes == [] && old(current).caption == None &&
                old(current).pointsScene == old(current.pointsScene) && old(current).pointsGeo == old(current.pointsGeo) &&
                old(current).committed == old(current.committed) && old(current).committedGeo == old(current.committedGeo)
    {
      if current != null && id in tools && current == tools[id] {
        DeactivateTool();
        return true;
      }
      if current != null {
        current.OnDeactivate();
        current := null;
      }
      if id !in tools {
        return false;
      }
      current := tools[id];
      current.OnActivate();
      log := log + [CurrentToolChanged(id), RequestCursor(CrossCursor), RequestStatus(MeasureHint)];
      return true;
    }

    /**
     * handleMousePress: routed to the current tool, which ends as its onMousePress leaves
     * it; unhandled without one.
     */
    method HandleMousePress(button: Button, p: Point, project: Point -> Point) returns (handled: bool)
      modifies current
      ensures current == null ==> !handled
      ensures current != null ==>
                (handled <==> button.LeftButton? || (button.RightButton? && current.isEditing && old(current.pointsScene) != []))
      ensures current != null && button.LeftButton? ==>
                current.pointsScene == old(current.pointsScene) + [p] &&
                current.pointsGeo == old(current.pointsGeo) + [project(p)]
      ensures current != null && !button.LeftButton? && handled ==>
                current.pointsScene == old(current.pointsScene)[..|old(current.pointsScene)| - 1] &&
                current.pointsGeo == if old(current.pointsGeo) == [] then [] else old(current.pointsGeo)[..|old(current.pointsGeo)| - 1]
      ensures current != null && handled ==>
                current.nodes == current.pointsScene &&
                current.path == Some(Rubber(current.pointsScene,
                                            RubberClosed(current.kind, |current.pointsScene|) && current.pointsScene != []))
      ensures current != null && !handled ==>
                current.pointsScene == old(current.pointsScene) && current.pointsGeo == old(current.pointsGeo) &&
                current.path == old(current.path) && current.nodes == old(current.nodes) &&
                current.caption == old(current.caption)
      ensures current != null ==>
                current.committed == old(current.committed) && current.committedGeo == old(current.committedGeo) &&
                current.isEditing == old(current.isEditing)
    {
      if current == null {
        return false;
      }
      handled := current.OnMousePress(button, p, project);
    }

    /**
     * handleMouseMove: routed to the current tool, whose band and caption follow the cursor
     * as its onMouseMove says, and whose status is passed on.
     */
    method HandleMouseMove(p: Point, text: string) returns (handled: bool)
      modifies current, this`log
      ensures current == null ==> !handled && log == old(log)
      ensures current != null ==> (handled <==> current.pointsScene != [])
      ensures log == old(log) + if handled then [RequestStatus(text)] else []
      ensures current != null && handled ==>
                current.caption == Some(text) && current.nodes == current.pointsScene + [p] &&
                current.path == Some(Rubber(current.pointsScene + [p], RubberClosed(current.kind, |current.pointsScene| + 1)))
      ensures current != null && !handled ==>
                current.path == old(current.path) && current.nodes == old(current.nodes) &&
                current.caption == old(current.caption)
      ensures current != null ==>
                current.pointsScene == old(current.pointsScene) && current.pointsGeo == old(current.pointsGeo) &&
                current.committed == old(current.committed) && current.committedGeo == old(current.committedGeo) &&
                current.isEditing == old(current.isEditing)
    {
      if current == null {
        return false;
      }
      var status;
      handled, status := current.OnMouseMove(p, text);
      if status.Some? {
        log := log + [RequestStatus(status.value)];
      }
    }

    /** handleMouseRelease: no tool handles a release. */
    method HandleMouseRelease() returns (handled: bool)
      ensures !handled
    {
      if current == null {
        return false;
      }
      handled := current.OnMouseRelease();
    }

    /**
     * handleMouseDoubleClick: the current tool completes its measurement, reports
     * MeasureDone if it committed, and asks to be deactivated, which deactivateTool does
     * at once. Unhandled without a current tool.
     */
    method HandleMouseDoubleClick(project: Point -> Point) returns (handled: bool)
      modifies this`current, this`log, current
      ensures handled <==> old(current) != null
      ensures current == null
      ensures old(current) == null ==> log == old(log)
      ensures old(current) != null ==>
                log == old(log) +
                       (if |old(current.pointsScene)| >= MinPoints(old(current).kind) then [RequestStatus(MeasureDone)] else []) +
                       Deactivation &&
                old(current).pointsScene == [] && !old(current).isEditing &&
                old(current).path == None && old(current).nodes == [] && old(current).caption == None
      ensures old(current) != null && |old(current.pointsScene)| < MinPoints(old(current).kind) ==>
                old(current).committed == old(current.committed) &&
                old(current).committedGeo == old(current.committedGeo) &&
                old(current).pointsGeo == old(current.pointsGeo)
      ensures old(current) != null && |old(current.pointsScene)| >= MinPoints(old(current).kind) ==>
                old(current).pointsGeo == [] &&
                old(current).committedGeo == old(current.committedGeo) +
                  [CommittedGeo(Projected(project, old(current.pointsScene)), Closes(old(current).kind),
                                LabelText(old(current.caption)), Closes(old(current).kind))] &&
                old(current).committed == old(current.committed) +
                  CommitItems(old(current.pointsScene), Closes(old(current).kind),
                              LabelText(old(current.caption)), Closes(old(current).kind))
    {
      if current == null {
        return false;
      }
      var status := current.OnMouseDoubleClick(project);
      if status.Some? {
        log := log + [RequestStatus(status.value)];
      }
      DeactivateTool();
      return true;
    }

    /**
     * handleKeyPress: without a current tool nothing is handled; ESC lets the tool complete
     * its measurement and then deactivates it, and is handled; other keys go to the tool,
     * which does not handle them and changes nothing.
     */
    method HandleKeyPress(key: Key, project: Point -> Point) returns (handled: bool)
      modifies this`current, this`log, current
      ensures old(current) == null ==> !handled && current == null && log == old(log)
      ensures old(current) != null && key.Escape? ==>
                handled && current == null && log == old(log) + Deactivation &&
                old(current).pointsScene == [] && !old(current).isEditing &&
                old(current).path == None && old(current).nodes == [] && old(current).caption == None
      ensures old(current) != null && key.Escape? && |old(current.pointsScene)| < MinPoints(old(current).kind) ==>
                old(current).committed == old(current.committed) &&
                old(current).committedGeo == old(current.committedGeo) &&
                old(current).pointsGeo == old(current.pointsGeo)
      ensures old(current) != null && key.Escape? && |old(current.pointsScene)| >= MinPoints(old(current).kind) ==>
                old(current).pointsGeo == [] &&
                old(current).committedGeo == old(current.committedGeo) +
                  [CommittedGeo(Projected(project, old(current.pointsScene)), Closes(old(current).kind),
                                LabelText(old(current.caption)), Closes(old(current).kind))] &&
                old(current).committed == old(current.committed) +
                  CommitItems(old(current.pointsScene), Closes(old(current).kind),
                              LabelText(old(current.caption)), Closes(old(current).kind))
      ensures old(current) != null && !key.Escape? ==>
                !handled && current == old(current) && log == old(log) &&
                current.pointsScene == old(current.pointsScene) && current.pointsGeo == old(current.pointsGeo) &&
                current.path == old(current.path) && current.nodes == old(current.nodes) &&
                current.caption == old(current.caption) && current.isEditing == old(current.isEditing) &&
                current.committed == old(current.committed) && current.committedGeo == old(current.committedGeo)
    {
      if current == null {
        return false;
      }
      if key.Escape? {
        var _ := current.OnKeyPress(key, project);
        DeactivateTool();
        return true;
      }
      handled := current.OnKeyPress(key, project);
    }

    /** clearAllCommitted: every registered tool drops its committed measurements, and only those. */
    method ClearAllCommitted()
      modifies set id | id in tools :: tools[id]
      ensures forall id :: id in tools ==> tools[id].committed == [] && tools[id].committedGeo == []
      ensures forall id :: id in tools ==> tools[id].pointsScene == old(tools[id].pointsScene) &&
                                           tools[id].isEditing == old(tools[id].isEditing)
      ensures forall id :: id in tools ==> tools[id].pointsGeo == old(tools[id].pointsGeo) &&
                                           tools[id].path == old(tools[id].path) &&
                                           tools[id].nodes == old(tools[id].nodes) &&
                                           tools[id].caption == old(tools[id].caption)
    {
      var left := tools.Keys;
      while left != {}
        invariant left <= tools.Keys
        invariant forall id :: id in tools && id !in left ==> tools[id].committed == [] && tools[id].committedGeo == []
        invariant forall id :: id in tools ==> tools[id].pointsScene == old(tools[id].pointsScene) &&
                                               tools[id].isEditing == old(tools[id].isEditing)
        invariant forall id :: id in tools ==> tools[id].pointsGeo == old(tools[id].pointsGeo) &&
                                               tools[id].path == old(tools[id].path) &&
                                               tools[id].nodes == old(tools[id].nodes) &&
                                               tools[id].caption == old(tools[id].caption)
        decreases left
      {
        var id :| id in left;
        tools[id].ClearCommitted();
        left := left - {id};
      }
    }
  }
}
