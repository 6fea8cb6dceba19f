/**
 * The freehand drawing layer of the floor-plan editor (FloorPlanLayer.tsx).
 *
 * Three pieces of state drive drawing: `isDrawingPath`, the path being
 * drawn (`currentPath`, an SVG path string `M x y( L x y)*` or "") and the
 * committed `paths`.  The props `isDrawing` and `isLocked` are passed to
 * each handler; `onSvgChange` becomes the markup a handler returns.  World
 * points come from the host canvas's screen-to-flow mapping; a handler
 * receives None when that mapping yields null (the SVG element is not
 * mounted).
 */
module FloorPlanLayer {

  import opened Common
  import opened Numerals
  import SvgCodec

  /** A world point, with integral coordinates. */
  datatype Point = Point(x: int, y: int)

  /** `M ${x} ${y}` */
  function MoveTo(p: Point): string {
    "M " + IntText(p.x) + " " + IntText(p.y)
  }

  /** ` L ${x} ${y}` */
  function LineTo(p: Point): string {
    " L " + IntText(p.x) + " " + IntText(p.y)
  }

  /** The path string through `pts`: "" for no points, else a move-to followed by line-tos. */
  function PathText(pts: seq<Point>): string
  {
    if |pts| == 0 then ""
    else if |pts| == 1 then MoveTo(pts[0])
    else PathText(pts[..|pts| - 1]) + LineTo(pts[|pts| - 1])
  }

  lemma IntTextQuoteFree(n: int)
    ensures QuoteFree(IntText(n)) && ' ' !in IntText(n)
  {
    var s := IntText(n);
    forall i | 0 <= i < |s| ensures s[i] != '"' && s[i] != ' ' {
      assert s[i] == '-' || IsDigit(s[i]);
    }
  }

  lemma QuoteFreeConcat(a: string, b: string)
    requires QuoteFree(a) && QuoteFree(b)
    ensures QuoteFree(a + b)
  {
    forall i | 0 <= i < |a + b| ensures (a + b)[i] != '"' {
      if i < |a| { assert (a + b)[i] == a[i]; } else { assert (a + b)[i] == b[i - |a|]; }
    }
  }

  /** Every drawn path starts with `M`, and no drawn path holds a double quote. */
  lemma {:induction false} PathTextShape(pts: seq<Point>)
    ensures (PathText(pts) == "") <==> (pts == [])
    ensures pts != [] ==> PathText(pts)[0] == 'M'
    ensures QuoteFree(PathText(pts))
  {
    if |pts| == 1 {
      IntTextQuoteFree(pts[0].x);
      IntTextQuoteFree(pts[0].y);
      QuoteFreeConcat("M " + IntText(pts[0].x), " ");
      QuoteFreeConcat("M ", IntText(pts[0].x));
      QuoteFreeConcat("M " + IntText(pts[0].x) + " ", IntText(pts[0].y));
    } else if |pts| > 1 {
      var p := pts[|pts| - 1];
      PathTextShape(pts[..|pts| - 1]);
      IntTextQuoteFree(p.x);
      IntTextQuoteFree(p.y);
      QuoteFreeConcat(" L ", IntText(p.x));
      QuoteFreeConcat(" L " + IntText(p.x), " ");
      QuoteFreeConcat(" L " + IntText(p.x) + " ", IntText(p.y));
      QuoteFreeConcat(PathText(pts[..|pts| - 1]), LineTo(p));
    }
  }

  lemma IntTextPlain(n: int)
    ensures SvgCodec.Plain(IntText(n))
  {
    var s := IntText(n);
    forall i | 0 <= i < |s| ensures s[i] !in "\"&<\t\r\n" {
      assert s[i] == '-' || IsDigit(s[i]);
    }
  }

  /**
   * Drawn path text is plain attribute text, so the browser's parser reads
   * it back exactly as written and the markup the layer saves is well formed.
   */
  lemma {:induction false} PathTextPlain(pts: seq<Point>)
    ensures SvgCodec.Plain(PathText(pts))
  {
    if |pts| == 1 {
      IntTextPlain(pts[0].x);
      IntTextPlain(pts[0].y);
      SvgCodec.PlainConcat("M ", IntText(pts[0].x));
      SvgCodec.PlainConcat("M " + IntText(pts[0].x), " ");
      SvgCodec.PlainConcat("M " + IntText(pts[0].x) + " ", IntText(pts[0].y));
    } else if |pts| > 1 {
      var p := pts[|pts| - 1];
      PathTextPlain(pts[..|pts| - 1]);
      IntTextPlain(p.x);
      IntTextPlain(p.y);
      SvgCodec.PlainConcat(" L ", IntText(p.x));
      SvgCodec.PlainConcat(" L " + IntText(p.x), " ");
      SvgCodec.PlainConcat(" L " + IntText(p.x) + " ", IntText(p.y));
      SvgCodec.PlainConcat(PathText(pts[..|pts| - 1]), LineTo(p));
    }
  }

  lemma PathTextExtend(pts: seq<Point>, p: Point)
    ensures PathText(pts + [p]) == if pts == [] then MoveTo(p) else PathText(pts) + LineTo(p)
  {
    assert (pts + [p])[..|pts|] == pts;
  }

  class Layer {
    var isDrawingPath: bool
    var currentPath: string
    var paths: seq<string>
    /** The points of `currentPath`, in drawing order. */
    ghost var points: seq<Point>

    /**
     * `currentPath` is "" or a well-formed `M x y( L x y)*`, it is non-empty
     * while a path is being drawn, and every committed path can be stored.
     */
    ghost predicate Valid()
      reads this
    {
      && currentPath == PathText(points)
      && (isDrawingPath ==> points != [])
      && SvgCodec.Storable(paths)
    }

    constructor ()
      ensures Valid()
      ensures !isDrawingPath && currentPath == "" && paths == []
    {
      isDrawingPath := false;
      currentPath := "";
      paths := [];
      points := [];
    }

    /** The `svgData` effect (lines 34-51): replaces the committed paths with the decoded markup. */
    method LoadMarkup(svgData: string)
      requires Valid()
      modifies this
      ensures Valid()
      ensures paths == SvgCodec.Decode(svgData)
      ensures isDrawingPath == old(isDrawingPath) && currentPath == old(currentPath) && points == old(points)
    {
      paths := SvgCodec.Decode(svgData);
    }

    /** `handleMouseDown` (lines 65-76). */
    method MouseDown(isDrawing: bool, isLocked: bool, button: int, point: Option<Point>)
      requires Valid()
      modifies this
      ensures Valid()
      ensures paths == old(paths)
      ensures if isDrawing && !isLocked && button == 0 && point.Some? then
                isDrawingPath && currentPath == MoveTo(point.value) && points == [point.value]
              else
                isDrawingPath == old(isDrawingPath) && currentPath == old(currentPath) && points == old(points)
    {
      if !isDrawing || isLocked || button != 0 {
        return;
      }
      if point.Some? {
        isDrawingPath := true;
        currentPath := MoveTo(point.value);
        points := [point.value];
      }
    }

    /** `handleMouseMove` on the layer itself (lines 78-87). */
    method MouseMove(isLocked: bool, point: Option<Point>)
      requires Valid()
      modifies this
      ensures Valid()
      ensures paths == old(paths) && isDrawingPath == old(isDrawingPath)
      ensures if old(isDrawingPath) && !isLocked && point.Some? then
                currentPath == old(currentPath) + LineTo(point.value) && points == old(points) + [point.value]
              else
                currentPath == old(currentPath) && points == old(points)
    {
      if !isDrawingPath || isLocked {
        return;
      }
      if point.Some? {
        PathTextShape(points);
        Append(point.value);
      }
    }

    /**
     * The window-level `mousemove` listener (lines 108-117), installed only
     * while a path is being drawn.  It does not look at the lock, and it
     * starts a fresh path when `currentPath` is empty.
     */
    method GlobalMouseMove(point: Option<Point>)
      requires Valid()
      modifies this
      ensures Valid()
      ensures paths == old(paths) && isDrawingPath == old(isDrawingPath)
      ensures if old(isDrawingPath) && point.Some? then
                points == old(points) + [point.value] &&
                currentPath == (if old(currentPath) == "" then MoveTo(point.value)
                                else old(currentPath) + LineTo(point.value))
              else
                currentPath == old(currentPath) && points == old(points)
    {
      if !isDrawingPath {
        return;
      }
      if point.Some? {
        var p := point.value;
        PathTextShape(points);
        PathTextExtend(points, p);
        currentPath := if currentPath == "" then MoveTo(p) else currentPath + LineTo(p);
        points := points + [p];
      }
    }

    /**
     * One `mousemove` over the canvas (line 159).  While a path is being
     * drawn the window listener of lines 108-117 is installed too, so the
     * same event runs `handleMouseMove` and then `handleGlobalMouseMove`.
     * Both update `currentPath` through `prev => ...`, so both segments are
     * kept: an unlocked move appends the point twice.
     */
    method CanvasMouseMove(isLocked: bool, point: Option<Point>)
      requires Valid()
      modifies this
      ensures Valid()
      ensures paths == old(paths) && isDrawingPath == old(isDrawingPath)
      ensures old(isDrawingPath) && point.Some? && !isLocked ==>
                currentPath == old(currentPath) + LineTo(point.value) + LineTo(point.value) &&
                points == old(points) + [point.value, point.value]
      ensures old(isDrawingPath) && point.Some? && isLocked ==>
                currentPath == old(currentPath) + LineTo(point.value) && points == old(points) + [point.value]
      ensures !old(isDrawingPath) || point.None? ==> currentPath == old(currentPath) && points == old(points)
    {
      MouseMove(isLocked, point);
      PathTextShape(points);
      GlobalMouseMove(point);
      if point.Some? {
        assert old(points) + [point.value] + [point.value] == old(points) + [point.value, point.value];
      }
    }

    method Append(p: Point)
      requires Valid() && currentPath != ""
      modifies this`currentPath, this`points
      ensures Valid()
      ensures currentPath == old(currentPath) + LineTo(p) && points == old(points) + [p]
    {
      PathTextShape(points);
      PathTextExtend(points, p);
      currentPath := currentPath + LineTo(p);
      points := points + [p];
    }

    /**
     * `handleMouseUp` (lines 89-103), also run by the window-level `mouseup`
     * listener.  A non-empty path is committed after the earlier ones and the
     * new markup is returned (the one `onSvgChange` call); an empty path only
     * ends drawing.  While locked or not drawing nothing happens.
     */
    method MouseUp(isLocked: bool) returns (saved: Option<string>)
      requires Valid()
      modifies this
      ensures Valid()
      ensures !old(isDrawingPath) || isLocked ==>
                saved == None && isDrawingPath == old(isDrawingPath) &&
                paths == old(paths) && currentPath == old(currentPath) && points == old(points)
      ensures old(isDrawingPath) && !isLocked ==> !isDrawingPath
      ensures old(isDrawingPath) && !isLocked && old(currentPath) != "" ==>
                paths == old(paths) + [old(currentPath)] && currentPath == "" && points == [] &&
                saved == Some(SvgCodec.Encode(paths))
      ensures old(isDrawingPath) && !isLocked && old(currentPath) == "" ==>
                saved == None && paths == old(paths) && currentPath == ""
    {
      saved := None;
      if !isDrawingPath || isLocked {
        return;
      }
      if currentPath != "" {
        PathTextShape(points);
        var newPaths := paths + [currentPath];
        paths := newPaths;
        currentPath := "";
        points := [];
        saved := Some(SvgCodec.Encode(newPaths));
      }
      isDrawingPath := false;
    }
  }

  /**
   * A whole stroke: press at `a`, move the pointer to `b` over the canvas,
   * release, then feed the saved markup back as `svgData`, as the editor
   * does.  The reload leaves the committed path in place, and because both
   * move handlers see the one move, that path is `M a L b L b`.
   */
  method DrawAndReload(a: Point, b: Point) returns (committed: seq<string>)
    ensures committed == [PathText([a, b, b])]
    ensures committed[0] == MoveTo(a) + LineTo(b) + LineTo(b)
  {
    var layer := new Layer();
    layer.MouseDown(true, false, 0, Some(a));
    layer.CanvasMouseMove(false, Some(b));
    var saved := layer.MouseUp(false);
    assert [a] + [b, b] == [a, b, b];
    SvgCodec.DecodeEncode(layer.paths);
    layer.LoadMarkup(saved.value);
    committed := layer.paths;
    assert [a, b, b][..2] == [a, b] && [a, b][..1] == [a];
  }
}
