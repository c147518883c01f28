/** The drawing canvas component: clicks build a chained polyline around a
    pivot point, mouse moves track the pointer for the preview line, and
    committed lines alternate between two stroke colours by index parity. */
module CanvasComponent {
  import opened Types
  import opened Calculations

  // ---------------------------------------------------------------------------
  // The component's own length: the distance printed with five decimals
  // (toFixed(5)) and read back (parseFloat).

  /** Hundred-thousandths of a pixel per pixel. */
  const Scale: nat := 100000

  /** The five-decimal length as a whole number of hundred-thousandths of a
      pixel: sqrt(d) * 100000 rounded to the nearest integer. */
  function FixedLengthUnits(start: Point, end: Point): (u: nat)
    ensures IsNearestSqrt(SquaredDistance(start, end) * (Scale * Scale), u)
  {
    NearestSqrt(SquaredDistance(start, end) * (Scale * Scale))
  }

  /** The length stored with a committed line. */
  function FixedLength(start: Point, end: Point): (r: real)
    ensures r >= 0.0
  {
    FixedLengthUnits(start, end) as real / Scale as real
  }

  /** The stored length of an axis-aligned line is exactly its extent. */
  lemma FixedLengthAxisAligned(a: Point, b: Point)
    requires a.y == b.y
    ensures FixedLength(a, b) == Abs(b.x - a.x) as real
  {
    var k := Abs(b.x - a.x);
    var ks := k * Scale;
    calc {
      SquaredDistance(a, b) * (Scale * Scale);
      (k * k) * (Scale * Scale);
      { assert (k * k) * (Scale * Scale) == ks * ks; }
      ks * ks;
    }
    NearestSqrtOfSquare(ks);
    assert FixedLengthUnits(a, b) == ks;
    assert ks as real == k as real * Scale as real;
  }

  /** This length is not the rounded one of the utilities: the unit diagonal
      is stored as 1.41421 where the utilities report 1. */
  lemma FixedLengthIsNotRounded()
    ensures FixedLength(Point(0, 0), Point(1, 1)) == 1.41421
    ensures CalculateLineLength(Point(0, 0), Point(1, 1)) == 1
  {
    NearestSqrtUnique(2 * (Scale * Scale), FixedLengthUnits(Point(0, 0), Point(1, 1)), 141421);
    NearestSqrtUnique(2, CalculateLineLength(Point(0, 0), Point(1, 1)), 1);
  }

  // ---------------------------------------------------------------------------
  // Colours.

  const Red: string := "#D80300"
  const Green: string := "#39FF14"

  /** Stroke colour of the line at position index: red for even, green for odd. */
  function StrokeStyle(index: nat): (c: string)
    ensures c == Red || c == Green
  {
    if index % 2 == 0 then Red else Green
  }

  /** Neighbouring lines never share a colour, and colours repeat every two. */
  lemma StrokeStyleAlternates(i: nat, j: nat)
    ensures StrokeStyle(i) == StrokeStyle(j) <==> i % 2 == j % 2
    ensures StrokeStyle(i) != StrokeStyle(i + 1)
  {
    assert Red != Green by { assert Red[1] != Green[1]; }
  }

  /** A straight stroke as the canvas draws it. */
  datatype Stroke = Stroke(from: Point, to: Point, style: string)

  /** The strokes drawn for the committed lines, in order, each coloured by its
      index. */
  function Strokes(lines: seq<Line>): (ss: seq<Stroke>)
    ensures |ss| == |lines|
    ensures forall i :: 0 <= i < |ss| ==> ss[i].from == lines[i].start && ss[i].to == lines[i].end
    ensures |ss| > 0 ==> ss[0].style == Red
    ensures forall i :: 0 <= i < |ss| - 1 ==> ss[i].style != ss[i + 1].style
  {
    seq(|lines|, i requires 0 <= i < |lines| => Stroke(lines[i].start, lines[i].end, StrokeStyle(i)))
  }

  /** The preview stroke from the pivot to the pointer: none without a pivot,
      otherwise coloured by the number of committed lines. */
  function TemporaryStroke(lines: seq<Line>, pivot: Option<Point>, mouse: Point): (t: Option<Stroke>)
    ensures t == None <==> pivot == None
    ensures t != None ==> t.value.from == pivot.value && t.value.to == mouse
    ensures t != None && lines != [] ==> t.value.style != StrokeStyle(|lines| - 1)
  {
    match pivot
    case None => None
    case Some(s) => Some(Stroke(s, mouse, StrokeStyle(|lines|)))
  }

  // ---------------------------------------------------------------------------
  // The polyline that a sequence of clicks produces. The length stored with
  // each line is a parameter, measure, so that these facts hold whatever the
  // length function is; the component uses FixedLength.

  /** Each line starts where the previous one ended. */
  ghost predicate Chained(lines: seq<Line>)
  {
    forall i :: 0 <= i < |lines| - 1 ==> lines[i].end == lines[i + 1].start
  }

  /** The pivot after the given clicks: none before the first, then the last. */
  function LastClick(clicks: seq<Point>): (p: Option<Point>)
  {
    if clicks == [] then None else Some(clicks[|clicks| - 1])
  }

  /** The lines committed by the given clicks, starting from an empty canvas:
      one line per pair of consecutive clicks, from the earlier click to the
      later one, storing the measured length of the pair. */
  function Polyline(measure: (Point, Point) -> real, clicks: seq<Point>): (lines: seq<Line>)
    decreases |clicks|
  {
    if |clicks| < 2 then []
    else Polyline(measure, clicks[..|clicks| - 1]) + [Line(clicks[|clicks| - 2], clicks[|clicks| - 1], measure(clicks[|clicks| - 2], clicks[|clicks| - 1]))]
  }

  /** One more click extends the polyline by exactly the segment from the old
      pivot to the click, and by nothing before the first click. */
  lemma {:induction false} PolylineClick(measure: (Point, Point) -> real, clicks: seq<Point>, p: Point)
    ensures Polyline(measure, clicks + [p])
         == match LastClick(clicks)
            case None => Polyline(measure, clicks)
            case Some(s) => Polyline(measure, clicks) + [Line(s, p, measure(s, p))]
  {
    var next := clicks + [p];
    assert next[..|next| - 1] == clicks;
  }

  /** k >= 1 clicks commit k - 1 lines; no click commits none. */
  lemma {:induction false} PolylineLength(measure: (Point, Point) -> real, clicks: seq<Point>)
    ensures |Polyline(measure, clicks)| == if clicks == [] then 0 else |clicks| - 1
    decreases |clicks|
  {
    if |clicks| >= 2 {
      PolylineLength(measure, clicks[..|clicks| - 1]);
    }
  }

  /** Line i runs from click i to click i + 1. */
  lemma {:induction false} PolylineAt(measure: (Point, Point) -> real, clicks: seq<Point>, i: nat)
    requires i + 1 < |clicks|
    ensures i < |Polyline(measure, clicks)|
    ensures Polyline(measure, clicks)[i] == Line(clicks[i], clicks[i + 1], measure(clicks[i], clicks[i + 1]))
    decreases |clicks|
  {
    PolylineLength(measure, clicks);
    var front := clicks[..|clicks| - 1];
    if i + 1 < |front| {
      PolylineAt(measure, front, i);
    } else {
      PolylineLength(measure, front);
    }
  }

  /** The polyline is chained, and when it is not empty the pivot is the end
      of its last line. */
  lemma {:induction false} PolylineChained(measure: (Point, Point) -> real, clicks: seq<Point>)
    ensures Chained(Polyline(measure, clicks))
    ensures Polyline(measure, clicks) != [] ==>
              LastClick(clicks) == Some(Polyline(measure, clicks)[|Polyline(measure, clicks)| - 1].end)
  {
    var lines := Polyline(measure, clicks);
    PolylineLength(measure, clicks);
    forall i | 0 <= i < |lines| - 1
      ensures lines[i].end == lines[i + 1].start
    {
      PolylineAt(measure, clicks, i);
      PolylineAt(measure, clicks, i + 1);
    }
    if lines != [] {
      PolylineAt(measure, clicks, |lines| - 1);
    }
  }

  /** Lines are never removed or altered: later clicks only append. */
  lemma {:induction false} PolylineGrows(measure: (Point, Point) -> real, clicks: seq<Point>, more: seq<Point>)
    ensures |Polyline(measure, clicks)| <= |Polyline(measure, clicks + more)|
    ensures forall i :: 0 <= i < |Polyline(measure, clicks)| ==>
              Polyline(measure, clicks + more)[i] == Polyline(measure, clicks)[i]
    decreases |more|
  {
    if more == [] {
      assert clicks + more == clicks;
    } else {
      var front := more[..|more| - 1];
      var last := more[|more| - 1];
      var mid := clicks + front;
      assert clicks + more == mid + [last];
      PolylineGrows(measure, clicks, front);
      PolylineClick(measure, mid, last);
      var before, after := Polyline(measure, mid), Polyline(measure, mid + [last]);
      assert after[..|before|] == before;
    }
  }

  /** What the preview shows is what the next click commits: the preview from
      the pivot to the pointer, in its colour, is the stroke that clicking
      there adds. */
  lemma {:induction false} PreviewIsNextStroke(measure: (Point, Point) -> real, clicks: seq<Point>, mouse: Point)
    requires clicks != []
    ensures var after := Strokes(Polyline(measure, clicks + [mouse]));
            |after| == |clicks| &&
            TemporaryStroke(Polyline(measure, clicks), LastClick(clicks), mouse) == Some(after[|after| - 1])
  {
    PolylineClick(measure, clicks, mouse);
    PolylineLength(measure, clicks);
  }

  // ---------------------------------------------------------------------------
  // The component's state.

  /** Converts a pointer position in client coordinates to canvas coordinates,
      given the canvas's top-left corner in client coordinates. */
  function ToCanvas(client: Point, origin: Point): (p: Point)
    ensures Point(p.x + origin.x, p.y + origin.y) == client
    ensures p == Point(0, 0) <==> client == origin
  {
    Point(client.x - origin.x, client.y - origin.y)
  }

  class Canvas {
    /** Committed lines, in the order they were drawn. */
    var lines: seq<Line>
    /** The pivot: where the next line starts, once the first click happened. */
    var currentStart: Option<Point>
    /** The last pointer position seen while a pivot exists. */
    var mousePos: Option<Point>
    /** Every click the component has handled, in canvas coordinates. */
    ghost var clicks: seq<Point>

    ghost predicate Valid()
      reads this
    {
      lines == Polyline(FixedLength, clicks) && currentStart == LastClick(clicks)
    }

    constructor ()
      ensures Valid()
      ensures lines == [] && currentStart == None && mousePos == None && clicks == []
    {
      lines := [];
      currentStart := None;
      mousePos := None;
      clicks := [];
    }

    /** handleCanvasClick. bounds is the canvas's top-left corner in client
        coordinates, or None while the canvas element is not mounted. */
    method HandleCanvasClick(client: Point, bounds: Option<Point>)
      requires Valid()
      modifies this
      ensures Valid()
      ensures bounds == None ==>
                lines == old(lines) && currentStart == old(currentStart) && clicks == old(clicks)
      ensures bounds != None ==>
                var p := ToCanvas(client, bounds.value);
                clicks == old(clicks) + [p] && currentStart == Some(p) &&
                lines == match old(currentStart)
                         case None => old(lines)
                         case Some(s) => old(lines) + [Line(s, p, FixedLength(s, p))]
      ensures mousePos == old(mousePos)
      ensures |lines| == if clicks == [] then 0 else |clicks| - 1
      ensures Chained(lines)
      ensures lines != [] ==> currentStart == Some(lines[|lines| - 1].end)
      ensures bounds != None && old(currentStart) != None ==>
                var s := Strokes(lines);
                |s| == |lines| &&
                old(TemporaryStroke(lines, currentStart, ToCanvas(client, bounds.value))) == Some(s[|s| - 1])
    {
      if bounds == None {
        PolylineLength(FixedLength, clicks);
        PolylineChained(FixedLength, clicks);
        return;
      }
      var p := ToCanvas(client, bounds.value);
      ghost var before := clicks;
      PolylineClick(FixedLength, before, p);
      PolylineLength(FixedLength, before + [p]);
      PolylineChained(FixedLength, before + [p]);
      if currentStart != None {
        PreviewIsNextStroke(FixedLength, before, p);
      }
      match currentStart {
        case Some(s) =>
          var length := FixedLength(s, p);
          lines := lines + [Line(s, p, length)];
          currentStart := Some(p);
        case None =>
          currentStart := Some(p);
      }
      clicks := before + [p];
    }

    /** handleMouseMove: without a pivot or a mounted canvas nothing changes;
        otherwise only the pointer position is recorded. */
    method HandleMouseMove(client: Point, bounds: Option<Point>)
      requires Valid()
      modifies this
      ensures Valid()
      ensures lines == old(lines) && currentStart == old(currentStart) && clicks == old(clicks)
      ensures mousePos == if old(currentStart) != None && bounds != None
                          then Some(ToCanvas(client, bounds.value))
                          else old(mousePos)
    {
      if currentStart == None {
        return;
      }
      if bounds == None {
        return;
      }
      mousePos := Some(ToCanvas(client, bounds.value));
    }
  }
}
