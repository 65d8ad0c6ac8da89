/**
  Whole pointer gestures, made of several handler calls: what a drag of
  an endpoint does to the committed segments, and the component's
  behaviour on a few concrete drawings.
 */
module Gestures {
  import opened Options
  import opened Geometry
  import opened Sequences
  import opened Drawing

  /** The points at end `e` of every segment, in order. */
  function Ends(s: seq<Segment>, e: Endpoint): (r: seq<Point>)
    ensures |r| == |s|
    ensures forall k :: 0 <= k < |s| ==> r[k] == s[k].At(e)
  {
    if s == [] then [] else [s[0].At(e)] + Ends(s[1..], e)
  }

  /** Only the last of several moves of one endpoint counts. */
  lemma MoveEndpointLastWins(s: Segment, e: Endpoint, q1: Point, q2: Point)
    ensures MoveEndpoint(MoveEndpoint(s, e, q1), e, q2) == MoveEndpoint(s, e, q2)
  {
  }

  /**
    Grabbing segment `i`, moving its endpoint `e` to `q` and releasing
    keeps the number of segments, keeps the points at the other end, and
    replaces one point at end `e` by `q`.
   */
  lemma GrabMoveRelease(lines: seq<Segment>, i: nat, e: Endpoint, q: Point)
    requires i < |lines|
    ensures var after := RemoveAt(lines, i) + [MoveEndpoint(lines[i], e, q)];
      && |after| == |lines|
      && multiset(after) == multiset(lines) - multiset{lines[i]} + multiset{MoveEndpoint(lines[i], e, q)}
      && multiset(Ends(after, e.Other())) == multiset(Ends(lines, e.Other()))
      && multiset(Ends(after, e)) == multiset(Ends(lines, e)) - multiset{lines[i].At(e)} + multiset{q}
  {
    var moved := MoveEndpoint(lines[i], e, q);
    RemoveAtMultiset(lines, i);
    EndsReplaced(lines, i, moved, e);
    EndsReplaced(lines, i, moved, e.Other());
    var others := Ends(lines, e.Other());
    assert others[i] == moved.At(e.Other());
    PutBack(multiset(others), others[i]);
  }

  lemma PutBack<T>(m: multiset<T>, x: T)
    requires x in m
    ensures m - multiset{x} + multiset{x} == m
  {
  }

  /** Moving segment `i` to the back as `moved` replaces one point at each end. */
  lemma EndsReplaced(lines: seq<Segment>, i: nat, moved: Segment, f: Endpoint)
    requires i < |lines|
    ensures multiset(Ends(RemoveAt(lines, i) + [moved], f))
      == multiset(Ends(lines, f)) - multiset{lines[i].At(f)} + multiset{moved.At(f)}
  {
    var rest := RemoveAt(lines, i);
    var ends := Ends(lines, f);
    EndsOfRemoveAt(lines, i, f);
    EndsOfAppend(rest, moved, f);
    RemoveAtMultiset(ends, i);
  }

  lemma EndsOfRemoveAt(lines: seq<Segment>, i: nat, f: Endpoint)
    requires i < |lines|
    ensures Ends(RemoveAt(lines, i), f) == RemoveAt(Ends(lines, f), i)
  {
  }

  lemma EndsOfAppend(lines: seq<Segment>, m: Segment, f: Endpoint)
    ensures Ends(lines + [m], f) == Ends(lines, f) + [m.At(f)]
  {
  }

  /**
    The drag gesture on the component: a mouse-down on an endpoint with
    the road tool, one move and a release.
   */
  method DragEndpoint(app: App, p: Point, q: Point)
    requires app.Valid() && app.tool == Road
    requires FindFirst(app.lines, NearEndpointAt(p)).Some?
    modifies app
    ensures app.Valid()
    ensures
      var i := FindFirst(old(app.lines), NearEndpointAt(p)).value;
      var e := GrabbedEnd(old(app.lines)[i], p);
      && app.lines == RemoveAt(old(app.lines), i) + [MoveEndpoint(old(app.lines)[i], e, q)]
      && |app.lines| == |old(app.lines)|
      && multiset(Ends(app.lines, e.Other())) == multiset(Ends(old(app.lines), e.Other()))
      && multiset(Ends(app.lines, e)) == multiset(Ends(old(app.lines), e)) - multiset{old(app.lines)[i].At(e)} + multiset{q}
      && app.current == None && app.sel == None
  {
    ghost var before := app.lines;
    app.MouseDown(0, p.x, p.y);
    app.MouseMove(q.x, q.y);
    app.MouseUp();
    var i := FindFirst(before, NearEndpointAt(p)).value;
    GrabMoveRelease(before, i, GrabbedEnd(before[i], p), q);
  }

  /** Press at (10,10), move to (100,10), release: one committed segment. */
  method DrawRoundTrip() returns (lines: seq<Segment>, current: Option<Segment>)
    ensures lines == [Segment(Point(10, 10), Point(100, 10))]
    ensures current == None
  {
    var app := new App();
    app.MouseDown(0, 10, 10);
    app.MouseMove(100, 10);
    app.MouseUp();
    lines, current := app.lines, app.current;
  }

  /** Draws one segment from `a` to `b` with the road tool on an app whose endpoints are all far from `a`. */
  method Draw(app: App, a: Point, b: Point)
    requires app.Valid() && app.tool == Road && app.current == None
    requires forall k :: 0 <= k < |app.lines| ==> !NearEndpoint(a, app.lines[k])
    modifies app
    ensures app.Valid() && app.tool == Road && app.current == None && app.combo == old(app.combo)
    ensures app.lines == old(app.lines) + [Segment(a, b)]
  {
    app.MouseDown(0, a.x, a.y);
    app.MouseMove(b.x, b.y);
    app.MouseUp();
  }

  /** The eraser on (50,0) removes the first of two parallel roads only. */
  method EraseFirstMatch() returns (lines: seq<Segment>)
    ensures lines == [Segment(Point(0, 50), Point(100, 50))]
  {
    var app := new App();
    Draw(app, Point(0, 0), Point(100, 0));
    Draw(app, Point(0, 50), Point(100, 50));
    app.SelectTool(Eraser);
    assert OnLine(Point(50, 0), app.lines[0]);
    app.MouseDown(0, 50, 0);
    lines := app.lines;
  }

  /** Dragging the end of (0,0)-(100,0) from near (100,0) to (100,50). */
  method EndpointDrag() returns (lines: seq<Segment>)
    ensures lines == [Segment(Point(0, 0), Point(100, 50))]
  {
    var app := new App();
    Draw(app, Point(0, 0), Point(100, 0));
    assert NearEndpoint(Point(102, 3), app.lines[0]);
    app.MouseDown(0, 102, 3);
    app.MouseMove(100, 50);
    app.MouseUp();
    lines := app.lines;
  }

  /** A context-click on a road opens the lane menu with the road tool only. */
  method ComboOnlyInRoadMode() returns (withEraser: ComboBox, withRoad: ComboBox)
    ensures !withEraser.show
    ensures withRoad == ComboBox(true, 300, 200)
  {
    var app := new App();
    Draw(app, Point(0, 0), Point(100, 0));
    app.SelectTool(Eraser);
    app.ContextMenu(50, 0, 300, 200);
    withEraser := app.combo;
    app.SelectTool(Road);
    assert OnLine(Point(50, 0), app.lines[0]);
    app.ContextMenu(50, 0, 300, 200);
    withRoad := app.combo;
  }
}
