/**
  The drawing-surface component: its state and its event handlers.

  Each handler is one atomic update of the component state. A segment
  object's identity (which the component's `filter(line => line !== found)`
  relies on) is kept as a ghost natural number per committed segment.
 */
module Drawing {
  import opened Options
  import opened Geometry
  import opened Sequences

  /** The two tools of the button bar. */
  datatype Tool = Road | Eraser

  /** The lane menu overlay: whether it is shown, and where. */
  datatype ComboBox = ComboBox(show: bool, x: int, y: int)

  /** The closed menu, as every handler that hides it writes it. */
  const Hidden: ComboBox := ComboBox(false, 0, 0)

  /** The `MouseEvent.button` value of the secondary (right) button. */
  const SecondaryButton: int := 2

  class App {
    /** The committed segments, in drawing order. */
    var lines: seq<Segment>
    /** The segment being drawn or dragged, if any. */
    var current: Option<Segment>
    /** The endpoint of `current` that follows the pointer; None means `end`. */
    var sel: Option<Endpoint>
    var tool: Tool
    var combo: ComboBox
    var lane: Option<string>

    /** The object identity of each committed segment, position by position. */
    ghost var ids: seq<nat>
    /** The object identity of `current`. */
    ghost var currentId: nat
    /** An identity no segment object has yet. */
    ghost var nextId: nat

    /**
      Every segment object occurs at most once: committed identities are
      distinct, and the in-progress segment is not among them. An endpoint
      is selected only while a segment is in progress.
     */
    ghost predicate Valid()
      reads this
    {
      && |ids| == |lines|
      && Distinct(ids)
      && (forall k :: 0 <= k < |ids| ==> ids[k] < nextId)
      && currentId < nextId
      && (current.Some? ==> forall k :: 0 <= k < |ids| ==> ids[k] != currentId)
      && (current.None? ==> sel.None?)
    }

    /** The initial state: no segments, road tool, menu closed, no lane. */
    constructor ()
      ensures Valid()
      ensures lines == [] && current == None && sel == None
      ensures tool == Road && combo == Hidden && lane == None
    {
      lines, current, sel := [], None, None;
      tool, combo, lane := Road, Hidden, None;
      ids, currentId, nextId := [], 0, 1;
    }

    /**
      `handleMouseDown`: the secondary button is ignored; otherwise the
      current tool decides (Erase, Press).
     */
    method MouseDown(button: int, x: int, y: int)
      requires Valid()
      modifies this`lines, this`current, this`sel, this`ids, this`currentId, this`nextId
      ensures Valid()
      ensures button == SecondaryButton ==> unchanged(this)
      ensures button != SecondaryButton && old(tool) == Eraser ==>
        var hit := FindFirst(old(lines), OnLineAt(Point(x, y)));
        && current == old(current) && sel == old(sel)
        && (hit.None? ==> lines == old(lines))
        && (hit.Some? ==> lines == RemoveAt(old(lines), hit.value))
      ensures button != SecondaryButton && old(tool) == Road ==>
        var p := Point(x, y);
        var grab := FindFirst(old(lines), NearEndpointAt(p));
        && (grab.Some? ==> current == Some(old(lines)[grab.value]))
        && (grab.Some? ==> sel == Some(GrabbedEnd(old(lines)[grab.value], p)))
        && (grab.Some? ==> lines == RemoveAt(old(lines), grab.value))
        && (grab.None? ==> current == Some(Segment(p, p)) && sel == old(sel) && lines == old(lines))
    {
      if button == SecondaryButton {
        return;
      }
      var p := Point(x, y);
      if tool == Eraser {
        Erase(p);
      } else {
        Press(p);
      }
    }

    /**
      The eraser branch of `handleMouseDown`: the first segment the point
      is on is filtered out of `lines` by identity, which removes exactly
      that one segment; the segment in progress is left alone.
     */
    method Erase(p: Point)
      requires Valid()
      modifies this`lines, this`ids
      ensures Valid()
      ensures
        var hit := FindFirst(old(lines), OnLineAt(p));
        && (hit.None? ==> lines == old(lines))
        && (hit.Some? ==> lines == Without(old(lines), old(ids), old(ids)[hit.value]))
        && (hit.Some? ==> lines == RemoveAt(old(lines), hit.value))
    {
      var hit := FindFirst(lines, OnLineAt(p));
      if hit.Some? {
        var i := hit.value;
        WithoutUnique(lines, ids, i);
        RemoveAtDistinct(ids, i, nextId);
        lines, ids := RemoveAt(lines, i), RemoveAt(ids, i);
      }
    }

    /**
      The road branch of `handleMouseDown`: the first segment with an
      endpoint near the point is filtered out of `lines` by identity and
      becomes the segment in progress, its near endpoint selected (start
      wins a tie); with no such segment a new one of length zero starts
      at the point and the selection is left as it was.
     */
    method Press(p: Point)
      requires Valid()
      modifies this`lines, this`current, this`sel, this`ids, this`currentId, this`nextId
      ensures Valid()
      ensures
        var grab := FindFirst(old(lines), NearEndpointAt(p));
        && (grab.Some? ==> current == Some(old(lines)[grab.value]))
        && (grab.Some? ==> sel == Some(GrabbedEnd(old(lines)[grab.value], p)))
        && (grab.Some? ==> lines == Without(old(lines), old(ids), old(ids)[grab.value]))
        && (grab.Some? ==> lines == RemoveAt(old(lines), grab.value))
        && (grab.None? ==> current == Some(Segment(p, p)) && sel == old(sel) && lines == old(lines))
    {
      var grab := FindFirst(lines, NearEndpointAt(p));
      if grab.Some? {
        Grab(grab.value, p);
      } else {
        current := Some(Segment(p, p));
        currentId, nextId := nextId, nextId + 1;
      }
    }

    /**
      Taking segment `i` out of `lines` as the segment in progress, with
      its endpoint near `p` selected.
     */
    method Grab(i: nat, p: Point)
      requires Valid()
      requires i < |lines| && NearEndpoint(p, lines[i])
      modifies this`lines, this`current, this`sel, this`ids, this`currentId
      ensures Valid()
      ensures current == Some(old(lines)[i])
      ensures sel == Some(GrabbedEnd(old(lines)[i], p))
      ensures lines == Without(old(lines), old(ids), old(ids)[i])
      ensures lines == RemoveAt(old(lines), i)
    {
      sel := Some(if Near(lines[i].start, p) then Start else End);
      current := Some(lines[i]);
      currentId := ids[i];
      WithoutUnique(lines, ids, i);
      RemoveAtDistinct(ids, i, nextId);
      lines, ids := RemoveAt(lines, i), RemoveAt(ids, i);
    }

    /**
      `handleMouseMove`: with a segment in progress, its selected
      endpoint (`end` when none is selected) moves to the pointer.
     */
    method MouseMove(x: int, y: int)
      requires Valid()
      modifies this`current, this`currentId, this`nextId
      ensures Valid()
      ensures old(current).None? ==> unchanged(this)
      ensures old(current).Some? ==>
        var e := if sel.Some? then sel.value else End;
        current == Some(MoveEndpoint(old(current).value, e, Point(x, y)))
      ensures lines == old(lines) && sel == old(sel)
    {
      if current.None? {
        return;
      }
      var p := Point(x, y);
      if sel.Some? {
        current := Some(MoveEndpoint(current.value, sel.value, p));
      } else {
        current := Some(current.value.(end := p));
      }
      // the object spread builds a new segment object
      currentId, nextId := nextId, nextId + 1;
    }

    /**
      `handleMouseUp`: the segment in progress is committed at the end of
      `lines`, and nothing is in progress any more.
     */
    method MouseUp()
      requires Valid()
      modifies this`lines, this`current, this`sel, this`ids
      ensures Valid()
      ensures old(current).None? ==> unchanged(this)
      ensures old(current).Some? ==>
        && lines == old(lines) + [old(current).value]
        && current == None && sel == None
    {
      if current.None? {
        return;
      }
      lines := lines + [current.value];
      ids := ids + [currentId];
      current := None;
      sel := None;
    }

    /**
      `handleContextMenu`: with the road tool, the lane menu opens at the
      client position when the click is on some committed segment, and
      closes otherwise; with the eraser nothing changes.
     */
    method ContextMenu(x: int, y: int, clientX: int, clientY: int)
      requires Valid()
      modifies this`combo
      ensures Valid()
      ensures tool == Eraser ==> combo == old(combo)
      ensures tool == Road ==>
        combo == if exists k :: 0 <= k < |lines| && OnLine(Point(x, y), lines[k])
                 then ComboBox(true, clientX, clientY)
                 else Hidden
    {
      if tool == Road {
        var clicked := FindFirst(lines, OnLineAt(Point(x, y)));
        if clicked.Some? {
          combo := ComboBox(true, clientX, clientY);
        } else {
          combo := Hidden;
        }
      }
    }

    /** `handleLaneSelect`: the chosen label becomes the lane, and the menu closes. */
    method LaneSelect(option: string)
      requires Valid()
      modifies this`lane, this`combo
      ensures Valid()
      ensures lane == Some(option) && combo == Hidden
    {
      lane := Some(option);
      combo := Hidden;
    }

    /** The Road and Eraser buttons. */
    method SelectTool(t: Tool)
      requires Valid()
      modifies this`tool
      ensures Valid()
      ensures tool == t
    {
      tool := t;
    }

    /** The Clear button: every committed segment goes; one in progress stays. */
    method Clear()
      requires Valid()
      modifies this`lines, this`ids
      ensures Valid()
      ensures lines == [] && current == old(current)
    {
      lines := [];
      ids := [];
    }
  }
}
