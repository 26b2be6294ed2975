/**
 * The rotary knob that sets the tone frequency and the volume (`MPVolume`).
 * Only its integer value logic is modelled: a committed position, the
 * offset of a drag in progress, and the range both are kept in. A
 * `valueChanged` signal is modelled as the value a handler returns.
 */
module Knob {
  import opened Wrappers
  import opened FixedWidth

  /** The vertical drag, in pixels, that sweeps the whole range. */
  const DRAG_SPAN: int := 128

  /** The clamp of `setValue` and of the mouse-move handler: above the
      maximum gives the maximum, else below the minimum gives the minimum. */
  function Clamp(v: int, lo: int, hi: int): (r: int)
    ensures lo <= hi ==> lo <= r <= hi
    ensures lo <= v <= hi ==> r == v
    ensures v > hi ==> r == hi
    ensures v <= hi && v < lo ==> r == lo
  {
    if v > hi then hi else if v < lo then lo else v
  }

  /** The value shown while dragging from height y0 to height y: the
      committed position moved by the drag's share of the range, the
      share truncated toward zero as C's `/` does, then clamped. */
  function DragTarget(pos: int, lo: int, hi: int, y0: int, y: int): int
  {
    Clamp(pos + CDiv((y0 - y) * (hi - lo + 1), DRAG_SPAN), lo, hi)
  }

  /** Dragging upward (towards smaller y) never lowers the value, and
      dragging downward never raises it. */
  lemma DragDirection(pos: int, lo: int, hi: int, y0: int, y: int)
    requires lo <= pos <= hi
    ensures y <= y0 ==> pos <= DragTarget(pos, lo, hi, y0, y)
    ensures y0 <= y ==> DragTarget(pos, lo, hi, y0, y) <= pos
  {
    var n, d := hi - lo + 1, y0 - y;
    CDivBounds(d * n, DRAG_SPAN);
    if y <= y0 {
      MulAtLeast(d, n, 0);
    } else {
      MulAtLeast(-d, n, 0);
      assert d * n == -((-d) * n);
    }
  }

  /** A drag of DRAG_SPAN pixels or more reaches the end of the range from
      any position: upward to the maximum, downward to the minimum. */
  lemma DragFullSpan(pos: int, lo: int, hi: int, y0: int, y: int)
    requires lo <= pos <= hi
    ensures y0 - y >= DRAG_SPAN ==> DragTarget(pos, lo, hi, y0, y) == hi
    ensures y - y0 >= DRAG_SPAN ==> DragTarget(pos, lo, hi, y0, y) == lo
  {
    var n, d := hi - lo + 1, y0 - y;
    var q := CDiv(d * n, DRAG_SPAN);
    CDivBounds(d * n, DRAG_SPAN);
    if d >= DRAG_SPAN {
      MulAtLeast(d, n, DRAG_SPAN);
      assert q * DRAG_SPAN > (n - 1) * DRAG_SPAN;
    } else if -d >= DRAG_SPAN {
      MulAtLeast(-d, n, DRAG_SPAN);
      assert -q * DRAG_SPAN > (n - 1) * DRAG_SPAN;
    }
  }

  lemma MulAtLeast(a: int, b: int, c: int)
    requires a >= c && b >= 0
    ensures a * b >= c * b
  {
    assert a * b - c * b == (a - c) * b;
  }

  class Volume {
    var currPos: int
    var currDelta: int
    var min: int
    var mid: int
    var max: int
    var focus: bool
    var moving: bool
    var yPos: int

    /** The committed position and the displayed value both lie in the
        inclusive range [min, max]. */
    predicate Valid()
      reads this
    {
      min <= currPos <= max && min <= currPos + currDelta <= max
    }

    /** `value()`: the committed position plus the drag in progress. */
    function Value(): (v: int)
      reads this
      ensures Valid() ==> min <= v <= max
    {
      currPos + currDelta
    }

    /** All fields start at zero except the middle mark, which is 1. */
    constructor()
      ensures Valid() && Value() == 0
      ensures currPos == 0 && currDelta == 0 && min == 0 && max == 0 && mid == 1
      ensures !focus && !moving && yPos == 0
    {
      currPos, currDelta, min, mid, max := 0, 0, 0, 1, 0;
      focus, moving, yPos := false, false, 0;
    }

    /** `setRange`: the position moves to the bottom of the new range; the
        drag offset is left as it was, so the result is valid exactly when
        the range is non-empty and that offset still fits in it. */
    method SetRange(from: int, to: int, middle: int)
      modifies this`currPos, this`min, this`max, this`mid
      ensures currPos == from && min == from && max == to && mid == middle
      ensures Valid() <==> from <= to && 0 <= currDelta <= to - from
    {
      currPos := from;
      min := from;
      max := to;
      mid := middle;
    }

    /** `setValue`: the position becomes the value clamped to the range,
        any drag offset is dropped, and the new position is signalled. */
    method SetValue(value: int) returns (emitted: int)
      modifies this`currPos, this`currDelta
      ensures currPos == Clamp(value, min, max) && currDelta == 0
      ensures emitted == currPos == Value()
      ensures min <= max ==> Valid()
    {
      if value > max {
        currPos := max;
      } else if value < min {
        currPos := min;
      } else {
        currPos := value;
      }
      currDelta := 0;
      emitted := currPos;
    }

    /** A left-button press starts a drag at height y. */
    method MousePress(left: bool, y: int)
      requires Valid()
      modifies this`moving, this`currDelta, this`yPos
      ensures Valid()
      ensures left ==> Value() == old(currPos) && moving && currDelta == 0 && yPos == y
      ensures !left ==> unchanged(this)
    {
      if left {
        moving := true;
        currDelta := 0;
        yPos := y;
      }
    }

    /** A left-button release ends the drag: its offset is folded into the
        position and the position is signalled. The displayed value does
        not change. */
    method MouseRelease(left: bool) returns (emitted: Option<int>)
      requires Valid()
      modifies this`moving, this`yPos, this`currPos, this`currDelta
      ensures Valid() && Value() == old(Value())
      ensures left ==> !moving && yPos == 0 && currPos == old(Value()) && currDelta == 0
      ensures left ==> emitted == Some(old(Value()))
      ensures !left ==> unchanged(this) && emitted == None
    {
      emitted := None;
      if left {
        moving := false;
        yPos := 0;
        currPos := currPos + currDelta;
        currDelta := 0;
        emitted := Some(currPos);
      }
    }

    /** While dragging, the mouse at height y sets the offset so that the
        value is DragTarget of the position; the value is signalled. */
    method MouseMove(y: int) returns (emitted: Option<int>)
      requires Valid()
      modifies this`currDelta
      ensures Valid() && currPos == old(currPos)
      ensures old(moving) ==> Value() == DragTarget(currPos, min, max, yPos, y)
      ensures old(moving) ==> emitted == Some(Value())
      ensures !old(moving) ==> currDelta == old(currDelta) && emitted == None
    {
      emitted := None;
      if moving {
        currDelta := CDiv((yPos - y) * (max - min + 1), DRAG_SPAN);
        if currDelta + currPos > max {
          currDelta := max - currPos;
        } else if currDelta + currPos < min {
          currDelta := min - currPos;
        }
        emitted := Some(currPos + currDelta);
      }
    }

    /** The mouse entering the knob highlights it. */
    method Enter()
      modifies this`focus
      ensures focus
    {
      focus := true;
    }

    /** The mouse leaving the knob removes the highlight. */
    method Leave()
      modifies this`focus
      ensures !focus
    {
      focus := false;
    }
  }
}
