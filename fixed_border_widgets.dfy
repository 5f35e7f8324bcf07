/** The frameless widget of ui/customWidgets.py: a fixed 5-pixel hit border, content margins
    set from a thickness, and the same hand-made edge drag as the string-colour variant. */
module FixedBorderWidgets {
  import opened Wrappers
  import opened Chrome

  /** The hit-test border width; nothing in the widget changes it. */
  const BORDER_THICKNESS: int := 5

  /** The state after `setBorderThickness(thickness)`: only the content margins change, to
      the thickness but at least 5 on every side. */
  function MarginsFor(thickness: int): (m: Margins)
    ensures m.left == m.top == m.right == m.bottom
    ensures m.left >= BORDER_THICKNESS && m.left >= thickness
    ensures m.left == thickness || m.left == BORDER_THICKNESS
  {
    Uniform(Max(5, thickness))
  }

  /** For the fixed border the hit-test reports an edge exactly within five pixels of it. */
  lemma FixedHitTest(x: int, y: int, w: int, h: int)
    ensures var b := HoveredBorder(x, y, w, h, BORDER_THICKNESS);
      && (Left in b <==> x <= 5)
      && (Right in b <==> 5 < x && w - 5 <= x)
      && (Top in b <==> y <= 5)
      && (Bottom in b <==> 5 < y && h - 5 <= y)
      && (b == UNSET <==> 5 < x < w - 5 && 5 < y < h - 5)
  {
    HitTest(x, y, w, h, BORDER_THICKNESS);
  }

  /** `ResizableFramelessWidget` of ui/customWidgets.py. */
  class ResizableFramelessWidget {
    const borderThickness: int
    var contentsMargins: Margins
    var geometry: Rect
    var cursor: Option<CursorShape>
    var resizeActive: bool
    var offendingBorder: Flag

    function State(): Gesture
      reads this
    {
      Gesture(resizeActive, offendingBorder, cursor, geometry)
    }

    predicate Valid()
      reads this
    {
      borderThickness == BORDER_THICKNESS && Consistent(State())
    }

    constructor (contentsMargins: Margins, geometry: Rect)
      ensures Valid()
      ensures State() == Gesture(false, UNSET, None, geometry) && this.contentsMargins == contentsMargins
    {
      borderThickness := BORDER_THICKNESS;
      this.contentsMargins := contentsMargins;
      this.geometry := geometry;
      cursor := None;
      resizeActive := false;
      offendingBorder := UNSET;
    }

    method SetBorderThickness(thickness: int)
      modifies this
      ensures contentsMargins == MarginsFor(thickness)
      ensures State() == old(State())
    {
      var val := Max(5, thickness);
      contentsMargins := Uniform(val);
    }

    /** `event`: the manual resize step for the fixed border; it returns True exactly for a
        mouse move and keeps the widget valid. */
    method Event(ev: Event) returns (handled: bool)
      requires Valid()
      modifies this
      ensures (State(), handled) == ManualStep(old(State()), ev, BORDER_THICKNESS)
      ensures Valid() && contentsMargins == old(contentsMargins)
    {
      ManualStepConsistent(State(), ev, borderThickness);
      if ev.Mouse? {
        var p := ev.pos;
        if ev.action == Press {
          var border := HoveredBorder(p.x, p.y, geometry.w, geometry.h, borderThickness);
          resizeActive := border != UNSET;
          offendingBorder := border;
        } else if ev.action == Release {
          if resizeActive {
            resizeActive := false;
          }
          offendingBorder := UNSET;
        } else if ev.action == Move {
          if !resizeActive {
            cursor := CursorFor(HoveredBorder(p.x, p.y, geometry.w, geometry.h, borderThickness));
          } else {
            geometry := DragGeometry(geometry, offendingBorder, ev.globalPos);
          }
          return true;
        }
      }
      handled := false;
    }
  }
}
