/** The frameless widgets of src/ui/generic_view_components.py: a border style object that
    checks its arguments' types, a resizable widget that hands the drag to the window system,
    and a movable variant that starts a native window move on a press off the border. */
module GenericViewComponents {
  import opened Wrappers
  import opened Chrome

  const MIN_RADIUS: int := 0
  const MIN_THICKNESS: int := 3
  /** What the hit-test adds to the border thickness. */
  const HIT_PADDING: int := 3

  /** A `QColor`. Every colour object counts as true in a condition. */
  datatype Color = Rgba(red: nat, green: nat, blue: nat, alpha: nat)

  /** The three fields of a `BorderStyle`; `None` is a colour never set. */
  datatype Style = Style(thickness: int, radius: int, color: Option<Color>) {
    predicate Valid() {
      thickness >= MIN_THICKNESS && radius >= MIN_RADIUS
    }
  }

  const DefaultStyle: Style := Style(MIN_THICKNESS, MIN_RADIUS, None)

  /** The keyword arguments `setStyle` looks at. */
  datatype Key = ColorKey | FallbackColorKey | ThicknessKey | RadiusKey | ObjKey

  /** A Python argument value, by the type `setStyle` tells it by. `StyleArg` is another
      `BorderStyle` object, given by its fields when the call is made. */
  datatype Arg = IntArg(i: int) | BoolArg(b: bool) | ColorArg(c: Color) | NoneArg | StyleArg(style: Style) | OtherArg

  type Kwargs = map<Key, Arg>

  /** `__arg_type_check` for one argument: colours are a `QColor` or `None`, sizes an `int`
      (a `bool` is one). */
  predicate ArgOk(k: Key, a: Arg) {
    match k
    case ColorKey => a.ColorArg? || a.NoneArg?
    case FallbackColorKey => a.ColorArg? || a.NoneArg?
    case ThicknessKey => a.IntArg? || a.BoolArg?
    case RadiusKey => a.IntArg? || a.BoolArg?
    case ObjKey => true
  }

  predicate TypesOk(kw: Kwargs) {
    forall k | k in kw :: ArgOk(k, kw[k])
  }

  function IntValue(a: Arg): int
    requires a.IntArg? || a.BoolArg?
  {
    if a.IntArg? then a.i else if a.b then 1 else 0
  }

  /** The colour under `k` if it is one that counts as true (absent or `None` do not). */
  function ColorOf(kw: Kwargs, k: Key): Option<Color> {
    if k in kw && kw[k].ColorArg? then Some(kw[k].c) else None
  }

  /** The arguments of the recursive call for `obj=o`: the caller's fallback colour, then the
      fields of `o`. */
  function ObjArgs(o: Style, kw: Kwargs): Kwargs {
    (if FallbackColorKey in kw then map[FallbackColorKey := kw[FallbackColorKey]] else map[])
    + map[ThicknessKey := IntArg(o.thickness), RadiusKey := IntArg(o.radius),
          ColorKey := if o.color.Some? then ColorArg(o.color.value) else NoneArg]
  }

  /** `setStyle` without an `obj`: sizes are clamped to the minimums; a set colour is replaced
      only by a given colour; an unset one takes the given colour, else the fallback. */
  function PlainStyle(s: Style, kw: Kwargs): Style
    requires TypesOk(kw)
  {
    var thickness := if ThicknessKey in kw then Max(MIN_THICKNESS, IntValue(kw[ThicknessKey])) else s.thickness;
    var radius := if RadiusKey in kw then Max(MIN_RADIUS, IntValue(kw[RadiusKey])) else s.radius;
    var given := ColorOf(kw, ColorKey);
    var color := if s.color.Some? then (if given.Some? then given else s.color)
                 else (if given.Some? then given else ColorOf(kw, FallbackColorKey));
    Style(thickness, radius, color)
  }

  /** The fields after `setStyle(**kw)` on a style with fields `s`. */
  function StyleAfter(s: Style, kw: Kwargs): (r: Style)
    ensures !TypesOk(kw) ==> r == s
    ensures s.Valid() ==> r.Valid()
    ensures s.color.Some? ==> r.color.Some?
    decreases if ObjKey in kw then 1 else 0
  {
    if !TypesOk(kw) then s
    else if ObjKey in kw && kw[ObjKey].StyleArg? then StyleAfter(s, ObjArgs(kw[ObjKey].style, kw))
    else PlainStyle(s, kw)
  }

  /** Once the types check, a given colour always wins; failing that a set colour stays, and
      only an unset colour takes the fallback. */
  lemma ColorRule(s: Style, kw: Kwargs)
    requires TypesOk(kw) && !(ObjKey in kw && kw[ObjKey].StyleArg?)
    ensures StyleAfter(s, kw).color ==
      if ColorOf(kw, ColorKey).Some? then ColorOf(kw, ColorKey)
      else if s.color.Some? then s.color
      else ColorOf(kw, FallbackColorKey)
  {
  }

  /** Once the types check, a given size becomes that size raised to its minimum, and a size
      not given keeps its old value. */
  lemma SizeRule(s: Style, kw: Kwargs)
    requires TypesOk(kw) && !(ObjKey in kw && kw[ObjKey].StyleArg?)
    ensures StyleAfter(s, kw).thickness ==
      if ThicknessKey in kw then Max(MIN_THICKNESS, IntValue(kw[ThicknessKey])) else s.thickness
    ensures StyleAfter(s, kw).radius ==
      if RadiusKey in kw then Max(MIN_RADIUS, IntValue(kw[RadiusKey])) else s.radius
  {
  }

  /** Applying the same arguments twice is the same as applying them once. */
  lemma StyleAfterIdempotent(s: Style, kw: Kwargs)
    ensures StyleAfter(StyleAfter(s, kw), kw) == StyleAfter(s, kw)
  {
    if TypesOk(kw) && ObjKey in kw && kw[ObjKey].StyleArg? {
      var kw' := ObjArgs(kw[ObjKey].style, kw);
      assert TypesOk(kw');
      assert StyleAfter(s, kw) == PlainStyle(s, kw');
    }
  }

  /** The arguments `setBorderStyle` passes on; `fallback` is the palette's background. */
  function SetBorderStyleArgs(borderColor: Arg, borderThickness: Arg, borderRadius: Arg, borderStyle: Arg,
                              fallback: Color): Kwargs
  {
    if borderStyle != NoneArg then map[ObjKey := borderStyle, FallbackColorKey := ColorArg(fallback)]
    else map[ColorKey := borderColor, ThicknessKey := borderThickness, RadiusKey := borderRadius,
             FallbackColorKey := ColorArg(fallback)]
  }

  /** Merging a valid style that has a colour copies it exactly. */
  lemma MergeCopies(s: Style, o: Style, c: Arg, t: Arg, r: Arg, fallback: Color)
    requires o.Valid() && o.color.Some?
    ensures StyleAfter(s, SetBorderStyleArgs(c, t, r, StyleArg(o), fallback)) == o
  {
    var kw := SetBorderStyleArgs(c, t, r, StyleArg(o), fallback);
    assert TypesOk(ObjArgs(o, kw));
  }

  /** Merging a style without a colour keeps a set colour and otherwise takes the fallback. */
  lemma MergeUnsetColor(s: Style, o: Style, c: Arg, t: Arg, r: Arg, fallback: Color)
    requires o.color.None?
    ensures StyleAfter(s, SetBorderStyleArgs(c, t, r, StyleArg(o), fallback)).color
         == if s.color.Some? then s.color else Some(fallback)
  {
    var kw := SetBorderStyleArgs(c, t, r, StyleArg(o), fallback);
    assert TypesOk(ObjArgs(o, kw));
  }

  /** Merging any style takes its sizes, raised to the minimums, whatever its colour. */
  lemma MergeSizes(s: Style, o: Style, c: Arg, t: Arg, r: Arg, fallback: Color)
    ensures var after := StyleAfter(s, SetBorderStyleArgs(c, t, r, StyleArg(o), fallback));
      after.thickness == Max(MIN_THICKNESS, o.thickness) && after.radius == Max(MIN_RADIUS, o.radius)
  {
    var kw := SetBorderStyleArgs(c, t, r, StyleArg(o), fallback);
    assert TypesOk(ObjArgs(o, kw));
  }

  /** With its default arguments `setBorderStyle` resets thickness and radius to the minimums
      and leaves the style with a colour. */
  lemma SetBorderStyleDefaults(s: Style, fallback: Color)
    ensures StyleAfter(s, SetBorderStyleArgs(NoneArg, IntArg(-1), IntArg(-1), NoneArg, fallback))
         == Style(MIN_THICKNESS, MIN_RADIUS, if s.color.Some? then s.color else Some(fallback))
  {
    var kw := SetBorderStyleArgs(NoneArg, IntArg(-1), IntArg(-1), NoneArg, fallback);
    assert TypesOk(kw);
  }

  /** A colour where a size belongs, for one, leaves the style as it was. */
  lemma BadTypeIgnored(s: Style, fallback: Color, c: Color)
    ensures StyleAfter(s, SetBorderStyleArgs(NoneArg, ColorArg(c), IntArg(-1), NoneArg, fallback)) == s
  {
    var kw := SetBorderStyleArgs(NoneArg, ColorArg(c), IntArg(-1), NoneArg, fallback);
    assert !ArgOk(ThicknessKey, kw[ThicknessKey]);
  }

  /** `FramelessRoundedBorderWidget.BorderStyle`. */
  class BorderStyle {
    var thickness: int
    var color: Option<Color>
    var radius: int

    function Snapshot(): Style
      reads this
    {
      Style(thickness, radius, color)
    }

    constructor (kw: Kwargs)
      ensures Snapshot() == StyleAfter(DefaultStyle, kw)
    {
      thickness := MIN_THICKNESS;
      color := None;
      radius := MIN_RADIUS;
      new;
      SetStyle(kw);
    }

    /** `__arg_type_check`: whether every argument has its expected type. */
    method ArgTypeCheck(kw: Kwargs) returns (state: bool)
      ensures state == TypesOk(kw)
    {
      state := true;
      var rest := kw.Keys;
      while rest != {}
        invariant rest <= kw.Keys
        invariant state <==> forall k | k in kw.Keys - rest :: ArgOk(k, kw[k])
        decreases |rest|
      {
        var k :| k in rest;
        state := state && ArgOk(k, kw[k]);
        rest := rest - {k};
      }
    }

    method SetStyle(kw: Kwargs)
      modifies this
      ensures Snapshot() == StyleAfter(old(Snapshot()), kw)
      decreases if ObjKey in kw then 1 else 0
    {
      var ok := ArgTypeCheck(kw);
      if !ok {
        return;
      }
      if ObjKey in kw && kw[ObjKey].StyleArg? {
        SetStyle(ObjArgs(kw[ObjKey].style, kw));
      } else {
        if ThicknessKey in kw {
          thickness := Max(MIN_THICKNESS, IntValue(kw[ThicknessKey]));
        }
        if RadiusKey in kw {
          radius := Max(MIN_RADIUS, IntValue(kw[RadiusKey]));
        }
        var c := ColorOf(kw, ColorKey);
        if color.Some? {
          if c.Some? {
            color := c;
          }
        } else {
          if c.Some? {
            color := c;
          } else {
            color := ColorOf(kw, FallbackColorKey);
          }
        }
      }
    }
  }

  /** `FramelessRoundedBorderWidget`: the style and the palette colour it falls back to. */
  class FramelessRoundedBorderWidget {
    const borderStyle: BorderStyle
    var defaultBackground: Color

    constructor (defaultBackground: Color)
      ensures fresh(borderStyle) && borderStyle.Snapshot() == DefaultStyle
      ensures this.defaultBackground == defaultBackground
    {
      borderStyle := new BorderStyle(map[]);
      this.defaultBackground := defaultBackground;
    }

    method SetBorderStyle(borderColor: Arg, borderThickness: Arg, borderRadius: Arg, borderStyleArg: Arg)
      modifies borderStyle
      ensures borderStyle.Snapshot() == StyleAfter(old(borderStyle.Snapshot()),
        SetBorderStyleArgs(borderColor, borderThickness, borderRadius, borderStyleArg, defaultBackground))
    {
      borderStyle.SetStyle(SetBorderStyleArgs(borderColor, borderThickness, borderRadius, borderStyleArg,
                                              defaultBackground));
    }

    /** `event`: paint requests are taken (the painting itself is not modelled); every other
        event goes on to `QWidget.event`. This is where `ResizableWidget` passes events on. */
    method Event(ev: Event) returns (d: Dispatch)
      ensures d == Consumed <==> ev.Paint?
    {
      if ev.Paint? {
        return Consumed;
      }
      d := PassedOn;
    }
  }

  datatype QtEdge = LeftEdge | RightEdge | TopEdge | BottomEdge

  /** `BORDER_TO_NATIVE_EDGE`. */
  const BORDER_TO_NATIVE_EDGE: map<Flag, set<QtEdge>> := map[
    {Bottom} := {BottomEdge}, {Top} := {TopEdge}, {Left} := {LeftEdge}, {Right} := {RightEdge},
    {Bottom, Left} := {BottomEdge, LeftEdge}, {Bottom, Right} := {BottomEdge, RightEdge},
    {Top, Left} := {TopEdge, LeftEdge}, {Top, Right} := {TopEdge, RightEdge}]

  function EdgeOf(b: Bit): QtEdge
    requires b != Unset
  {
    match b
    case Left => LeftEdge
    case Right => RightEdge
    case Top => TopEdge
    case Bottom => BottomEdge
  }

  /** Every border but UNSET has native edges, and they are its own edges. */
  lemma NativeEdges(b: Flag)
    requires IsBorder(b)
    ensures b in BORDER_TO_NATIVE_EDGE <==> b != UNSET
    ensures b in BORDER_TO_NATIVE_EDGE ==> BORDER_TO_NATIVE_EDGE[b] == set e | e in b && e != Unset :: EdgeOf(e)
  {
    BorderValues(b);
  }

  /** `Consumed` is `return True`; `PassedOn` is `return super().event(event)`. */
  datatype Dispatch = Consumed | PassedOn

  /** `ResizableWidget.event`: the new fields and where the event goes. `nativeResizeOk` is
      what `startSystemResize` answers. */
  function ResizeStep(s: Gesture, enabled: bool, ev: Event, t: int, nativeResizeOk: bool): (Gesture, Dispatch) {
    if ev.Mouse? then
      if !enabled then (s, PassedOn)
      else
        match ev.action
        case Press =>
          var b := Hovered(s, ev.pos, t);
          var s' := s.(resizeActive := b != UNSET, offendingBorder := b);
          if s'.resizeActive && b in BORDER_TO_NATIVE_EDGE && nativeResizeOk then (s', Consumed) else (s', PassedOn)
        case Release =>
          (s.(resizeActive := false), PassedOn)
        case Move =>
          (s.(cursor := CursorFor(Hovered(s, ev.pos, t))), PassedOn)
        case DoubleClick =>
          (s, PassedOn)
    else if ev.WindowActivate? && s.resizeActive then
      (s.(resizeActive := false, offendingBorder := UNSET), PassedOn)
    else (s, PassedOn)
  }

  /** Every event keeps a consistent state consistent, and none moves the widget: the window
      system does the resizing. */
  lemma ResizeStepConsistent(s: Gesture, enabled: bool, ev: Event, t: int, ok: bool)
    requires Consistent(s)
    ensures Consistent(ResizeStep(s, enabled, ev, t, ok).0)
    ensures ResizeStep(s, enabled, ev, t, ok).0.geometry == s.geometry
  {
  }

  /** With resizing enabled, a press arms a resize exactly on the border ring, remembers the
      border under the cursor, and is consumed exactly when the native resize starts. */
  lemma ResizePress(s: Gesture, ev: Event, t: int, ok: bool)
    requires ev.Mouse? && ev.action == Press && t >= 0
    ensures var (s', d) := ResizeStep(s, true, ev, t, ok);
      && s'.offendingBorder == Hovered(s, ev.pos, t)
      && (s'.resizeActive <==> !(t < ev.pos.x < s.geometry.w - t && t < ev.pos.y < s.geometry.h - t))
      && (d == Consumed <==> s'.resizeActive && ok)
  {
    HitTest(ev.pos.x, ev.pos.y, s.geometry.w, s.geometry.h, t);
    NativeEdges(Hovered(s, ev.pos, t));
  }

  /** A release ends the resize but keeps the border; window activation ends the resize and
      clears the border, whether or not resizing is enabled. */
  lemma ResizeEnds(s: Gesture, enabled: bool, ev: Event, t: int, ok: bool)
    requires ev == WindowActivate || (enabled && ev.Mouse? && ev.action == Release)
    ensures var s' := ResizeStep(s, enabled, ev, t, ok).0;
      && !s'.resizeActive
      && s'.offendingBorder == (if ev == WindowActivate && s.resizeActive then UNSET else s.offendingBorder)
  {
  }

  /** With resizing disabled, mouse events change nothing and go on to the base class. */
  lemma ResizeDisabled(s: Gesture, ev: Event, t: int, ok: bool)
    requires ev.Mouse?
    ensures ResizeStep(s, false, ev, t, ok) == (s, PassedOn)
  {
  }

  /** Only a press can be consumed here; every other event, paint requests included, goes on
      to `FramelessRoundedBorderWidget.event`, and one that is neither a mouse event nor window
      activation changes nothing. */
  lemma OnlyPressConsumed(s: Gesture, enabled: bool, ev: Event, t: int, ok: bool)
    ensures var (s', d) := ResizeStep(s, enabled, ev, t, ok);
      && (d == Consumed ==> enabled && ev.Mouse? && ev.action == Press)
      && (!ev.Mouse? && !ev.WindowActivate? ==> s' == s)
  {
  }

  /** `ResizableWidget`. */
  class ResizableWidget {
    const frame: FramelessRoundedBorderWidget
    var geometry: Rect
    var cursor: Option<CursorShape>
    var resizeActive: bool
    var offendingBorder: Flag
    var resizeEnabled: bool

    function State(): Gesture
      reads this
    {
      Gesture(resizeActive, offendingBorder, cursor, geometry)
    }

    /** The width the hit-test uses: the style's thickness plus the padding. */
    function HitThickness(): int
      reads this, frame, frame.borderStyle
    {
      frame.borderStyle.thickness + HIT_PADDING
    }

    constructor (frame: FramelessRoundedBorderWidget, geometry: Rect)
      ensures this.frame == frame
      ensures State() == Gesture(false, UNSET, None, geometry) && resizeEnabled
    {
      this.frame := frame;
      this.geometry := geometry;
      cursor := None;
      resizeActive := false;
      offendingBorder := UNSET;
      resizeEnabled := true;
    }

    /** `setEnableResize`: anything but a `bool` enables resizing. */
    method SetEnableResize(state: Arg)
      modifies this
      ensures resizeEnabled == (if state.BoolArg? then state.b else true)
      ensures State() == old(State())
    {
      resizeEnabled := if state.BoolArg? then state.b else true;
    }

    /** `_isCursorInBorder`. */
    method IsCursorInBorder(pos: Point) returns (r: bool)
      ensures r <==> HoveredBorder(pos.x, pos.y, geometry.w, geometry.h, HitThickness()) != UNSET
    {
      var border := HoveredBorder(pos.x, pos.y, geometry.w, geometry.h, frame.borderStyle.thickness + HIT_PADDING);
      r := border != UNSET;
    }

    method UpdateCursor(border: Flag)
      modifies this
      ensures State() == old(State()).(cursor := CursorFor(border))
      ensures resizeEnabled == old(resizeEnabled)
    {
      cursor := CursorFor(border);
    }

    /** The press branch of `event`: arm a resize on the border and hand it to the window
        system. */
    method PressBranch(ev: Event, nativeResizeOk: bool) returns (d: Dispatch)
      requires ev.Mouse? && ev.action == Press
      modifies this
      ensures (State(), d) == ResizeStep(old(State()), true, ev, HitThickness(), nativeResizeOk)
      ensures resizeEnabled == old(resizeEnabled)
    {
      var p := ev.pos;
      resizeActive := IsCursorInBorder(p);
      offendingBorder := HoveredBorder(p.x, p.y, geometry.w, geometry.h, frame.borderStyle.thickness + HIT_PADDING);
      if resizeActive {
        if offendingBorder in BORDER_TO_NATIVE_EDGE && nativeResizeOk {
          return Consumed;
        }
      }
      d := PassedOn;
    }

    method Event(ev: Event, nativeResizeOk: bool) returns (d: Dispatch)
      modifies this
      ensures (State(), d) == ResizeStep(old(State()), old(resizeEnabled), ev, HitThickness(), nativeResizeOk)
      ensures resizeEnabled == old(resizeEnabled)
    {
      d := PassedOn;
      var t := frame.borderStyle.thickness + HIT_PADDING;
      if ev.Mouse? {
        if resizeEnabled {
          var p := ev.pos;
          if ev.action == Press {
            d := PressBranch(ev, nativeResizeOk);
          } else if ev.action == Release {
            if resizeActive {
              resizeActive := false;
            }
          } else if ev.action == Move {
            UpdateCursor(HoveredBorder(p.x, p.y, geometry.w, geometry.h, t));
          }
        }
      } else if ev.WindowActivate? {
        if resizeActive {
          resizeActive := false;
          offendingBorder := UNSET;
        }
      }
    }

    /** `__fallbackMouseMove`: the manual drag step, which `event` never calls. */
    method FallbackMouseMove(ev: Event)
      requires ev.Mouse?
      modifies this
      ensures State() == if ev.action == Move then ManualStep(old(State()), ev, HitThickness()).0 else old(State())
      ensures resizeEnabled == old(resizeEnabled)
    {
      var p := ev.pos;
      if ev.action == Move {
        if !resizeActive {
          var hoveredBorder := HoveredBorder(p.x, p.y, geometry.w, geometry.h, frame.borderStyle.thickness + HIT_PADDING);
          UpdateCursor(hoveredBorder);
        } else {
          geometry := DragGeometry(geometry, offendingBorder, ev.globalPos);
        }
      }
    }
  }

  /** `QMovableResizableWidget.event` on the move flag and the resize fields: a left press off
      the border starts a native window move (answer `nativeMoveOk`) unless one is already
      under way; window activation ends it; everything else goes on to `ResizableWidget`. */
  function MovableStep(systemMove: bool, s: Gesture, enabled: bool, ev: Event, t: int,
                       nativeMoveOk: bool, nativeResizeOk: bool): (bool, Gesture, Dispatch)
  {
    if ev.Mouse? && ev.action == Press && ev.button == LeftButton && Hovered(s, ev.pos, t) == UNSET then
      if !systemMove && nativeMoveOk then (true, s, Consumed)
      else
        var r := ResizeStep(s, enabled, ev, t, nativeResizeOk);
        (systemMove, r.0, r.1)
    else
      var r := ResizeStep(s, enabled, ev, t, nativeResizeOk);
      (if ev.WindowActivate? then false else systemMove, r.0, r.1)
  }

  /** A move starts only on a left press off the border, and it leaves the resize fields alone;
      a press on the border never starts a move (and arms a resize when resizing is enabled). */
  lemma MoveExcludesResize(m: bool, s: Gesture, enabled: bool, ev: Event, t: int, mOk: bool, rOk: bool)
    ensures var (m', s', d) := MovableStep(m, s, enabled, ev, t, mOk, rOk);
      && (m' && !m ==> ev.Mouse? && ev.action == Press && ev.button == LeftButton
                       && Hovered(s, ev.pos, t) == UNSET && s' == s && d == Consumed)
      && (ev.Mouse? && ev.action == Press && Hovered(s, ev.pos, t) != UNSET ==> m' == m && (enabled ==> s'.resizeActive))
  {
  }

  /** A left press off the border with no move under way starts one exactly when the window
      system agrees; then the event is consumed and the resize fields stay as they were. */
  lemma MoveStarts(m: bool, s: Gesture, enabled: bool, ev: Event, t: int, mOk: bool, rOk: bool)
    requires ev.Mouse? && ev.action == Press && ev.button == LeftButton && Hovered(s, ev.pos, t) == UNSET && !m
    ensures MovableStep(m, s, enabled, ev, t, mOk, rOk).0 <==> mOk
    ensures mOk ==> MovableStep(m, s, enabled, ev, t, mOk, rOk) == (true, s, Consumed)
  {
  }

  /** Window activation ends a move; nothing else does. */
  lemma MoveEnds(m: bool, s: Gesture, enabled: bool, ev: Event, t: int, mOk: bool, rOk: bool)
    ensures var m' := MovableStep(m, s, enabled, ev, t, mOk, rOk).0;
      (ev == WindowActivate ==> !m') && (ev != WindowActivate && m ==> m')
  {
  }

  /** The movable widget keeps a consistent resize state consistent. */
  lemma MovableStepConsistent(m: bool, s: Gesture, enabled: bool, ev: Event, t: int, mOk: bool, rOk: bool)
    requires Consistent(s)
    ensures Consistent(MovableStep(m, s, enabled, ev, t, mOk, rOk).1)
  {
    ResizeStepConsistent(s, enabled, ev, t, rOk);
  }

  /** `QMovableResizableWidget`: the resizable widget it extends, and the move flag. */
  class QMovableResizableWidget {
    const widget: ResizableWidget
    var systemMove: bool

    constructor (widget: ResizableWidget)
      ensures this.widget == widget && !systemMove
    {
      this.widget := widget;
      systemMove := false;
    }

    method Event(ev: Event, nativeMoveOk: bool, nativeResizeOk: bool) returns (d: Dispatch)
      modifies this, widget
      ensures (systemMove, widget.State(), d) == MovableStep(old(systemMove), old(widget.State()),
        old(widget.resizeEnabled), ev, widget.HitThickness(), nativeMoveOk, nativeResizeOk)
      ensures widget.resizeEnabled == old(widget.resizeEnabled)
    {
      if ev.Mouse? && ev.action == Press && ev.button == LeftButton {
        var inBorder := widget.IsCursorInBorder(ev.pos);
        if !inBorder {
          if !systemMove && nativeMoveOk {
            systemMove := true;
            return Consumed;
          }
        }
      } else if ev.WindowActivate? {
        if systemMove {
          systemMove := false;
        }
      }
      d := widget.Event(ev, nativeResizeOk);
    }
  }
}
