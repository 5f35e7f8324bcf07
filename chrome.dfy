/** The parts of the frameless-window chrome that the three widget variants share: the border
    flag, the hit-test, the border-to-cursor table, the manual drag step and the mouse-event
    state machine of the two variants that drag by hand. */
module Chrome {
  import opened Wrappers

  /** The bits of the `__ResizableWidgetBorder` flag enumeration. */
  datatype Bit = Left | Right | Top | Bottom | Unset

  /** A flag value is the set of its bits; TOPLEFT, for one, is {Top, Left}. */
  type Flag = set<Bit>

  const UNSET: Flag := {Unset}

  /** `a ^ b` on flag values. */
  function Xor(a: Flag, b: Flag): Flag {
    (a - b) + (b - a)
  }

  /** The nine values the hit-test can produce: UNSET or one or two edges on different axes. */
  predicate IsBorder(b: Flag) {
    b != {} && (Unset in b ==> b == UNSET) && !(Left in b && Right in b) && !(Top in b && Bottom in b)
  }

  const BORDERS: set<Flag> :=
    {UNSET, {Left}, {Right}, {Top}, {Bottom}, {Top, Left}, {Top, Right}, {Bottom, Left}, {Bottom, Right}}

  lemma BorderValues(b: Flag)
    ensures IsBorder(b) <==> b in BORDERS
  {
    var edges := (if Left in b then {Left} else {}) + (if Right in b then {Right} else {})
               + (if Top in b then {Top} else {}) + (if Bottom in b then {Bottom} else {});
    forall x | x != Unset ensures x in b <==> x in edges {
      match x
      case Left =>
      case Right =>
      case Top =>
      case Bottom =>
    }
    if IsBorder(b) && Unset !in b {
      assert b == edges;
      if Left in b {
        assert b == {Left} || b == {Top, Left} || b == {Bottom, Left};
      } else if Right in b {
        assert b == {Right} || b == {Top, Right} || b == {Bottom, Right};
      } else {
        assert b == {Top} || b == {Bottom};
      }
    }
  }

  /** `__getHoveredBorder`: which borders of a `w` by `h` widget the position (x, y) lies on,
      for a border `t` wide. Left wins over right and top over bottom. */
  function HoveredBorder(x: int, y: int, w: int, h: int, t: int): (b: Flag)
    ensures IsBorder(b)
  {
    var horizontal := if x <= 0 + t then {Left} else if (w - t <= x <= w) || x > w then {Right} else {};
    var vertical := if y <= 0 + t then {Top} else if (h - t <= y <= h) || y > h then {Bottom} else {};
    var border := UNSET + horizontal + vertical;
    if border == UNSET then border else Xor(border, UNSET)
  }

  /** For a border of non-negative width: each edge is reported exactly when the position is
      within `t` of it (or beyond it), and UNSET exactly when no edge is. */
  lemma HitTest(x: int, y: int, w: int, h: int, t: int)
    requires t >= 0
    ensures var b := HoveredBorder(x, y, w, h, t);
      && (Left in b <==> x <= t)
      && (Right in b <==> t < x && w - t <= x)
      && (Top in b <==> y <= t)
      && (Bottom in b <==> t < y && h - t <= y)
      && (b == UNSET <==> t < x < w - t && t < y < h - t)
  {
  }

  /** Each corner is the union of its two edges. */
  lemma CornerIsUnion(x: int, y: int, w: int, h: int, t: int)
    requires t >= 0
    ensures var b := HoveredBorder(x, y, w, h, t);
      && (x <= t && y <= t ==> b == {Top, Left})
      && (t < x && w - t <= x && y <= t ==> b == {Top, Right})
      && (x <= t && t < y && h - t <= y ==> b == {Bottom, Left})
      && (t < x && w - t <= x && t < y && h - t <= y ==> b == {Bottom, Right})
  {
    var b := HoveredBorder(x, y, w, h, t);
    HitTest(x, y, w, h, t);
    BorderValues(b);
  }

  datatype CursorShape = SizeVerCursor | SizeHorCursor | SizeBDiagCursor | SizeFDiagCursor

  /** `BORDER_TO_CURSOR_SHAPE`. */
  const BORDER_TO_CURSOR: map<Flag, CursorShape> := map[
    {Bottom} := SizeVerCursor, {Top} := SizeVerCursor,
    {Left} := SizeHorCursor, {Right} := SizeHorCursor,
    {Bottom, Left} := SizeBDiagCursor, {Top, Right} := SizeBDiagCursor,
    {Bottom, Right} := SizeFDiagCursor, {Top, Left} := SizeFDiagCursor]

  /** The cursor `__updateCursor` sets for a border; `None` is `unsetCursor`. */
  function CursorFor(b: Flag): Option<CursorShape> {
    if b in BORDER_TO_CURSOR then Some(BORDER_TO_CURSOR[b]) else None
  }

  /** The resize cursor by the axes a border moves: vertical for top or bottom alone,
      horizontal for left or right alone, and the diagonal through the corner otherwise. */
  function AxisShape(b: Flag): CursorShape {
    if !(Left in b || Right in b) then SizeVerCursor
    else if !(Top in b || Bottom in b) then SizeHorCursor
    else if (Top in b) == (Right in b) then SizeBDiagCursor
    else SizeFDiagCursor
  }

  /** The cursor table agrees with the axis rule, and unsets the cursor only for UNSET. */
  lemma CursorByAxes(b: Flag)
    requires IsBorder(b)
    ensures CursorFor(b) == if b == UNSET then None else Some(AxisShape(b))
  {
    BorderValues(b);
  }

  /** After the hit-test the cursor is unset exactly off the border ring. */
  lemma HoverCursor(x: int, y: int, w: int, h: int, t: int)
    requires t >= 0
    ensures CursorFor(HoveredBorder(x, y, w, h, t)).None? <==> t < x < w - t && t < y < h - t
  {
    HitTest(x, y, w, h, t);
    CursorByAxes(HoveredBorder(x, y, w, h, t));
  }

  datatype Point = Point(x: int, y: int)

  /** A widget's geometry: position and size. */
  datatype Rect = Rect(x: int, y: int, w: nat, h: nat)

  function Max0(n: int): nat {
    if n < 0 then 0 else n
  }

  function Max(a: int, b: int): int {
    if a < b then b else a
  }

  /** Content margins: left, top, right, bottom. */
  datatype Margins = Margins(left: int, top: int, right: int, bottom: int)

  /** `setContentsMargins(*(v,) * 4)`. */
  function Uniform(v: int): Margins {
    Margins(v, v, v, v)
  }

  /** One step of the manual drag: the edges of `b` move to the cursor's global position
      (top before bottom, left before right), the rest stay, and sizes do not go negative. */
  function DragGeometry(g: Rect, b: Flag, cursor: Point): Rect {
    var y1 := if Top in b then cursor.y else g.y;
    var y2 := if Top in b then g.y + g.h else if Bottom in b then cursor.y else g.y + g.h;
    var x1 := if Left in b then cursor.x else g.x;
    var x2 := if Left in b then g.x + g.w else if Right in b then cursor.x else g.x + g.w;
    Rect(x1, y1, Max0(x2 - x1), Max0(y2 - y1))
  }

  /** Dragging the bottom-right corner of (100, 100, 400, 180) to (520, 300). */
  lemma DragExample()
    ensures DragGeometry(Rect(100, 100, 400, 180), {Bottom, Right}, Point(520, 300)) == Rect(100, 100, 420, 200)
  {
  }

  /** What each edge of the new geometry is. An edge not in the border stays where it was; a
      moved top or left edge goes to the cursor and the opposite edge stays, as long as the
      cursor has not crossed it; a moved bottom or right edge goes to the cursor as long as
      the cursor has not crossed the top or left edge. */
  lemma DragEdges(g: Rect, b: Flag, c: Point)
    requires IsBorder(b)
    ensures var r := DragGeometry(g, b, c);
      && (Top !in b && Bottom !in b ==> r.y == g.y && r.h == g.h)
      && (Left !in b && Right !in b ==> r.x == g.x && r.w == g.w)
      && (Top in b ==> r.y == c.y && (c.y <= g.y + g.h ==> r.y + r.h == g.y + g.h))
      && (Bottom in b ==> r.y == g.y && (g.y <= c.y ==> r.y + r.h == c.y))
      && (Left in b ==> r.x == c.x && (c.x <= g.x + g.w ==> r.x + r.w == g.x + g.w))
      && (Right in b ==> r.x == g.x && (g.x <= c.x ==> r.x + r.w == c.x))
  {
  }

  /** Repeating a drag step to the same cursor position changes nothing more. */
  lemma DragIdempotent(g: Rect, b: Flag, c: Point)
    ensures DragGeometry(DragGeometry(g, b, c), b, c) == DragGeometry(g, b, c)
  {
  }

  datatype MouseAction = Press | Release | Move | DoubleClick

  datatype MouseButton = LeftButton | RightButton | MiddleButton | NoButton

  /** The events the widgets tell apart: mouse events with a position relative to the widget
      and a global one, window activation, paint requests and everything else. */
  datatype Event =
    | Mouse(action: MouseAction, button: MouseButton, pos: Point, globalPos: Point)
    | WindowActivate
    | Paint
    | OtherEvent

  /** The fields the event handlers read and write. */
  datatype Gesture = Gesture(resizeActive: bool, offendingBorder: Flag, cursor: Option<CursorShape>, geometry: Rect)

  /** While a resize is active it has a border to move. */
  predicate Consistent(s: Gesture) {
    IsBorder(s.offendingBorder) && (s.resizeActive ==> s.offendingBorder != UNSET)
  }

  function Hovered(s: Gesture, p: Point, t: int): Flag {
    HoveredBorder(p.x, p.y, s.geometry.w, s.geometry.h, t)
  }

  /** The mouse branch of `event` in the variants that drag by hand, for a border `t` wide:
      the new fields and the value `event` returns. */
  function ManualStep(s: Gesture, ev: Event, t: int): (Gesture, bool) {
    if !ev.Mouse? then (s, false)
    else
      match ev.action
      case Press =>
        var b := Hovered(s, ev.pos, t);
        (s.(resizeActive := b != UNSET, offendingBorder := b), false)
      case Release =>
        (s.(resizeActive := false, offendingBorder := UNSET), false)
      case Move =>
        if !s.resizeActive then (s.(cursor := CursorFor(Hovered(s, ev.pos, t))), true)
        else (s.(geometry := DragGeometry(s.geometry, s.offendingBorder, ev.globalPos)), true)
      case DoubleClick =>
        (s, false)
  }

  /** The handler keeps a consistent state consistent. */
  lemma ManualStepConsistent(s: Gesture, ev: Event, t: int)
    requires Consistent(s)
    ensures Consistent(ManualStep(s, ev, t).0)
  {
  }

  /** `event` returns True exactly for a mouse move. */
  lemma ManualStepHandled(s: Gesture, ev: Event, t: int)
    ensures ManualStep(s, ev, t).1 <==> ev.Mouse? && ev.action == Move
  {
  }

  /** A press arms a resize exactly on the border ring, with the border under the cursor; a
      release always returns to idle. */
  lemma ManualPressRelease(s: Gesture, ev: Event, t: int)
    requires ev.Mouse? && t >= 0
    ensures ev.action == Press ==>
      var s' := ManualStep(s, ev, t).0;
      && s'.offendingBorder == Hovered(s, ev.pos, t)
      && (s'.resizeActive <==> !(t < ev.pos.x < s.geometry.w - t && t < ev.pos.y < s.geometry.h - t))
    ensures ev.action == Release ==>
      var s' := ManualStep(s, ev, t).0;
      !s'.resizeActive && s'.offendingBorder == UNSET
  {
    HitTest(ev.pos.x, ev.pos.y, s.geometry.w, s.geometry.h, t);
  }

  /** A move while idle only changes the cursor; a move while resizing only the geometry; no
      event changes both. */
  lemma ManualMoveSeparation(s: Gesture, ev: Event, t: int)
    ensures var s' := ManualStep(s, ev, t).0;
      (s'.geometry == s.geometry || s'.cursor == s.cursor)
      && (s'.geometry != s.geometry ==> s.resizeActive && ev.Mouse? && ev.action == Move)
  {
  }
}
