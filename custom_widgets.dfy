/** The frameless widget of ui/custom_widgets.py: a border style with string colours that are
    whitespace-stripped and rendered into a style sheet, content margins that follow the
    thickness, and an event handler that drags the widget's edges by hand. */
module CustomWidgets {
  import opened Wrappers
  import opened Decimal
  import opened Chrome

  const MIN_RADIUS: int := 5
  const MIN_THICKNESS: int := 5
  const MIN_BORDER_WIDTH: int := 5
  const OBJECTNAME: string := "ResizableFramelessWidget"

  /** Python's `str.isspace` for one character. */
  predicate IsSpace(c: char) {
    c == ' ' || ('\t' <= c <= '\r') || ('\U{1c}' <= c <= '\U{1f}') || c == '\U{85}' || c == '\U{a0}'
    || c == '\U{1680}' || ('\U{2000}' <= c <= '\U{200a}') || c == '\U{2028}' || c == '\U{2029}'
    || c == '\U{202f}' || c == '\U{205f}' || c == '\U{3000}'
  }

  function StripLeft(s: string): (r: string)
    ensures |r| <= |s|
    ensures r == [] || !IsSpace(r[0])
  {
    if s != [] && IsSpace(s[0]) then StripLeft(s[1..]) else s
  }

  function StripRight(s: string): (r: string)
    ensures |r| <= |s|
    ensures r == [] || !IsSpace(r[|r| - 1])
  {
    if s != [] && IsSpace(s[|s| - 1]) then StripRight(s[..|s| - 1]) else s
  }

  /** `StripLeft` keeps a suffix. */
  lemma {:induction false} StripLeftSuffix(s: string)
    ensures StripLeft(s) == s[|s| - |StripLeft(s)|..]
  {
    if s != [] && IsSpace(s[0]) {
      StripLeftSuffix(s[1..]);
    }
  }

  /** `StripRight` keeps a prefix. */
  lemma {:induction false} StripRightPrefix(s: string)
    ensures StripRight(s) == s[..|StripRight(s)|]
  {
    if s != [] && IsSpace(s[|s| - 1]) {
      StripRightPrefix(s[..|s| - 1]);
    }
  }

  /** `str.strip()`: the string without its leading and trailing whitespace. */
  function Strip(s: string): (r: string)
    ensures r == [] || (!IsSpace(r[0]) && !IsSpace(r[|r| - 1]))
  {
    var l := StripLeft(s);
    StripRightPrefix(l);
    StripRight(l)
  }

  /** A string is its own stripped form exactly when it neither starts nor ends with
      whitespace. */
  lemma StripFixed(s: string)
    ensures Strip(s) == s <==> (s == [] || (!IsSpace(s[0]) && !IsSpace(s[|s| - 1])))
  {
    if s != [] && !IsSpace(s[0]) && !IsSpace(s[|s| - 1]) {
      assert StripLeft(s) == s;
      assert StripRight(s) == s;
    }
  }

  lemma StripIdempotent(s: string)
    ensures Strip(Strip(s)) == Strip(s)
  {
    StripFixed(Strip(s));
  }

  /** What `StripLeft` drops is whitespace. */
  lemma {:induction false} StripLeftDropsSpaces(s: string)
    ensures forall i :: 0 <= i < |s| - |StripLeft(s)| ==> IsSpace(s[i])
  {
    if s != [] && IsSpace(s[0]) {
      StripLeftDropsSpaces(s[1..]);
      forall i | 1 <= i < |s| - |StripLeft(s)| ensures IsSpace(s[i]) {
        assert s[i] == s[1..][i - 1];
      }
    }
  }

  /** Only an all-whitespace string strips to nothing. */
  lemma StripEmpty(s: string)
    ensures Strip(s) == [] <==> forall i :: 0 <= i < |s| ==> IsSpace(s[i])
  {
    var l := StripLeft(s);
    StripLeftDropsSpaces(s);
    StripLeftSuffix(s);
    if l != [] {
      assert l[0] == s[|s| - |l|];
      assert Strip(s) != [] by {
        StripRightPrefix(l);
        if StripRight(l) == [] {
          StripRightDropsSpaces(l);
        }
      }
    }
  }

  /** What `StripRight` drops is whitespace. */
  lemma {:induction false} StripRightDropsSpaces(s: string)
    ensures forall i :: |StripRight(s)| <= i < |s| ==> IsSpace(s[i])
  {
    if s != [] && IsSpace(s[|s| - 1]) {
      StripRightDropsSpaces(s[..|s| - 1]);
      forall i | |StripRight(s)| <= i < |s| - 1 ensures IsSpace(s[i]) {
        assert s[i] == s[..|s| - 1][i];
      }
    }
  }

  /** The fields of a `BorderStyle`; "" is a colour never set. */
  datatype Style = Style(thickness: int, radius: int, color: string) {
    predicate Valid() {
      thickness >= MIN_THICKNESS && radius >= MIN_RADIUS && Strip(color) == color
    }
  }

  const DefaultStyle: Style := Style(MIN_THICKNESS, MIN_RADIUS, "")

  /** The `obj` argument: absent or `None`, another `BorderStyle` (by its fields), or any
      other object. */
  datatype ObjArg = NoObj | StyleObj(style: Style) | OtherObj

  /** The keyword arguments of `setStyle`; `None` stands for an argument not given. */
  datatype StyleArgs = StyleArgs(color: Option<string>, thickness: Option<int>, radius: Option<int>,
                                 fallback: Option<string>, obj: ObjArg)

  /** `setStyle` without a `BorderStyle` in `obj`: sizes clamped to 5, colours stripped, a set
      colour replaced only by a non-empty one, an unset one taking the colour, else the
      fallback. */
  function PlainStyle(s: Style, a: StyleArgs): Style {
    var thickness := if a.thickness.Some? then Max(MIN_THICKNESS, a.thickness.value) else s.thickness;
    var radius := if a.radius.Some? then Max(MIN_RADIUS, a.radius.value) else s.radius;
    var c := Strip(a.color.GetOr(""));
    var color := if s.color != "" then (if c != "" then c else s.color)
                 else (if c != "" then c else Strip(a.fallback.GetOr("")));
    Style(thickness, radius, color)
  }

  /** The arguments of the recursive call for `obj=o`: the stripped fallback, then the fields
      of `o`. */
  function ObjArgs(o: Style, a: StyleArgs): StyleArgs {
    StyleArgs(Some(o.color), Some(o.thickness), Some(o.radius),
              if a.fallback.Some? then Some(Strip(a.fallback.value)) else None, NoObj)
  }

  /** The fields after `setStyle(**a)` on a style with fields `s`. */
  function StyleAfter(s: Style, a: StyleArgs): (r: Style)
    ensures s.Valid() ==> r.Valid()
    ensures s.color != "" ==> r.color != ""
    decreases if a.obj.StyleObj? then 1 else 0
  {
    if a.obj.StyleObj? then StyleAfter(s, ObjArgs(a.obj.style, a))
    else
      var r := PlainStyle(s, a);
      StripIdempotent(a.color.GetOr(""));
      StripIdempotent(a.fallback.GetOr(""));
      r
  }

  /** A non-empty stripped colour always wins; failing that a set colour stays, and only an
      unset colour takes the stripped fallback. */
  lemma ColorRule(s: Style, a: StyleArgs)
    requires !a.obj.StyleObj?
    ensures StyleAfter(s, a).color ==
      if Strip(a.color.GetOr("")) != "" then Strip(a.color.GetOr(""))
      else if s.color != "" then s.color
      else Strip(a.fallback.GetOr(""))
  {
  }

  /** Without a `BorderStyle` in `obj`, a given size becomes that size raised to 5, and a
      size not given keeps its old value. */
  lemma SizeRule(s: Style, a: StyleArgs)
    requires !a.obj.StyleObj?
    ensures StyleAfter(s, a).thickness ==
      if a.thickness.Some? then Max(MIN_THICKNESS, a.thickness.value) else s.thickness
    ensures StyleAfter(s, a).radius ==
      if a.radius.Some? then Max(MIN_RADIUS, a.radius.value) else s.radius
  {
  }

  lemma StyleAfterIdempotent(s: Style, a: StyleArgs)
    ensures StyleAfter(StyleAfter(s, a), a) == StyleAfter(s, a)
  {
    var p := if a.obj.StyleObj? then ObjArgs(a.obj.style, a) else a;
    assert StyleAfter(s, a) == PlainStyle(s, p);
    StripIdempotent(p.color.GetOr(""));
    StripIdempotent(p.fallback.GetOr(""));
  }

  /** The arguments `setBorderStyle` passes on; `fallback` is the background colour string. */
  function SetBorderStyleArgs(borderColor: string, borderThickness: int, borderRadius: int,
                              borderStyle: ObjArg, fallback: string): StyleArgs
  {
    if borderStyle != NoObj then StyleArgs(None, None, None, Some(fallback), borderStyle)
    else StyleArgs(Some(borderColor), Some(borderThickness), Some(borderRadius), Some(fallback), NoObj)
  }

  /** Merging a valid style that has a colour copies it exactly. */
  lemma MergeCopies(s: Style, o: Style, c: string, t: int, r: int, fallback: string)
    requires o.Valid() && o.color != ""
    ensures StyleAfter(s, SetBorderStyleArgs(c, t, r, StyleObj(o), fallback)) == o
  {
  }

  /** Merging any style takes its sizes, raised to 5, whatever its colour. */
  lemma MergeSizes(s: Style, o: Style, c: string, t: int, r: int, fallback: string)
    ensures var after := StyleAfter(s, SetBorderStyleArgs(c, t, r, StyleObj(o), fallback));
      after.thickness == Max(MIN_THICKNESS, o.thickness) && after.radius == Max(MIN_RADIUS, o.radius)
  {
  }

  /** With its default arguments `setBorderStyle` sets thickness and radius to 5 and leaves a
      set colour alone; an unset one takes the stripped fallback. */
  lemma SetBorderStyleDefaults(s: Style, fallback: string)
    ensures StyleAfter(s, SetBorderStyleArgs("", -1, -1, NoObj, fallback))
         == Style(MIN_THICKNESS, MIN_RADIUS, if s.color != "" then s.color else Strip(fallback))
  {
    assert Strip("") == "";
  }

  function IntToString(n: int): string {
    if n < 0 then "-" + NatToString(-n) else NatToString(n)
  }

  const SheetHead: string := "#" + OBJECTNAME + " { "
  const RadiusLead: string := " border-width: 1px; border-style: solid; border-radius: "
  const BackgroundLead: string := "background-color: "
  const BorderColorLead: string := "; border-color: "

  function ColorPart(color: string): string {
    if color != "" then BackgroundLead + (color + (BorderColorLead + (color + "; "))) else ""
  }

  /** The `stylesheet` property: the rule for the widget's object name with the border radius
      and, when a colour is set, the background and border colour. */
  function Stylesheet(s: Style): string {
    SheetHead + (RadiusLead + (IntToString(s.radius) + ("px; " + (ColorPart(s.color) + " }"))))
  }

  lemma CancelPrefix(p: string, x: string, y: string)
    requires p + x == p + y
    ensures x == y
  {
    assert (p + x)[|p|..] == x && (p + y)[|p|..] == y;
  }

  lemma CancelSuffix(x: string, y: string, q: string)
    requires x + q == y + q
    ensures x == y
  {
    assert (x + q)[..|x|] == x && (y + q)[..|y|] == y;
  }

  /** Regrouping the pieces the `stylesheet` property appends one after another. */
  lemma Regroup(h: string, r: string, i: string, p: string, c: string, t: string)
    ensures h + (r + i + p + c) + t == h + (r + (i + (p + (c + t))))
  {
  }

  lemma ColorPartInjective(a: string, b: string)
    requires ColorPart(a) == ColorPart(b)
    ensures a == b
  {
    if a != "" && b != "" {
      var ta, tb := BorderColorLead + (a + "; "), BorderColorLead + (b + "; ");
      CancelPrefix(BackgroundLead, a + ta, b + tb);
      assert |a| == |b|;
      assert (a + ta)[..|a|] == a && (b + tb)[..|b|] == b;
    }
  }

  /** The style sheet of a style with a non-negative radius determines its radius and its
      colour. */
  lemma StylesheetInjective(a: Style, b: Style)
    requires a.radius >= 0 && b.radius >= 0 && Stylesheet(a) == Stylesheet(b)
    ensures a.radius == b.radius && a.color == b.color
  {
    var da, db := NatToString(a.radius), NatToString(b.radius);
    var ca, cb := ColorPart(a.color) + " }", ColorPart(b.color) + " }";
    var ta, tb := "px; " + ca, "px; " + cb;
    CancelPrefix(SheetHead, RadiusLead + (da + ta), RadiusLead + (db + tb));
    CancelPrefix(RadiusLead, da + ta, db + tb);
    assert ta[0] == 'p' && tb[0] == 'p';
    DigitPrefixLengthOf(da, ta);
    DigitPrefixLengthOf(db, tb);
    assert da == (da + ta)[..|da|] && db == (db + tb)[..|db|];
    DigitsValueOfNatToString(a.radius);
    DigitsValueOfNatToString(b.radius);
    CancelPrefix(da, ta, tb);
    CancelPrefix("px; ", ca, cb);
    CancelSuffix(ColorPart(a.color), ColorPart(b.color), " }");
    ColorPartInjective(a.color, b.color);
  }

  /** A colour as `QColor` reports its components. */
  datatype Rgb = Rgb(red: nat, green: nat, blue: nat)

  /** `__bg_color`: the palette background, each component raised by 10, as a CSS colour. */
  function BgColor(c: Rgb): (r: string)
    ensures Strip(r) == r && r != ""
  {
    var r := "rgb(" + NatToString(c.red + 10) + ", " + NatToString(c.green + 10) + ", "
             + NatToString(c.blue + 10) + ")";
    assert r[0] == 'r' && r[|r| - 1] == ')';
    StripFixed(r);
    r
  }

  /** `ResizableFramelessWidget.BorderStyle`. */
  class BorderStyle {
    var thickness: int
    var color: string
    var radius: int

    function Snapshot(): Style
      reads this
    {
      Style(thickness, radius, color)
    }

    constructor (a: StyleArgs)
      ensures Snapshot() == StyleAfter(DefaultStyle, a)
    {
      thickness := MIN_THICKNESS;
      color := "";
      radius := MIN_RADIUS;
      new;
      SetStyle(a);
    }

    method SetStyle(a: StyleArgs)
      modifies this
      ensures Snapshot() == StyleAfter(old(Snapshot()), a)
      decreases if a.obj.StyleObj? then 1 else 0
    {
      if a.obj.StyleObj? {
        SetStyle(ObjArgs(a.obj.style, a));
      } else {
        if a.thickness.Some? {
          thickness := Max(MIN_THICKNESS, a.thickness.value);
        }
        if a.radius.Some? {
          radius := Max(MIN_RADIUS, a.radius.value);
        }
        if color != "" {
          var c := Strip(a.color.GetOr(""));
          if c != "" {
            color := c;
          }
        } else {
          var c := Strip(a.color.GetOr(""));
          var fallback := Strip(a.fallback.GetOr(""));
          if c != "" {
            color := c;
          } else {
            color := fallback;
          }
        }
      }
    }

    /** The `stylesheet` property, as a method on the live object. */
    method StylesheetOf() returns (sheet: string)
      ensures sheet == Stylesheet(Snapshot())
    {
      sheet := RadiusLead + IntToString(radius) + "px; ";
      var plain := sheet;
      if color != "" {
        sheet := sheet + ColorPart(color);
      }
      assert sheet == plain + ColorPart(color);
      sheet := SheetHead + sheet + " }";
      Regroup(SheetHead, RadiusLead, IntToString(radius), "px; ", ColorPart(color), " }");
    }
  }

  /** What `event` does: it returns a value, or raises because the paint branch calls a
      `_custom_repaint` that is not defined. */
  datatype EventResult = Returns(value: bool) | RaisesAttributeError

  function CustomStep(s: Gesture, ev: Event, t: int): (Gesture, EventResult) {
    if ev.Paint? then (s, RaisesAttributeError)
    else (ManualStep(s, ev, t).0, Returns(ManualStep(s, ev, t).1))
  }

  /** Paint events raise; every other event returns True exactly when it is a mouse move, and
      keeps a consistent state consistent. */
  lemma CustomStepOutcome(s: Gesture, ev: Event, t: int)
    requires Consistent(s)
    ensures var (s', r) := CustomStep(s, ev, t);
      && (r == RaisesAttributeError <==> ev.Paint?)
      && (r == Returns(true) <==> ev.Mouse? && ev.action == Move)
      && Consistent(s')
  {
    ManualStepConsistent(s, ev, t);
    ManualStepHandled(s, ev, t);
  }

  /** `ResizableFramelessWidget`. `layoutMargins` is `None` when the widget has no layout. */
  class ResizableFramelessWidget {
    const borderStyle: BorderStyle
    var palette: Rgb
    var layoutMargins: Option<Margins>
    var contentsMargins: Margins
    var geometry: Rect
    var cursor: Option<CursorShape>
    var resizeActive: bool
    var offendingBorder: Flag

    function State(): Gesture
      reads this
    {
      Gesture(resizeActive, offendingBorder, cursor, geometry)
    }

    constructor (palette: Rgb, layoutMargins: Option<Margins>, contentsMargins: Margins, geometry: Rect)
      ensures fresh(borderStyle) && borderStyle.Snapshot() == DefaultStyle
      ensures State() == Gesture(false, UNSET, None, geometry)
      ensures this.palette == palette && this.layoutMargins == layoutMargins
      ensures this.contentsMargins == contentsMargins
    {
      borderStyle := new BorderStyle(StyleArgs(None, None, None, None, NoObj));
      this.palette := palette;
      this.layoutMargins := layoutMargins;
      this.contentsMargins := contentsMargins;
      this.geometry := geometry;
      cursor := None;
      resizeActive := false;
      offendingBorder := UNSET;
    }

    /** `setBorderStyle`: the style update, then all four margins of the layout (or, without
        one, of the widget) set to the thickness, at least 5. */
    method SetBorderStyle(borderColor: string, borderThickness: int, borderRadius: int, borderStyleArg: ObjArg)
      modifies this, borderStyle
      ensures borderStyle.Snapshot() == StyleAfter(old(borderStyle.Snapshot()),
        SetBorderStyleArgs(borderColor, borderThickness, borderRadius, borderStyleArg, BgColor(palette)))
      ensures var m := Uniform(Max(MIN_BORDER_WIDTH, borderStyle.thickness));
        if old(layoutMargins).Some? then layoutMargins == Some(m) && contentsMargins == old(contentsMargins)
        else contentsMargins == m && layoutMargins == old(layoutMargins)
      ensures State() == old(State()) && palette == old(palette)
    {
      borderStyle.SetStyle(SetBorderStyleArgs(borderColor, borderThickness, borderRadius, borderStyleArg,
                                              BgColor(palette)));
      var val := Max(MIN_BORDER_WIDTH, borderStyle.thickness);
      if layoutMargins.Some? {
        layoutMargins := Some(Uniform(val));
      } else {
        contentsMargins := Uniform(val);
      }
    }

    method Event(ev: Event) returns (r: EventResult)
      modifies this
      ensures (State(), r) == CustomStep(old(State()), ev, borderStyle.thickness)
      ensures palette == old(palette) && layoutMargins == old(layoutMargins)
      ensures contentsMargins == old(contentsMargins)
    {
      var t := borderStyle.thickness;
      if ev.Mouse? {
        var p := ev.pos;
        if ev.action == Press {
          var border := HoveredBorder(p.x, p.y, geometry.w, geometry.h, t);
          resizeActive := border != UNSET;
          offendingBorder := border;
        } else if ev.action == Release {
          if resizeActive {
            resizeActive := false;
          }
          offendingBorder := UNSET;
        } else if ev.action == Move {
          if !resizeActive {
            cursor := CursorFor(HoveredBorder(p.x, p.y, geometry.w, geometry.h, t));
          } else {
            geometry := DragGeometry(geometry, offendingBorder, ev.globalPos);
          }
          return Returns(true);
        }
      } else if ev.Paint? {
        return RaisesAttributeError;
      }
      r := Returns(false);
    }
  }
}
