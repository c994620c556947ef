/**
 * The widget primitives of the dashboard: the eight-colour palette, text
 * labels whose colour is addressed by palette index, the two-rectangle
 * progress bar, and the generic container widget with an optional frame,
 * an optional title and an ordered content group.
 *
 * Rectangles and groups of the display library are plain records and
 * small classes here; fonts, anchors and scales of labels are not modelled.
 */
module Ui {
  import opened Builtins

  /** The palette, as RGB values, in index order. */
  const Palette: seq<int> :=
    [0x000000, 0x000080, 0x008000, 0x008080, 0x800000, 0x800080, 0x808000, 0x808080]

  /** Index of the grey used for outlines and frames. */
  const Grey: nat := 7

  /** The colour a label has until one is set: the label library's default,
      white, which is not a palette entry. */
  const LabelDefaultColor: int := 0xFFFFFF

  lemma PaletteDistinct()
    ensures |Palette| == 8 && Distinct(Palette) && LabelDefaultColor !in Palette
  {
  }

  /** Reading back a colour set by palette index gives that index, because
      no two palette entries are equal. */
  lemma {:induction false} ColorCodeRoundTrip(code: nat)
    requires code < |Palette|
    ensures IndexOf(Palette, Palette[code]) == Some(code)
  {
    PaletteDistinct();
    IndexOfDistinct(Palette, code);
  }

  /** A rectangle of the display library: position, size, and optional
      outline and fill colours (RGB). */
  datatype Rect = Rect(x: int, y: int, width: int, height: int, outline: Option<int>, fill: Option<int>)

  /** A text label. `text` is whatever was last assigned to it, which the
      weather widget can make `None`. */
  class Text {
    var text: Option<string>
    var color: int

    constructor (text: string, color: int)
      ensures this.text == Some(text) && this.color == color
    {
      this.text := Some(text);
      this.color := color;
    }

    /** The `color_code` getter: the palette index of the current colour,
        `None` where `palette.index` raises because the colour is not in
        the palette. */
    function ColorCode(): (r: Option<nat>)
      reads this
      ensures r.None? <==> color !in Palette
      ensures r.Some? ==> r.value < |Palette| && Palette[r.value] == color
    {
      IndexOf(Palette, color)
    }

    /** The `color_code` setter. */
    method SetColorCode(code: nat)
      requires code < |Palette|
      modifies this
      ensures color == Palette[code] && text == old(text)
      ensures ColorCode() == Some(code)
    {
      color := Palette[code];
      ColorCodeRoundTrip(code);
    }

    /** The `value` getter: it ignores the label and yields `None`. */
    function Value(): (r: Option<string>)
      ensures r.None?
    {
      None
    }

    /** The `value` setter: it sets the text. */
    method SetValue(s: string)
      modifies this
      ensures text == Some(s) && color == old(color)
    {
      text := Some(s);
    }
  }

  // -----------------------------------------------------------------------
  // Progress bar

  /** Palette index of the bar for a percentage: green above 50, yellow
      above 25 up to 50, red at 25 and below. */
  function TierColor(percent: int): (r: nat)
    ensures r < |Palette|
    ensures r == 2 <==> percent > 50
    ensures r == 6 <==> 25 < percent <= 50
    ensures r == 4 <==> percent <= 25
  {
    if percent > 50 then 2 else if percent > 25 then 6 else 4
  }

  /** Width of the filled bar: `percent` per cent of the inner width
      `width - 2`, rounded to the nearest integer with ties to even. */
  function BarWidth(width: int, percent: int): int {
    RoundHalfEven(BarFraction(width, percent))
  }

  /** `(width - 2) / 100 * percent`, computed exactly. */
  function BarFraction(width: int, percent: int): real {
    (width - 2) as real / 100.0 * percent as real
  }

  /** The filled bar a percentage is drawn as. */
  function Bar(width: int, percent: int): Rect {
    Rect(1, 1, BarWidth(width, percent), 3, None, Some(Palette[TierColor(percent)]))
  }

  /** A percentage in 0..100 of a non-negative length lies between zero and
      that length. */
  lemma FractionBounds(length: real, percent: real)
    requires length >= 0.0 && 0.0 <= percent <= 100.0
    ensures 0.0 <= length / 100.0 * percent <= length
  {
    var unit := length / 100.0;
    assert unit * percent <= unit * 100.0;
  }

  /** For a percentage in 0..100 the bar fits inside the outline: empty at
      0, full at 100, and never shrinking as the percentage grows. */
  lemma {:induction false} BarWidthBounds(width: int, percent: int)
    requires width >= 2 && 0 <= percent <= 100
    ensures 0 <= BarWidth(width, percent) <= width - 2
    ensures percent == 0 ==> BarWidth(width, percent) == 0
    ensures percent == 100 ==> BarWidth(width, percent) == width - 2
  {
    var inner := (width - 2) as real;
    var x := BarFraction(width, percent);
    assert x == inner / 100.0 * percent as real;
    FractionBounds(inner, percent as real);
    assert inner / 100.0 * percent as real <= inner;
    assert x <= inner;
    RoundMonotone(0.0, x);
    RoundMonotone(x, inner);
    RoundNearest(0.0, 0);
    RoundNearest(inner, width - 2);
  }

  lemma {:induction false} BarWidthMonotone(width: int, p: int, q: int)
    requires width >= 2 && p <= q
    ensures BarWidth(width, p) <= BarWidth(width, q)
  {
    var rate := (width - 2) as real / 100.0;
    assert BarFraction(width, p) <= BarFraction(width, q) by {
      assert rate >= 0.0;
      assert BarFraction(width, q) - BarFraction(width, p) == rate * (q - p) as real;
    }
    RoundMonotone(BarFraction(width, p), BarFraction(width, q));
  }

  /** A progress bar: a group of two rectangles, the outline (child 0) and
      the filled bar (child 1). */
  class Progress {
    const x: int
    const y: int
    const width: int
    /** The value the getter reports; set once, to 100. */
    var stored: int
    var children: seq<Rect>

    ghost predicate Valid()
      reads this
    {
      |children| == 2
    }

    constructor (x: int, y: int, color: nat, width: int)
      requires color < |Palette|
      ensures Valid() && this.x == x && this.y == y && this.width == width
      ensures children == [Rect(0, 0, width, 5, Some(Palette[color]), None),
                           Rect(1, 1, width - 2, 3, None, None)]
      ensures Value() == 100
    {
      this.x, this.y, this.width := x, y, width;
      stored := 100;
      children := [Rect(0, 0, width, 5, Some(Palette[color]), None),
                   Rect(1, 1, width - 2, 3, None, None)];
    }

    /** The `value` getter. */
    function Value(): int
      reads this
    {
      stored
    }

    /** The `value` setter: it replaces the bar (child 1) by one of the
        percentage's width and tier colour, and changes nothing else; in
        particular the getter's value stays as it was. */
    method SetValue(percent: int)
      requires Valid()
      modifies this
      ensures Valid()
      ensures children == old(children)[1 := Bar(width, percent)]
      ensures children[0] == old(children[0])
      ensures Value() == old(Value())
    {
      var barSize := BarWidth(width, percent);
      var colorIndex: nat;
      if percent > 50 {
        colorIndex := 2;
      } else if percent > 25 {
        colorIndex := 6;
      } else {
        colorIndex := 4;
      }
      children := children[1 := Rect(1, 1, barSize, 3, None, Some(Palette[colorIndex]))];
    }
  }

  // -----------------------------------------------------------------------
  // Container widget

  /** A group of the display library: an offset and the items it holds, in
      drawing order. */
  class Group {
    const x: int
    const y: int
    var items: seq<object>

    constructor (x: int, y: int)
      ensures this.x == x && this.y == y && items == []
    {
      this.x, this.y := x, y;
      items := [];
    }

    method Append(item: object)
      modifies this
      ensures items == old(items) + [item]
    {
      items := items + [item];
    }
  }

  /** A direct child of a widget: its frame rectangle, its title label
      (text and position), or the content group. */
  datatype Child = Frame(rect: Rect) | Title(text: string, x: int, y: int) | Body(group: Group)

  /** The shape of a child, without object identity. */
  datatype Slot = FrameSlot(rect: Rect) | TitleSlot(text: string, x: int, y: int) | BodySlot(x: int, y: int)

  function SlotOf(c: Child): Slot {
    match c
    case Frame(r) => FrameSlot(r)
    case Title(t, x, y) => TitleSlot(t, x, y)
    case Body(g) => BodySlot(g.x, g.y)
  }

  function Slots(cs: seq<Child>): (r: seq<Slot>)
    ensures |r| == |cs|
    ensures forall i :: 0 <= i < |cs| ==> r[i] == SlotOf(cs[i])
  {
    if cs == [] then [] else [SlotOf(cs[0])] + Slots(cs[1..])
  }

  /** The children a widget of the given size, padding and title starts
      with: a frame iff both size components and the padding are positive,
      then a title iff both size components are positive and the title is
      not empty, then always the content group, offset by twice the
      padding. */
  function Layout(width: int, height: int, padding: int, title: string): (r: seq<Slot>)
    ensures |r| == (if width > 0 && height > 0 && padding > 0 then 1 else 0)
                  + (if width > 0 && height > 0 && |title| > 0 then 1 else 0) + 1
    ensures r[|r| - 1] == BodySlot(2 * padding, 2 * padding)
    ensures r[0].FrameSlot? <==> width > 0 && height > 0 && padding > 0
    ensures r[0].FrameSlot? ==>
      r[0].rect == Rect(padding, padding, width - 2 * padding, height - 2 * padding, Some(Palette[Grey]), None)
    ensures (exists i :: 0 <= i < |r| && r[i].TitleSlot?) <==> width > 0 && height > 0 && |title| > 0
    ensures forall i :: 0 <= i < |r| && r[i].TitleSlot? ==>
      i == |r| - 2 && r[i] == TitleSlot(" " + title + " ", padding + 4, padding)
    ensures forall i :: 0 < i < |r| ==> !r[i].FrameSlot?
  {
    var frame :=
      if width > 0 && height > 0 && padding > 0
      then [FrameSlot(Rect(padding, padding, width - 2 * padding, height - 2 * padding, Some(Palette[Grey]), None))]
      else [];
    var heading :=
      if width > 0 && height > 0 && |title| > 0
      then [TitleSlot(" " + title + " ", padding + 4, padding)]
      else [];
    var r := frame + heading + [BodySlot(2 * padding, 2 * padding)];
    assert heading != [] ==> r[|r| - 2] == heading[0];
    r
  }

  /** The container widget. Its children are fixed at construction; the
      content group then receives the given items in order. */
  class Widget {
    const x: int
    const y: int
    const scale: int
    var children: seq<Child>
    const content: Group

    ghost predicate Valid()
      reads this
    {
      |children| >= 1 && children[|children| - 1] == Body(content)
    }

    function Shape(): seq<Slot>
      reads this
    {
      Slots(children)
    }

    constructor (width: int, height: int, x: int, y: int, padding: int, scale: int,
                 title: string, items: seq<object>)
      ensures Valid() && fresh(content)
      ensures this.x == x && this.y == y && this.scale == scale
      ensures Shape() == Layout(width, height, padding, title)
      ensures content.items == items
    {
      this.x, this.y, this.scale := x, y, scale;
      var cs: seq<Child> := [];
      if width > 0 && height > 0 {
        if padding > 0 {
          cs := cs + [Frame(Rect(padding, padding, width - 2 * padding, height - 2 * padding,
                                 Some(Palette[Grey]), None))];
        }
        if |title| > 0 {
          cs := cs + [Title(" " + title + " ", padding + 4, padding)];
        }
      }
      var group := new Group(padding * 2, padding * 2);
      content := group;
      children := cs + [Body(group)];
      new;
      AppendContent(items);
    }

    /** Appends the items to the content group, one by one, in order. */
    method AppendContent(items: seq<object>)
      modifies content
      ensures content.items == old(content.items) + items
    {
      var i := 0;
      while i < |items|
        invariant 0 <= i <= |items|
        invariant content.items == old(content.items) + items[..i]
      {
        content.Append(items[i]);
        i := i + 1;
      }
      assert items[..i] == items;
    }
  }
}
