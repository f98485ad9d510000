/** The OLED screens' layout logic: the 7-segment digit, the progress bar,
    the header, and the classification and placement on the temperature,
    network and Home Assistant status screens.

    A drawing is the list of draw calls a screen makes on the canvas, in
    order. Fonts, images and the pixel rasteriser are not modelled; a
    number printed with an f-string appears as a `Figure` carrying the
    value and the number of decimals rather than as formatted text. */
module Screens {
  import opened Wrappers
  import opened Numbers
  import opened Json
  import SystemInfo
  import Supervisor

  /** `fill=0` and `fill=255` on the monochrome display. */
  datatype Ink = Dark | Lit

  /** The corners `(x0, y0, x1, y1)` the drawing calls take. */
  datatype Box = Box(x0: int, y0: int, x1: int, y1: int)

  datatype Label =
    | Plain(text: string)
    /** `f"{prefix}{value:.{places}f}{suffix}"` */
    | Figure(prefix: string, value: real, places: nat, suffix: string)
    /** `f"{prefix}{n}"` for an integer `n` */
    | Count(prefix: string, n: int)

  /** One draw call: `rectangle(box, fill, outline)`, `line` and `point`
      (always lit), and `text`. */
  datatype Shape =
    | Rect(box: Box, fill: Option<Ink>, outline: Option<Ink>)
    | Line(x0: int, y0: int, x1: int, y1: int)
    | Point(x: int, y: int)
    | Text(x: int, y: int, caption: Label, ink: Ink)

  /** The box spans no more than `outer`. */
  predicate Within(b: Box, outer: Box) {
    outer.x0 <= b.x0 <= b.x1 <= outer.x1 && outer.y0 <= b.y0 <= b.y1 <= outer.y1
  }

  /** Every pixel the shape lights lies inside `outer`. */
  predicate Inside(s: Shape, outer: Box) {
    match s
    case Rect(b, _, _) => Within(b, outer)
    case Line(x0, y0, x1, y1) => Within(Box(x0, y0, x1, y1), outer)
    case Point(x, y) => Within(Box(x, y, x, y), outer)
    case Text(_, _, _, _) => false
  }

  /** The number of rectangles in a drawing. */
  function RectCount(shapes: seq<Shape>): nat {
    if |shapes| == 0 then 0
    else (if shapes[0].Rect? then 1 else 0) + RectCount(shapes[1..])
  }

  lemma RectCountAppend(a: seq<Shape>, b: seq<Shape>)
    ensures RectCount(a + b) == RectCount(a) + RectCount(b)
  {
    if |a| > 0 {
      assert (a + b)[1..] == a[1..] + b;
      RectCountAppend(a[1..], b);
    } else {
      assert a + b == b;
    }
  }

  // ---------------------------------------------------------------------
  // Header
  // ---------------------------------------------------------------------

  /** `draw_header`: an inverted bar across the top with dark text, the
      icon and a space in front when there is one. */
  function DrawHeader(text: string, icon: string): (r: seq<Shape>)
    ensures |r| == 2 && r[0] == Rect(Box(0, 0, 127, 14), Some(Lit), None)
    ensures r[1].Text? && r[1].ink == Dark && r[1].x == 5 && r[1].y == 2
    ensures |icon| == 0 ==> r[1].caption == Plain(text)
    ensures |icon| > 0 ==> r[1].caption == Plain(icon + " " + text)
  {
    [Rect(Box(0, 0, 127, 14), Some(Lit), None),
     Text(5, 2, Plain(if |icon| > 0 then icon + " " + text else text), Dark)]
  }

  // ---------------------------------------------------------------------
  // The 7-segment digit
  // ---------------------------------------------------------------------

  /** Which of the segments a (top), b (top right), c (bottom right),
      d (bottom), e (bottom left), f (top left) and g (middle) each digit
      lights. */
  function Segments(digit: int): (r: seq<bool>)
    requires 0 <= digit <= 9
    ensures |r| == 7
  {
    match digit
    case 0 => [true, true, true, true, true, true, false]
    case 1 => [false, true, true, false, false, false, false]
    case 2 => [true, true, false, true, true, false, true]
    case 3 => [true, true, true, true, false, false, true]
    case 4 => [false, true, true, false, false, true, true]
    case 5 => [true, false, true, true, false, true, true]
    case 6 => [true, false, true, true, true, true, true]
    case 7 => [true, true, true, false, false, false, false]
    case 8 => [true, true, true, true, true, true, true]
    case _ => [true, true, true, true, false, true, true]
  }

  /** The usual 7-segment stroke count of each digit. */
  const StrokeCounts: seq<nat> := [6, 2, 5, 5, 4, 5, 6, 3, 7, 6]

  /** The rectangle of one segment for segment width `w`, thickness `h`
      and vertical length `v`, with the digit's corner at `(x, y)`. */
  function SegmentBox(segment: nat, x: int, y: int, w: int, h: int, v: int): Box
    requires segment < 7
  {
    match segment
    case 0 => Box(x + h, y, x + h + w, y + h)
    case 1 => Box(x + h + w, y + h, x + h + w + h, y + h + v)
    case 2 => Box(x + h + w, y + h + v + h, x + h + w + h, y + h + v + h + v)
    case 3 => Box(x + h, y + h + v + h + v, x + h + w, y + h + v + h + v + h)
    case 4 => Box(x, y + h + v + h, x + h, y + h + v + h + v)
    case 5 => Box(x, y + h, x + h, y + h + v)
    case _ => Box(x + h, y + h + v, x + h + w, y + h + v + h)
  }

  /** The area a digit occupies: two thicknesses and a segment wide, three
      thicknesses and two vertical segments high. */
  function DigitBounds(x: int, y: int, w: int, h: int, v: int): Box {
    Box(x, y, x + 2 * h + w, y + 3 * h + 2 * v)
  }

  /** The number of lit segments from position `from` on. */
  function LitCount(segs: seq<bool>): nat {
    if |segs| == 0 then 0 else (if segs[0] then 1 else 0) + LitCount(segs[1..])
  }

  /** The filled rectangles of the lit segments from `from` on, in the
      order a to g. */
  function LitSegments(segs: seq<bool>, from: nat, x: int, y: int, w: int, h: int, v: int): (r: seq<Shape>)
    requires |segs| == 7 && from <= 7
    ensures |r| == LitCount(segs[from..])
    ensures forall i :: 0 <= i < |r| ==> r[i].Rect? && r[i].fill == Some(Lit) && r[i].outline.None?
    ensures w >= 0 && h >= 0 && v >= 0 ==>
      forall i :: 0 <= i < |r| ==> Inside(r[i], DigitBounds(x, y, w, h, v))
    decreases 7 - from
  {
    if from == 7 then []
    else
      var rest := LitSegments(segs, from + 1, x, y, w, h, v);
      assert segs[from..][1..] == segs[from + 1..];
      if segs[from] then [Rect(SegmentBox(from, x, y, w, h, v), Some(Lit), None)] + rest
      else rest
  }

  /** `_draw_segment_digit`: the lit segments of `digit` at scale `scale`;
      a value outside 0..9 draws nothing. */
  function DrawSegmentDigit(x: int, y: int, digit: int, scale: real): (r: seq<Shape>)
    ensures !(0 <= digit <= 9) ==> r == []
    ensures 0 <= digit <= 9 ==> |r| == LitCount(Segments(digit))
    ensures forall i :: 0 <= i < |r| ==> r[i].Rect? && r[i].fill == Some(Lit)
    ensures scale >= 0.0 ==> forall i :: 0 <= i < |r| ==>
      Inside(r[i], DigitBounds(x, y, Trunc(8.0 * scale), Trunc(2.0 * scale), Trunc(10.0 * scale)))
  {
    if 0 <= digit <= 9 then
      LitSegments(Segments(digit), 0, x, y, Trunc(8.0 * scale), Trunc(2.0 * scale), Trunc(10.0 * scale))
    else []
  }

  /** Each digit draws exactly its usual number of strokes: eight draws all
      seven, one draws two. */
  lemma DigitStrokeCounts(x: int, y: int, digit: int, scale: real)
    requires 0 <= digit <= 9
    ensures |DrawSegmentDigit(x, y, digit, scale)| == StrokeCounts[digit]
  {
    TableRowCount(digit);
  }

  /** The row of `digit` in the segment table lights its stroke count. */
  lemma TableRowCount(digit: int)
    requires 0 <= digit <= 9
    ensures LitCount(Segments(digit)) == StrokeCounts[digit]
  {
    LitCountOfSeven(Segments(digit));
  }

  function Bit(b: bool): nat {
    if b then 1 else 0
  }

  lemma LitCountOfSeven(segs: seq<bool>)
    requires |segs| == 7
    ensures LitCount(segs) == Bit(segs[0]) + Bit(segs[1]) + Bit(segs[2]) + Bit(segs[3])
      + Bit(segs[4]) + Bit(segs[5]) + Bit(segs[6])
  {
    LitCountStep(segs, 0);
    LitCountStep(segs, 1);
    LitCountStep(segs, 2);
    LitCountStep(segs, 3);
    LitCountStep(segs, 4);
    LitCountStep(segs, 5);
    LitCountStep(segs, 6);
    assert segs[7..] == [];
  }

  lemma LitCountStep(segs: seq<bool>, k: nat)
    requires k < |segs|
    ensures LitCount(segs[k..]) == Bit(segs[k]) + LitCount(segs[k + 1..])
  {
    assert segs[k..][1..] == segs[k + 1..];
  }

  /** At scale 1 the digit 8 fills a 12 by 26 pixel cell. */
  lemma DigitEightAtScaleOne(x: int, y: int)
    ensures |DrawSegmentDigit(x, y, 8, 1.0)| == 7
    ensures forall i :: 0 <= i < 7 ==> Inside(DrawSegmentDigit(x, y, 8, 1.0)[i], Box(x, y, x + 12, y + 26))
  {
    DigitStrokeCounts(x, y, 8, 1.0);
  }

  // ---------------------------------------------------------------------
  // The progress bar
  // ---------------------------------------------------------------------

  /** `range(start, stop, step)` for a positive step. */
  function Range(start: int, stop: int, step: nat): (r: seq<int>)
    requires step > 0
    ensures forall k :: 0 <= k < |r| ==> start <= r[k] < stop
    ensures start < stop <==> |r| > 0
    ensures |r| > 0 ==> r[0] == start && r[|r| - 1] + step >= stop
    ensures forall k :: 0 <= k < |r| - 1 ==> r[k + 1] == r[k] + step
    decreases stop - start
  {
    if start >= stop then [] else [start] + Range(start + step, stop, step)
  }

  /** `int((percentage / 100) * width)`. */
  function BarWidth(percentage: real, width: int): int {
    Trunc(percentage / 100.0 * width as real)
  }

  /** A percentage in [0, 100] fills between none and all of the bar:
      none at 0 and all at 100. */
  lemma BarWidthBounds(p: real, width: int)
    requires 0.0 <= p <= 100.0 && width >= 0
    ensures 0 <= BarWidth(p, width) <= width
    ensures BarWidth(0.0, width) == 0 && BarWidth(100.0, width) == width
  {
    var w := width as real;
    ScaleMonotone(p / 100.0, 1.0, w);
    ScaleMonotone(0.0, p / 100.0, w);
    TruncMonotone(p / 100.0 * w, w);
    TruncMonotone(0.0, p / 100.0 * w);
    assert 100.0 / 100.0 * w == w;
  }

  /** More percent never fills less of the bar. */
  lemma BarWidthMonotone(p: real, q: real, width: int)
    requires p <= q && width >= 0
    ensures BarWidth(p, width) <= BarWidth(q, width)
  {
    ScaleMonotone(p / 100.0, q / 100.0, width as real);
    TruncMonotone(p / 100.0 * width as real, q / 100.0 * width as real);
  }

  lemma ScaleMonotone(a: real, b: real, c: real)
    requires a <= b && c >= 0.0
    ensures a * c <= b * c
  {
    assert b * c - a * c == (b - a) * c;
  }

  /** One vertical line for each column in `xs`. */
  function Stripes(xs: seq<int>, y: int, height: int): (r: seq<Shape>)
    ensures |r| == |xs|
    ensures forall k :: 0 <= k < |r| ==> r[k] == Line(xs[k], y, xs[k], y + height)
  {
    if |xs| == 0 then [] else [Line(xs[0], y, xs[0], y + height)] + Stripes(xs[1..], y, height)
  }

  /** One point for each pair of a column in `xs` and a row in `ys`, column
      by column. */
  function Dots(xs: seq<int>, ys: seq<int>): (r: seq<Shape>)
    ensures |r| == |xs| * |ys|
    ensures forall k :: 0 <= k < |r| ==> r[k].Point? && r[k].x in xs && r[k].y in ys
  {
    if |xs| == 0 then []
    else
      var column := seq(|ys|, k requires 0 <= k < |ys| => Point(xs[0], ys[k]));
      var rest := Dots(xs[1..], ys);
      assert |xs| * |ys| == |ys| + (|xs| - 1) * |ys|;
      column + rest
  }

  /** The fill `fillWidth` pixels long of a bar in one of the styles: one
      rectangle, lines every third column, or points on every second
      column and row; an unknown style leaves the bar empty. */
  function BarFill(x: int, y: int, fillWidth: int, height: int, style: string): (r: seq<Shape>)
    requires height >= 0
    ensures style == "solid" ==> r == [Rect(Box(x, y, x + fillWidth, y + height), Some(Lit), None)]
    ensures style != "solid" ==> forall k :: 0 <= k < |r| ==> !r[k].Rect?
    ensures fillWidth >= 0 ==>
      forall k :: 0 <= k < |r| ==> Inside(r[k], Box(x, y, x + fillWidth, y + height))
    ensures style == "striped" ==> r == Stripes(Range(x, x + fillWidth, 3), y, height)
    ensures style != "solid" && style != "striped" && style != "dotted" ==> r == []
  {
    if style == "solid" then
      [Rect(Box(x, y, x + fillWidth, y + height), Some(Lit), None)]
    else if style == "striped" then StripedFill(x, y, fillWidth, height)
    else if style == "dotted" then DottedFill(x, y, fillWidth, height)
    else []
  }

  /** Lines every third column of the fill. */
  function StripedFill(x: int, y: int, fillWidth: int, height: int): (r: seq<Shape>)
    requires height >= 0
    ensures r == Stripes(Range(x, x + fillWidth, 3), y, height)
    ensures forall k :: 0 <= k < |r| ==> r[k].Line?
    ensures forall k :: 0 <= k < |r| ==> Inside(r[k], Box(x, y, x + fillWidth, y + height))
  {
    Stripes(Range(x, x + fillWidth, 3), y, height)
  }

  /** Points on every second column and row of the fill. */
  function DottedFill(x: int, y: int, fillWidth: int, height: int): (r: seq<Shape>)
    requires height >= 0
    ensures forall k :: 0 <= k < |r| ==> r[k].Point?
    ensures forall k :: 0 <= k < |r| ==> Inside(r[k], Box(x, y, x + fillWidth, y + height))
  {
    var r := Dots(Range(x, x + fillWidth, 2), Range(y, y + height, 2));
    DotsInside(r, Range(x, x + fillWidth, 2), Range(y, y + height, 2), Box(x, y, x + fillWidth, y + height));
    r
  }

  lemma DotsInside(r: seq<Shape>, xs: seq<int>, ys: seq<int>, outer: Box)
    requires forall k :: 0 <= k < |r| ==> r[k].Point? && r[k].x in xs && r[k].y in ys
    requires forall k :: 0 <= k < |xs| ==> outer.x0 <= xs[k] <= outer.x1
    requires forall k :: 0 <= k < |ys| ==> outer.y0 <= ys[k] <= outer.y1
    ensures forall k :: 0 <= k < |r| ==> Inside(r[k], outer)
  {
  }

  lemma NoRectsUnlessSolid(fill: seq<Shape>, style: string)
    requires style != "solid" ==> forall k :: 0 <= k < |fill| ==> !fill[k].Rect?
    ensures style != "solid" ==> RectCount(fill) == 0
  {
    if style != "solid" {
      NoRects(fill);
    }
  }

  lemma NoRects(shapes: seq<Shape>)
    requires forall k :: 0 <= k < |shapes| ==> !shapes[k].Rect?
    ensures RectCount(shapes) == 0
  {
    if |shapes| > 0 {
      NoRects(shapes[1..]);
    }
  }

  /** The outline of a bar. */
  function BarOutline(x: int, y: int, width: int, height: int): Shape {
    Rect(Box(x, y, x + width, y + height), Some(Dark), Some(Lit))
  }

  /** The warning block right of a bar. */
  function WarningBlock(x: int, y: int, width: int, height: int): Shape {
    Rect(Box(x + width + 3, y, x + width + 6, y + height), Some(Lit), None)
  }

  /** `draw_progress_bar`: the outline, the fill in the chosen style, the
      warning block above 80 percent, and the value with its unit right of
      the bar when a font is given. */
  function DrawProgressBar(x: int, y: int, width: int, height: int, percentage: real,
                           font: bool, unit: string, style: string): (r: seq<Shape>)
    requires height >= 0
    ensures |r| >= 1 && r[0] == BarOutline(x, y, width, height)
    ensures font <==> r[|r| - 1] == Text(x + width + 8, y, Figure("", percentage, 0, unit), Lit)
    ensures RectCount(r) == 1 + (if style == "solid" then 1 else 0) + (if percentage > 80.0 then 1 else 0)
  {
    var fill := BarFill(x, y, BarWidth(percentage, width), height, style);
    var warning := if percentage > 80.0 then [WarningBlock(x, y, width, height)] else [];
    var value := if font then [Text(x + width + 8, y, Figure("", percentage, 0, unit), Lit)] else [];
    NoRectsUnlessSolid(fill, style);
    RectCountAppend([BarOutline(x, y, width, height)], fill);
    RectCountAppend([BarOutline(x, y, width, height)] + fill, warning);
    RectCountAppend([BarOutline(x, y, width, height)] + fill + warning, value);
    assert RectCount(value) == 0;
    [BarOutline(x, y, width, height)] + fill + warning + value
  }

  /** A solid bar draws at least two rectangles, and at least three once
      the warning block shows. */
  lemma SolidBarRectangles(x: int, y: int, width: int, height: int, percentage: real, font: bool, unit: string)
    requires height >= 0
    ensures RectCount(DrawProgressBar(x, y, width, height, percentage, font, unit, "solid")) >= 2
    ensures percentage > 80.0 ==>
      RectCount(DrawProgressBar(x, y, width, height, percentage, font, unit, "solid")) >= 3
  {
  }

  /** The warning block is drawn exactly when the value is above 80. */
  lemma WarningIffAboveEighty(x: int, y: int, width: int, height: int, percentage: real,
                              font: bool, unit: string, style: string)
    requires height >= 0 && width >= 0
    ensures WarningBlock(x, y, width, height) in DrawProgressBar(x, y, width, height, percentage, font, unit, style)
      <==> percentage > 80.0
  {
    if percentage > 80.0 {
      WarningShownAboveEighty(x, y, width, height, percentage, font, unit, style);
    } else {
      WarningHiddenUpToEighty(x, y, width, height, percentage, font, unit, style);
    }
  }

  lemma WarningShownAboveEighty(x: int, y: int, width: int, height: int, percentage: real,
                                font: bool, unit: string, style: string)
    requires height >= 0 && percentage > 80.0
    ensures WarningBlock(x, y, width, height) in DrawProgressBar(x, y, width, height, percentage, font, unit, style)
  {
    var fill := BarFill(x, y, BarWidth(percentage, width), height, style);
    var value := if font then [Text(x + width + 8, y, Figure("", percentage, 0, unit), Lit)] else [];
    var r := [BarOutline(x, y, width, height)] + fill + [WarningBlock(x, y, width, height)] + value;
    assert r == DrawProgressBar(x, y, width, height, percentage, font, unit, style);
    assert r[1 + |fill|] == WarningBlock(x, y, width, height);
  }

  lemma WarningHiddenUpToEighty(x: int, y: int, width: int, height: int, percentage: real,
                                font: bool, unit: string, style: string)
    requires height >= 0 && width >= 0 && percentage <= 80.0
    ensures WarningBlock(x, y, width, height) !in DrawProgressBar(x, y, width, height, percentage, font, unit, style)
  {
    var fill := BarFill(x, y, BarWidth(percentage, width), height, style);
    var value := if font then [Text(x + width + 8, y, Figure("", percentage, 0, unit), Lit)] else [];
    WarningNotInFill(x, y, BarWidth(percentage, width), width, height, style);
    assert DrawProgressBar(x, y, width, height, percentage, font, unit, style)
      == [BarOutline(x, y, width, height)] + fill + value;
  }

  /** No shape of a fill, whatever its style, is the warning block. */
  lemma WarningNotInFill(x: int, y: int, fillWidth: int, width: int, height: int, style: string)
    requires height >= 0 && width >= 0
    ensures WarningBlock(x, y, width, height) !in BarFill(x, y, fillWidth, height, style)
  {
    var fill := BarFill(x, y, fillWidth, height, style);
    forall k | 0 <= k < |fill|
      ensures fill[k] != WarningBlock(x, y, width, height)
    {
      if style == "solid" {
        assert fill[k].box.x0 == x;
      }
    }
  }

  /** For a percentage in [0, 100] the fill stays inside the outline, in
      every style. */
  lemma FillInsideOutline(x: int, y: int, width: int, height: int, percentage: real, style: string)
    requires 0.0 <= percentage <= 100.0 && width >= 0 && height >= 0
    ensures forall k :: 0 <= k < |BarFill(x, y, BarWidth(percentage, width), height, style)| ==>
      Inside(BarFill(x, y, BarWidth(percentage, width), height, style)[k], Box(x, y, x + width, y + height))
  {
    BarWidthBounds(percentage, width);
    var bw := BarWidth(percentage, width);
    var fill := BarFill(x, y, bw, height, style);
    forall k | 0 <= k < |fill|
      ensures Inside(fill[k], Box(x, y, x + width, y + height))
    {
      InsideWider(fill[k], Box(x, y, x + bw, y + height), Box(x, y, x + width, y + height));
    }
  }

  lemma InsideWider(s: Shape, inner: Box, outer: Box)
    requires Inside(s, inner) && Within(inner, outer)
    ensures Inside(s, outer)
  {
  }

  // ---------------------------------------------------------------------
  // The CPU screen's temperature bar
  // ---------------------------------------------------------------------

  /** The unit shown after a temperature. */
  function TempUnitLabel(unit: string): string {
    if unit == "F" then "°F" else "°C"
  }

  /** The temperature bar of `draw_cpu` as written: the temperature itself
      is passed as the bar's percentage. */
  function CpuTempBarAsWritten(unit: string, cpuTemp: real): (r: seq<Shape>)
    ensures |r| >= 2 && r[0] == BarOutline(5, 57, 90, 6)
    ensures r[1] == Rect(Box(5, 57, 5 + BarWidth(cpuTemp, 90), 63), Some(Lit), None)
  {
    DrawProgressBar(5, 57, 90, 6, cpuTemp, true, TempUnitLabel(unit), "solid")
  }

  /** A 140 °F reading fills 126 pixels of a 90-pixel bar, past the right
      edge of the 128-pixel display. */
  lemma CpuTempBarOverflows()
    ensures CpuTempBarAsWritten("F", 140.0)[1].box.x1 == 131
    ensures !Inside(CpuTempBarAsWritten("F", 140.0)[1], Box(5, 57, 95, 63))
  {
    assert 140.0 / 100.0 * 90.0 == 126.0;
  }

  /** `temp_percent`: the reading's place in 20..80 °C, or 68..176 °F for
      any other unit, clamped to [0, 100]. */
  function TempPercent(unit: string, cpuTemp: real): (r: real)
    ensures 0.0 <= r <= 100.0
    ensures unit == "C" && 20.0 <= cpuTemp <= 80.0 ==> r == (cpuTemp - 20.0) / 60.0 * 100.0
    ensures unit != "C" && 68.0 <= cpuTemp <= 176.0 ==> r == (cpuTemp - 68.0) / 108.0 * 100.0
    ensures unit == "C" ==> (cpuTemp <= 20.0 ==> r == 0.0) && (cpuTemp >= 80.0 ==> r == 100.0)
    ensures unit != "C" ==> (cpuTemp <= 68.0 ==> r == 0.0) && (cpuTemp >= 176.0 ==> r == 100.0)
  {
    var low := if unit == "C" then 20.0 else 68.0;
    var high := if unit == "C" then 80.0 else 176.0;
    ClampReal(0.0, 100.0, (cpuTemp - low) / (high - low) * 100.0)
  }

  /** The temperature bar with `temp_percent` as its fill, and the reading
      itself as the figure beside it. */
  function CpuTempBar(unit: string, cpuTemp: real): (r: seq<Shape>)
    ensures |r| >= 2 && r[0] == BarOutline(5, 57, 90, 6)
    ensures r[|r| - 1] == Text(103, 57, Figure("", cpuTemp, 0, TempUnitLabel(unit)), Lit)
  {
    DrawProgressBar(5, 57, 90, 6, TempPercent(unit, cpuTemp), false, "", "solid")
      + [Text(103, 57, Figure("", cpuTemp, 0, TempUnitLabel(unit)), Lit)]
  }

  /** Whatever the reading, the corrected bar's fill stays inside its
      outline, and it is the same fill in either unit. */
  lemma CpuTempBarStaysInside(unit: string, cpuTemp: real)
    ensures CpuTempBar(unit, cpuTemp)[1].Rect?
    ensures Inside(CpuTempBar(unit, cpuTemp)[1], Box(5, 57, 95, 63))
    ensures CpuTempBar("F", SystemInfo.Fahrenheit(cpuTemp))[1] == CpuTempBar("C", cpuTemp)[1]
  {
    var p := TempPercent(unit, cpuTemp);
    FillInsideOutline(5, 57, 90, 6, p, "solid");
    var f := SystemInfo.Fahrenheit(cpuTemp);
    assert (f - 68.0) / 108.0 * 100.0 == (cpuTemp - 20.0) / 60.0 * 100.0;
    assert TempPercent("F", f) == TempPercent("C", cpuTemp);
  }

  // ---------------------------------------------------------------------
  // The temperature screen
  // ---------------------------------------------------------------------

  datatype TempStatus = Normal | Warm | Hot

  function Severity(s: TempStatus): nat {
    match s
    case Normal => 0
    case Warm => 1
    case Hot => 2
  }

  function StatusText(s: TempStatus): string {
    match s
    case Normal => "NORMAL"
    case Warm => "WARM"
    case Hot => "HOT"
  }

  /** The classification in `draw_temp`: below 50 °C normal, below 70 °C
      warm, else hot; any unit other than "C" is read in °F with the bands
      122 and 158. */
  function ClassifyTemp(unit: string, cpuTemp: real): (r: TempStatus)
    ensures unit == "C" ==> (r == Normal <==> cpuTemp < 50.0) && (r == Hot <==> cpuTemp >= 70.0)
    ensures unit != "C" ==> (r == Normal <==> cpuTemp < 122.0) && (r == Hot <==> cpuTemp >= 158.0)
  {
    var (warm, hot) := if unit == "C" then (50.0, 70.0) else (122.0, 158.0);
    if cpuTemp < warm then Normal else if cpuTemp < hot then Warm else Hot
  }

  /** A hotter reading never shows a milder status. */
  lemma ClassifyTempMonotone(unit: string, t1: real, t2: real)
    requires t1 <= t2
    ensures Severity(ClassifyTemp(unit, t1)) <= Severity(ClassifyTemp(unit, t2))
  {
  }

  /** The °F bands are the °C bands converted: a reading classifies the same
      in either unit. */
  lemma FahrenheitBandsAgree(celsius: real)
    ensures ClassifyTemp("F", SystemInfo.Fahrenheit(celsius)) == ClassifyTemp("C", celsius)
  {
  }

  /** `draw_temp`: the header, the reading with one decimal and its unit,
      and the status word. */
  function DrawTemp(unit: string, cpuTemp: real): (r: seq<Shape>)
    ensures |r| == 4 && r[..2] == DrawHeader("Temperature", "")
    ensures r[2] == Text(25, 30, Figure("", cpuTemp, 1, TempUnitLabel(unit)), Lit)
    ensures r[3].Text? && r[3].x == 40 && r[3].y == 52
    ensures r[3].caption == Plain("HOT") <==> Severity(ClassifyTemp(unit, cpuTemp)) == 2
    ensures r[3].caption == Plain("NORMAL") <==> Severity(ClassifyTemp(unit, cpuTemp)) == 0
    ensures r[3].caption == Plain("WARM") <==>
      (if unit == "C" then 50.0 <= cpuTemp < 70.0 else 122.0 <= cpuTemp < 158.0)
  {
    DrawHeader("Temperature", "")
      + [Text(25, 30, Figure("", cpuTemp, 1, TempUnitLabel(unit)), Lit),
         Text(40, 52, Plain(StatusText(ClassifyTemp(unit, cpuTemp))), Lit)]
  }

  // ---------------------------------------------------------------------
  // The network screen
  // ---------------------------------------------------------------------

  /** The address as shown: at most its first 15 characters. */
  function IpDisplay(ip: string): (r: string)
    ensures |r| <= 15 && |r| <= |ip| && r == ip[..|r|]
    ensures |ip| <= 15 <==> r == ip
  {
    if |ip| <= 15 then ip else ip[..15]
  }

  /** `max(10, (128 - len * 8) // 2)`: the left edge that centres text of
      `len` 8-pixel characters, but never closer than 10 to the edge. */
  function IpTextX(len: nat): int {
    var centred := FloorDiv(128 - len * 8, 2);
    if centred > 10 then centred else 10
  }

  /** The shown text starts between 10 and 64; up to 13 characters it is
      exactly centred on the 128-pixel display, and from 14 on it sits at
      the margin of 10. */
  lemma IpTextPlacement(ip: string)
    ensures 10 <= IpTextX(|IpDisplay(ip)|) <= 64
    ensures |IpDisplay(ip)| <= 13 ==> 2 * IpTextX(|IpDisplay(ip)|) + 8 * |IpDisplay(ip)| == 128
    ensures |IpDisplay(ip)| >= 14 ==> IpTextX(|IpDisplay(ip)|) == 10
  {
  }

  /** `draw_ip`: the header, a frame, the centred address and the
      connection status. */
  function DrawIp(ip: string): (r: seq<Shape>)
    ensures |r| == 5 && r[..2] == DrawHeader("Network", "")
    ensures r[2] == Rect(Box(5, 22, 122, 50), None, Some(Lit))
    ensures r[3] == Text(IpTextX(|IpDisplay(ip)|), 30, Plain(IpDisplay(ip)), Lit)
    ensures r[4].Text? && r[4].x == 35 && r[4].y == 54
    ensures r[4].caption == Plain("CONNECTED") <==> ip != Supervisor.NoNetwork
    ensures r[4].caption == Plain("DISCONNECTED") <==> ip == Supervisor.NoNetwork
  {
    var display := IpDisplay(ip);
    DrawHeader("Network", "")
      + [Rect(Box(5, 22, 122, 50), None, Some(Lit)),
         Text(IpTextX(|display|), 30, Plain(display), Lit),
         Text(35, 54, Plain(if ip != Supervisor.NoNetwork then "CONNECTED" else "DISCONNECTED"), Lit)]
  }

  // ---------------------------------------------------------------------
  // The Home Assistant status screen
  // ---------------------------------------------------------------------

  /** The box and mark beside the update count: a lit box with a dark "!"
      when updates are waiting, an empty box with "OK" otherwise. */
  function UpdateIndicator(updates: int): (r: seq<Shape>)
    ensures |r| == 2 && r[0].Rect? && r[0].box == Box(95, 20, 122, 31)
    ensures updates > 0 <==> r[1] == Text(100, 20, Plain("!"), Dark)
    ensures updates <= 0 <==> r[1] == Text(100, 20, Plain("OK"), Lit)
  {
    if updates > 0 then [Rect(Box(95, 20, 122, 31), Some(Lit), Some(Lit)), Text(100, 20, Plain("!"), Dark)]
    else [Rect(Box(95, 20, 122, 31), Some(Dark), Some(Lit)), Text(100, 20, Plain("OK"), Lit)]
  }

  /** The box and mark beside the backup line: "OK" exactly for the state
      "OK". */
  function BackupIndicator(backupState: string): (r: seq<Shape>)
    ensures |r| == 2 && r[0].Rect? && r[0].box == Box(95, 33, 122, 44)
    ensures backupState == "OK" <==> r[1] == Text(100, 33, Plain("OK"), Lit)
    ensures backupState != "OK" <==> r[1] == Text(100, 33, Plain("!"), Dark)
  {
    if backupState == "OK" then [Rect(Box(95, 33, 122, 44), Some(Dark), Some(Lit)), Text(100, 33, Plain("OK"), Lit)]
    else [Rect(Box(95, 33, 122, 44), Some(Lit), Some(Lit)), Text(100, 33, Plain("!"), Dark)]
  }

  /** The backup line's text. A recorded date is shown as the day the
      `formatDate` oracle gives for it (None when `fromisoformat` raises);
      a value that is not text cannot be parsed either. Without a date,
      or with the date "Unknown", the backup state is shown. */
  function BackupText(lastBackup: Json, backupState: string, formatDate: string -> Option<string>): (r: string)
    ensures !Truthy(lastBackup) || lastBackup == JStr("Unknown") ==> r == "Backup: " + backupState
    ensures Truthy(lastBackup) && lastBackup.JStr? && lastBackup.s != "Unknown" && formatDate(lastBackup.s).Some? ==>
      r == "Backup: " + formatDate(lastBackup.s).value
    ensures Truthy(lastBackup) && lastBackup != JStr("Unknown") && !(lastBackup.JStr? && formatDate(lastBackup.s).Some?) ==>
      r == "Backup: Parse Err"
  {
    if Truthy(lastBackup) && lastBackup != JStr("Unknown") then
      match lastBackup
      case JStr(s) =>
        (match formatDate(s)
         case Some(day) => "Backup: " + day
         case None => "Backup: Parse Err")
      case _ => "Backup: Parse Err"
    else "Backup: " + backupState
  }

  /** `draw_ha_status`: the header, the update count and its indicator, the
      backup line and its indicator. */
  function DrawHaStatus(status: Supervisor.StatusInfo, formatDate: string -> Option<string>): (r: seq<Shape>)
    ensures |r| == 8 && r[..2] == DrawHeader("HA Status", "")
    ensures r[2] == Text(5, 20, Count("Updates: ", status.updates), Lit)
    ensures r[3..5] == UpdateIndicator(status.updates)
    ensures r[5] == Text(5, 33, Plain(BackupText(status.lastBackup, status.backupState, formatDate)), Lit)
    ensures r[6..] == BackupIndicator(status.backupState)
  {
    DrawHeader("HA Status", "")
      + [Text(5, 20, Count("Updates: ", status.updates), Lit)]
      + UpdateIndicator(status.updates)
      + [Text(5, 33, Plain(BackupText(status.lastBackup, status.backupState, formatDate)), Lit)]
      + BackupIndicator(status.backupState)
  }

  /** The "!" beside the update count appears exactly when an update is
      waiting, and the backup "OK" exactly when the backup state is "OK". */
  lemma HaStatusMarks(status: Supervisor.StatusInfo, formatDate: string -> Option<string>)
    ensures Text(100, 20, Plain("!"), Dark) in DrawHaStatus(status, formatDate) <==> status.updates > 0
    ensures Text(100, 33, Plain("OK"), Lit) in DrawHaStatus(status, formatDate) <==> status.backupState == "OK"
  {
    var r := DrawHaStatus(status, formatDate);
    if status.updates > 0 {
      assert r[4] == Text(100, 20, Plain("!"), Dark);
    } else {
      assert forall k :: 0 <= k < |r| ==> r[k] != Text(100, 20, Plain("!"), Dark);
    }
    if status.backupState == "OK" {
      assert r[7] == Text(100, 33, Plain("OK"), Lit);
    } else {
      assert forall k :: 0 <= k < |r| ==> r[k] != Text(100, 33, Plain("OK"), Lit);
    }
  }
}
