/**
 * Sizing the chart to the window.
 *
 * The plot width is the chart element's width less the left and right
 * margins and the legend, capped at 2000 pixels. The height wants to be
 * `(1 - 1/numDays)` of the width but is capped by the window height less the
 * top and bottom margins and 50 more pixels. The fonts shrink on plots
 * narrower than 600 pixels, and each day's bar gets an equal share of the
 * plotting height split over `numDays + 10` rows. Lengths are exact reals
 * here where the chart computes in floating point.
 */
module Layout {

  datatype Margin = Margin(top: int, right: int, bottom: int, left: int)

  const ChartMargin: Margin := Margin(25, 10, 25, 100)
  const LegendWidth: int := 120
  const WidthCap: int := 2000
  const HeightReserve: int := 50
  const NarrowWidth: int := 600
  const BarPadding: int := 10

  const SmallFont: string := "0.8rem"
  const NormalFont: string := "1rem"
  const SmallLargeFont: string := "1.25rem"
  const NormalLargeFont: string := "1.5rem"

  datatype Plan = Plan(
    width: int,
    desiredHeight: real,
    maxHeight: int,
    height: real,
    fontSize: string,
    largeFontSize: string,
    barHeight: int)

  /** The width left for the plot in a chart element `clientWidth` wide. */
  function AvailableWidth(clientWidth: int): int {
    clientWidth - ChartMargin.left - ChartMargin.right - LegendWidth
  }

  /** The height left for the plot in a window `innerHeight` high. */
  function AvailableHeight(innerHeight: int): int {
    innerHeight - ChartMargin.top - ChartMargin.bottom - HeightReserve
  }

  /** `(1 - 1/numDays)` of `width`: the height that would give a chart of
      `numDays` days the proportions the chart aims for. */
  function DesiredHeight(numDays: int, width: int): (h: real)
    requires numDays >= 1
    ensures h * numDays as real == ((numDays - 1) * width) as real
  {
    var n := numDays as real;
    assert (1.0 / n) * n == 1.0;
    assert (1.0 - 1.0 / n) * width as real * n == width as real * n - width as real * ((1.0 / n) * n);
    (1.0 - 1.0 / n) * width as real
  }

  /** `Math.floor(x / d)` for a positive divisor. */
  function FloorDiv(x: real, d: real): (q: int)
    requires d > 0.0
    ensures q as real * d <= x < (q + 1) as real * d
  {
    var y := x / d;
    var q := y.Floor;
    var low := q as real;
    var high := (q + 1) as real;
    assert y * d == x;
    assert low <= y < high;
    FloorScales(low, y, d);
    FloorScales(y, high, d);
    assert y * d < high * d;
    assert x < high * d;
    q
  }

  lemma FloorScales(a: real, b: real, d: real)
    requires d > 0.0
    ensures a <= b ==> a * d <= b * d
    ensures a < b ==> a * d < b * d
  {
  }

  /** The geometry of a chart of `numDays` days in a chart element
      `clientWidth` wide and a window `innerHeight` high. */
  function PlanChart(numDays: int, clientWidth: int, innerHeight: int): (p: Plan)
    requires numDays >= 1
    ensures p.width <= WidthCap && p.width <= AvailableWidth(clientWidth)
    ensures p.width == WidthCap || p.width == AvailableWidth(clientWidth)
    ensures p.desiredHeight * numDays as real == ((numDays - 1) * p.width) as real
    ensures p.maxHeight == AvailableHeight(innerHeight)
    ensures p.height <= p.desiredHeight && p.height <= p.maxHeight as real
    ensures p.height == p.desiredHeight || p.height == p.maxHeight as real
    ensures p.width < NarrowWidth ==> p.fontSize == SmallFont && p.largeFontSize == SmallLargeFont
    ensures p.width >= NarrowWidth ==> p.fontSize == NormalFont && p.largeFontSize == NormalLargeFont
    ensures
      var plotHeight := p.height - (ChartMargin.top + ChartMargin.bottom) as real;
      var rows := (numDays + BarPadding) as real;
      p.barHeight as real * rows <= plotHeight < (p.barHeight + 1) as real * rows
  {
    var maxWidth := AvailableWidth(clientWidth);
    var width := if maxWidth > WidthCap then WidthCap else maxWidth;
    var desiredHeight := DesiredHeight(numDays, width);
    var maxHeight := AvailableHeight(innerHeight);
    var height := if desiredHeight > maxHeight as real then maxHeight as real else desiredHeight;
    var narrow := width < NarrowWidth;
    var plotHeight := height - (ChartMargin.top + ChartMargin.bottom) as real;
    var rows := (numDays + BarPadding) as real;
    var barHeight := FloorDiv(plotHeight, rows);
    Plan(
      width := width,
      desiredHeight := desiredHeight,
      maxHeight := maxHeight,
      height := height,
      fontSize := if narrow then SmallFont else NormalFont,
      largeFontSize := if narrow then SmallLargeFont else NormalLargeFont,
      barHeight := barHeight)
  }

  /** The plot has some width exactly when the chart element is wider than
      the margins and legend together, 230 pixels. */
  lemma WidthIsPositiveIff(numDays: int, clientWidth: int, innerHeight: int)
    requires numDays >= 1
    ensures PlanChart(numDays, clientWidth, innerHeight).width > 0 <==> clientWidth > 230
  {
  }

  /** The desired height lies between zero and the width, reaching zero
      for a single day and falling short of the width for any day count. */
  lemma {:induction false} DesiredHeightWithinWidth(numDays: int, width: int)
    requires numDays >= 1 && width >= 0
    ensures 0.0 <= DesiredHeight(numDays, width) <= width as real
    ensures DesiredHeight(numDays, width) == 0.0 <==> numDays == 1 || width == 0
    ensures width > 0 ==> DesiredHeight(numDays, width) < width as real
  {
    var h := DesiredHeight(numDays, width);
    var n := numDays as real;
    var w := width as real;
    SignOfProduct(h, n, ((numDays - 1) * width) as real);
    SignOfProduct(w - h, n, w);
  }

  /** The sign of `h` is that of `h * n` for positive `n`. */
  lemma SignOfProduct(h: real, n: real, c: real)
    requires n > 0.0 && h * n == c
    ensures h > 0.0 <==> c > 0.0
    ensures h == 0.0 <==> c == 0.0
  {
  }

  lemma PositiveProduct(a: int, b: int)
    requires a >= 0
    ensures a * b > 0 <==> a > 0 && b > 0
  {
    if a > 0 && b > 0 {
      assert a * b >= b;
    } else if a == 0 {
    } else {
      assert a * b <= 0;
    }
  }

  /** More days never ask for less height. */
  lemma MoreDaysAreTaller(fewer: int, more: int, width: int)
    requires 1 <= fewer <= more && width >= 0
    ensures DesiredHeight(fewer, width) <= DesiredHeight(more, width)
  {
    var a := DesiredHeight(fewer, width);
    var b := DesiredHeight(more, width);
    var w := width as real;
    assert a == w - w / fewer as real by {
      assert a * fewer as real == ((fewer - 1) * width) as real;
    }
    assert b == w - w / more as real by {
      assert b * more as real == ((more - 1) * width) as real;
    }
    DivisionShrinks(w, fewer as real, more as real);
  }

  /** Dividing a non-negative length by a larger divisor never gives more. */
  lemma DivisionShrinks(w: real, a: real, b: real)
    requires 0.0 < a <= b && w >= 0.0
    ensures w / b <= w / a
  {
    var x := w / a;
    var y := w / b;
    assert x * a == w && y * b == w;
    assert x >= 0.0;
    if y > x {
      FloorScales(x, y, b);
      FloorScales(a, b, x);
      assert false;
    }
  }

  /** The plot gets some height exactly when there are at least two days,
      some width, and some room in the window. */
  lemma HeightIsPositiveIff(numDays: int, clientWidth: int, innerHeight: int)
    requires numDays >= 1
    ensures var p := PlanChart(numDays, clientWidth, innerHeight);
      p.height > 0.0 <==> numDays > 1 && p.width > 0 && p.maxHeight > 0
  {
    var p := PlanChart(numDays, clientWidth, innerHeight);
    var c := (numDays - 1) * p.width;
    SignOfProduct(p.desiredHeight, numDays as real, c as real);
    PositiveProduct(numDays - 1, p.width);
    assert p.desiredHeight > 0.0 <==> numDays > 1 && p.width > 0;
    assert p.height > 0.0 <==> p.desiredHeight > 0.0 && p.maxHeight > 0;
  }

  /** A single day leaves the plot no height, and each bar then gets a
      negative height of at most -5 pixels. */
  lemma SingleDayCollapses(clientWidth: int, innerHeight: int)
    ensures var p := PlanChart(1, clientWidth, innerHeight);
      p.desiredHeight == 0.0 && p.height <= 0.0 && p.barHeight <= -5
  {
    var p := PlanChart(1, clientWidth, innerHeight);
    assert p.desiredHeight == 0.0;
  }

  /** One day in a chart element 1000 pixels wide and a window 800 pixels
      high: a 770-pixel-wide plot of zero height and bars of height -5. */
  lemma SingleDayScenario()
    ensures var p := PlanChart(1, 1000, 800);
      && p.width == 770
      && p.desiredHeight == 0.0
      && p.maxHeight == 700
      && p.height == 0.0
      && p.barHeight == -5
      && p.fontSize == NormalFont
  {
    var p := PlanChart(1, 1000, 800);
    assert p.barHeight as real * 11.0 <= -50.0 < (p.barHeight + 1) as real * 11.0;
  }
}
