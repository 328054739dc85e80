/** The stacked horizontal bar chart: its colour matrix, the placement of
    the bars of each series, and the annotation of the highlighted year's two
    segments (charts.py). Of the plotting library, only the list of patches an
    axes holds and the texts placed on it are modelled. */
module Charts {
  import opened Builtins
  import Parsing

  const BLUE: string := "#4389E3"
  const RED: string := "#CC2F4A"
  const LIGHT_BLUE: string := "#CBCFDC"
  const LIGHT_RED: string := "#DEB3B3"
  /** The plotting library's default bar height; a bar is centred on its category. */
  const BAR_HEIGHT: real := 0.8

  /** f"{i}" for each year. */
  function Labels(years: seq<int>): (ls: seq<string>)
    requires forall k :: 0 <= k < |years| ==> years[k] >= 0
    ensures |ls| == |years|
  {
    seq(|years|, k requires 0 <= k < |years| => NatToString(years[k]))
  }

  /** The category labels of the chart, one per election year. */
  const YEARS: seq<string> := Labels(Range(2000, 2024, 4))

  lemma YearStrings()
    ensures NatToString(2000) == "2000" && NatToString(2004) == "2004" && NatToString(2008) == "2008"
    ensures NatToString(2012) == "2012" && NatToString(2016) == "2016" && NatToString(2020) == "2020"
  {
    assert NatToString(20) == "20";
    assert NatToString(200) == "200" && NatToString(201) == "201";
  }

  /** The labels are the six years as text. */
  lemma YearsLabels()
    ensures YEARS == ["2000", "2004", "2008", "2012", "2016", "2020"]
  {
    Parsing.YearsValues();
    YearStrings();
    var years := Range(2000, 2024, 4);
    assert years == [2000, 2004, 2008, 2012, 2016, 2020];
    var expected := ["2000", "2004", "2008", "2012", "2016", "2020"];
    forall k | 0 <= k < 6
      ensures Labels(years)[k] == expected[k]
    {
    }
  }

  /** Distinct years give distinct labels: a label's digits denote its year. */
  lemma LabelsDistinct(years: seq<int>)
    requires forall k :: 0 <= k < |years| ==> years[k] >= 0
    requires forall a, b :: 0 <= a < b < |years| ==> years[a] != years[b]
    ensures Distinct(Labels(years))
  {
    forall a, b | 0 <= a < b < |years|
      ensures Labels(years)[a] != Labels(years)[b]
    {
      NatToStringValue(years[a]);
      NatToStringValue(years[b]);
    }
  }

  /** Six labels, no two alike, as the categorical axis needs. */
  lemma YearsDistinct()
    ensures |YEARS| == 6 && Distinct(YEARS)
  {
    Parsing.YearsValues();
    LabelsDistinct(Range(2000, 2024, 4));
  }

  /** A bar of the chart: its lower-left corner, its extent and its colour. */
  datatype Patch = Patch(x: real, y: real, width: real, height: real, color: string)

  /** A centred text placed on the chart; `value` is the percentage it shows. */
  datatype Annotation = Annotation(at: (real, real), value: real)

  function Zeros(n: nat): seq<real>
  {
    seq(n, _ => 0.0)
  }

  /** [x] * n: the list holding x n times. */
  function Repeat<T>(x: T, n: nat): (r: seq<T>)
    ensures |r| == n
    ensures forall j :: 0 <= j < n ==> r[j] == x
  {
    if n == 0 then [] else Repeat(x, n - 1) + [x]
  }

  predicate Distinct(labels: seq<string>)
  {
    forall a, b :: 0 <= a < b < |labels| ==> labels[a] != labels[b]
  }

  /** The bars one horizontal-bar call adds: bar j sits on category j. */
  function Bars(widths: seq<real>, colors: seq<string>, left: seq<real>): seq<Patch>
    requires |colors| == |widths| && |left| == |widths|
  {
    seq(|widths|, j requires 0 <= j < |widths| =>
      Patch(left[j], j as real - BAR_HEIGHT / 2.0, widths[j], BAR_HEIGHT, colors[j]))
  }

  /** The axes a chart is drawn on: the rectangles drawn so far, in drawing
      order, and the texts placed on it. */
  class Axes {
    var patches: seq<Patch>
    var texts: seq<Annotation>

    constructor ()
      ensures patches == [] && texts == []
    {
      patches := [];
      texts := [];
    }

    /** barh(labels, widths, color=colors, left=left): one bar per value,
        appended to the patches. */
    method Barh(labels: seq<string>, widths: seq<real>, colors: seq<string>, left: seq<real>)
      requires Distinct(labels)
      requires |widths| == |labels| && |colors| == |labels| && |left| == |labels|
      modifies this
      ensures patches == old(patches) + Bars(widths, colors, left)
      ensures texts == old(texts)
    {
      patches := patches + Bars(widths, colors, left);
    }

    /** text(x, y, value, ha="center", va="center"). */
    method Text(x: real, y: real, value: real)
      modifies this
      ensures texts == old(texts) + [Annotation((x, y), value)]
      ensures patches == old(patches)
    {
      texts := texts + [Annotation((x, y), value)];
    }
  }

  // ---------------------------------------------------------------------------
  // draw_bar_chart
  // ---------------------------------------------------------------------------

  /** Every one of the first n series has m values and m colours. */
  predicate Shaped(values: seq<seq<real>>, colors: seq<seq<string>>, m: nat, n: nat)
  {
    n <= |values| && n <= |colors|
    && forall i :: 0 <= i < n ==> |values[i]| == m && |colors[i]| == m
  }

  /** Where the bars of series i start: at zero for the first series, at the
      previous series' values for every later one. */
  function LeftEdge(values: seq<seq<real>>, m: nat, i: nat): (left: seq<real>)
    requires i < |values| && (i > 0 ==> |values[i - 1]| == m)
    ensures |left| == m
    ensures i == 0 ==> forall j :: 0 <= j < m ==> left[j] == 0.0
    ensures i > 0 ==> left == values[i - 1]
  {
    if i == 0 then Zeros(m) else values[i - 1]
  }

  /** The patches drawn for the first n series, series after series. */
  function StackedBars(values: seq<seq<real>>, colors: seq<seq<string>>, m: nat, n: nat): seq<Patch>
    requires Shaped(values, colors, m, n)
  {
    if n == 0 then []
    else StackedBars(values, colors, m, n - 1) + Bars(values[n - 1], colors[n - 1], LeftEdge(values, m, n - 1))
  }

  lemma {:induction false} StackedBarsLength(values: seq<seq<real>>, colors: seq<seq<string>>, m: nat, n: nat)
    requires Shaped(values, colors, m, n)
    ensures |StackedBars(values, colors, m, n)| == n * m
  {
    if n > 0 {
      StackedBarsLength(values, colors, m, n - 1);
      assert (n - 1) * m + m == n * m;
    }
  }

  /** Patch i*m + j is bar j of series i: it has that series' value as width
      and colour, starts at zero for series 0 and at the previous series' value
      otherwise, and is centred on category j. */
  lemma {:induction false} StackedBarsAt(values: seq<seq<real>>, colors: seq<seq<string>>, m: nat, n: nat, i: nat, j: nat)
    requires Shaped(values, colors, m, n)
    requires i < n && j < m
    ensures |StackedBars(values, colors, m, n)| == n * m
    ensures i * m + j < n * m
    ensures StackedBars(values, colors, m, n)[i * m + j]
            == Patch(if i == 0 then 0.0 else values[i - 1][j], j as real - BAR_HEIGHT / 2.0,
                     values[i][j], BAR_HEIGHT, colors[i][j])
  {
    StackedBarsLength(values, colors, m, n);
    StackedBarsLength(values, colors, m, n - 1);
    if i == n - 1 {
      assert i * m + j == (n - 1) * m + j;
    } else {
      StackedBarsAt(values, colors, m, n - 1, i, j);
    }
  }

  /** draw_bar_chart(y, values, colors, ax): one horizontal-bar call per pair
      of a value series and a colour series, the first starting at zero and
      each later one at the previous series' values. */
  method DrawBarChart(y: seq<string>, values: seq<seq<real>>, colors: seq<seq<string>>, ax: Axes)
    requires Distinct(y)
    requires Shaped(values, colors, |y|, if |values| < |colors| then |values| else |colors|)
    modifies ax
    ensures ax.patches == old(ax.patches)
                          + StackedBars(values, colors, |y|, if |values| < |colors| then |values| else |colors|)
    ensures ax.texts == old(ax.texts)
  {
    var i := 0;
    while i < |values| && i < |colors|
      invariant 0 <= i <= |values| && i <= |colors|
      invariant ax.patches == old(ax.patches) + StackedBars(values, colors, |y|, i)
      invariant ax.texts == old(ax.texts)
    {
      if i > 0 {
        ax.Barh(y, values[i], colors[i], values[i - 1]);
      } else {
        ax.Barh(y, values[i], colors[i], Zeros(|y|));
      }
      i := i + 1;
    }
  }

  // ---------------------------------------------------------------------------
  // add_annot
  // ---------------------------------------------------------------------------

  /** The midpoint of a patch, equally far from its two vertical and its two
      horizontal edges. */
  function Centre(p: Patch): (c: (real, real))
    ensures c.0 - p.x == (p.x + p.width) - c.0
    ensures c.1 - p.y == (p.y + p.height) - c.1
  {
    (p.x + p.width / 2.0, p.y + p.height / 2.0)
  }

  /** The position a list index (negative ones counting from the end) denotes. */
  function ListIndex(length: nat, k: int): (p: nat)
    requires -(length as int) <= k < length
    ensures p < length
    ensures k >= 0 ==> p == k
    ensures k < 0 ==> p == length + k
  {
    if k < 0 then length + k else k
  }

  /** add_annot(text, patch_number, ax): the text goes at the centre of the
      chosen patch; nothing else changes. */
  method AddAnnot(value: real, patchNumber: int, ax: Axes)
    requires -(|ax.patches| as int) <= patchNumber < |ax.patches|
    modifies ax
    ensures ax.patches == old(ax.patches)
    ensures ax.texts == old(ax.texts)
                        + [Annotation(Centre(ax.patches[ListIndex(|ax.patches|, patchNumber)]), value)]
  {
    var patch := ax.patches[ListIndex(|ax.patches|, patchNumber)];
    var width, height := patch.width, patch.height;
    var x, y := patch.x, patch.y;
    ax.Text(x + width / 2.0, y + height / 2.0, value);
  }

  // ---------------------------------------------------------------------------
  // create_chart
  // ---------------------------------------------------------------------------

  /** The colour matrix once the highlighted row is set: the accent colour of
      each side at row_number, its light colour everywhere else. */
  function ChartColors(rowNumber: nat): (colors: seq<seq<string>>)
    requires rowNumber < 6
    ensures |colors| == 2 && |colors[0]| == 6 && |colors[1]| == 6
    ensures forall j :: 0 <= j < 6 ==>
              colors[0][j] == (if j == rowNumber then BLUE else LIGHT_BLUE)
              && colors[1][j] == (if j == rowNumber then RED else LIGHT_RED)
  {
    [Repeat(LIGHT_BLUE, 6)[rowNumber := BLUE], Repeat(LIGHT_RED, 6)[rowNumber := RED]]
  }

  /** The layout of a two-series chart over six categories: twelve patches,
      the first six side A drawn from zero, the last six side B drawn from
      side A's value, each centred on its category, with the accent colour of
      its side on row_number and the light colour everywhere else. */
  predicate ChartLayout(patches: seq<Patch>, values: seq<seq<real>>, rowNumber: nat)
    requires |values| >= 2 && |values[0]| == 6 && |values[1]| == 6
  {
    && |patches| == 12
    && (forall j :: 0 <= j < 6 ==>
          patches[j] == Patch(0.0, j as real - BAR_HEIGHT / 2.0, values[0][j], BAR_HEIGHT,
                              if j == rowNumber then BLUE else LIGHT_BLUE))
    && (forall k :: 6 <= k < 12 ==>
          patches[k] == Patch(values[0][k - 6], (k - 6) as real - BAR_HEIGHT / 2.0, values[1][k - 6], BAR_HEIGHT,
                              if k - 6 == rowNumber then RED else LIGHT_RED))
  }

  /** The patches the two series leave on the axes have the chart layout. */
  lemma ChartPatches(values: seq<seq<real>>, rowNumber: nat)
    requires rowNumber < 6
    requires |values| >= 2 && |values[0]| == 6 && |values[1]| == 6
    ensures ChartLayout(StackedBars(values, ChartColors(rowNumber), 6, 2), values, rowNumber)
  {
    var colors := ChartColors(rowNumber);
    var ps := StackedBars(values, colors, 6, 2);
    StackedBarsLength(values, colors, 6, 2);
    forall j | 0 <= j < 6
      ensures ps[j] == Patch(0.0, j as real - BAR_HEIGHT / 2.0, values[0][j], BAR_HEIGHT, colors[0][j])
    {
      StackedBarsAt(values, colors, 6, 2, 0, j);
    }
    forall k | 6 <= k < 12
      ensures ps[k] == Patch(values[0][k - 6], (k - 6) as real - BAR_HEIGHT / 2.0, values[1][k - 6], BAR_HEIGHT, colors[1][k - 6])
    {
      StackedBarsAt(values, colors, 6, 2, 1, k - 6);
    }
  }

  /** The light colours differ from both accent colours. */
  lemma ColoursDiffer()
    ensures LIGHT_BLUE != BLUE && LIGHT_BLUE != RED && LIGHT_RED != BLUE && LIGHT_RED != RED
  {
    assert LIGHT_BLUE[2] != BLUE[2] && LIGHT_BLUE[2] != RED[2];
    assert LIGHT_RED[2] != BLUE[2] && LIGHT_RED[2] != RED[2];
  }

  /** In the chart layout exactly the two bars of row_number, patches
      row_number and row_number + 6, carry an accent colour. */
  lemma ChartAccents(patches: seq<Patch>, values: seq<seq<real>>, rowNumber: nat)
    requires rowNumber < 6
    requires |values| >= 2 && |values[0]| == 6 && |values[1]| == 6
    requires ChartLayout(patches, values, rowNumber)
    ensures forall k :: 0 <= k < 12 ==>
              ((patches[k].color == BLUE || patches[k].color == RED) <==> (k == rowNumber || k == rowNumber + 6))
  {
    ColoursDiffer();
    forall k | 0 <= k < 12
      ensures (patches[k].color == BLUE || patches[k].color == RED) <==> (k == rowNumber || k == rowNumber + 6)
    {
      if k < 6 {
        assert patches[k].color == if k == rowNumber then BLUE else LIGHT_BLUE;
      } else {
        assert patches[k].color == if k - 6 == rowNumber then RED else LIGHT_RED;
      }
    }
  }

  /** Patch k is bar k % 6 of series k / 6: patch 0 is the left bar of the
      first row and patch 11 the right bar of the last. */
  lemma PatchNumbering(patches: seq<Patch>, values: seq<seq<real>>, rowNumber: nat, k: nat)
    requires rowNumber < 6
    requires |values| >= 2 && |values[0]| == 6 && |values[1]| == 6
    requires ChartLayout(patches, values, rowNumber)
    requires k < 12
    ensures patches[k].width == values[k / 6][k % 6]
    ensures patches[k].color == ChartColors(rowNumber)[k / 6][k % 6]
    ensures patches[k].y == (k % 6) as real - BAR_HEIGHT / 2.0
    ensures patches[k].x == if k / 6 == 0 then 0.0 else values[0][k % 6]
  {
    if k < 6 {
      assert k / 6 == 0 && k % 6 == k;
    } else {
      assert k / 6 == 1 && k % 6 == k - 6;
    }
  }

  /** The colour matrix create_chart builds: [LIGHT_BLUE] * 6 and
      [LIGHT_RED] * 6, then, side by side, the side's accent colour written
      at row_number. */
  method HighlightColors(rowNumber: nat) returns (colors: seq<seq<string>>)
    requires rowNumber < 6
    ensures colors == ChartColors(rowNumber)
  {
    colors := [Repeat(LIGHT_BLUE, 6), Repeat(LIGHT_RED, 6)];
    for i := 0 to 2
      invariant |colors| == 2
      invariant colors[0] == if i > 0 then ChartColors(rowNumber)[0] else Repeat(LIGHT_BLUE, 6)
      invariant colors[1] == if i > 1 then ChartColors(rowNumber)[1] else Repeat(LIGHT_RED, 6)
    {
      colors := colors[i := colors[i][rowNumber := [BLUE, RED][i]]];
    }
    assert colors == ChartColors(rowNumber);
  }

  /** create_chart(values, row_number, name), up to the saved image: returns
      the chart's patches and texts as drawn. The patches are the two series
      stacked under the highlighted colour matrix (ChartPatches and
      ChartAccents say what that layout is), and the two texts sit at the
      centres of the two patches of row_number, showing their values. */
  method CreateChart(values: seq<seq<real>>, rowNumber: int) returns (patches: seq<Patch>, texts: seq<Annotation>)
    requires 0 <= rowNumber <= 5
    requires |values| >= 2 && |values[0]| == 6 && |values[1]| == 6
    ensures patches == StackedBars(values, ChartColors(rowNumber), 6, 2)
    ensures |patches| == 12
    ensures texts == [Annotation(Centre(patches[rowNumber]), values[0][rowNumber]),
                      Annotation(Centre(patches[rowNumber + 6]), values[1][rowNumber])]
  {
    YearsDistinct();
    var ax := new Axes();
    var colors := HighlightColors(rowNumber);
    DrawBarChart(YEARS, values, colors, ax);
    patches := ax.patches;
    assert patches == StackedBars(values, ChartColors(rowNumber), 6, 2);
    StackedBarsLength(values, colors, 6, 2);
    AddAnnot(values[0][rowNumber], rowNumber, ax);
    assert ax.patches == patches;
    assert ax.texts == [Annotation(Centre(patches[rowNumber]), values[0][rowNumber])];
    AddAnnot(values[1][rowNumber], rowNumber + 6, ax);
    texts := ax.texts;
  }

  /** Each year's first bar starts at zero and ends where its second begins,
      and the second ends at 100. */
  predicate EndToEndAt100(first: seq<Patch>, second: seq<Patch>)
    requires |first| == 6 && |second| == 6
  {
    forall j :: 0 <= j < 6 ==>
      first[j].x == 0.0 && first[j].x + first[j].width == second[j].x
      && second[j].x + second[j].width == 100.0
  }

  /** In the chart layout of two series that add up to 100 year by year, each
      side-B segment spans [d, d + r] = [d, 100]. */
  lemma LayoutEndToEnd(patches: seq<Patch>, values: seq<seq<real>>, rowNumber: nat)
    requires |values| >= 2 && |values[0]| == 6 && |values[1]| == 6
    requires ChartLayout(patches, values, rowNumber)
    requires forall j :: 0 <= j < 6 ==> values[0][j] + values[1][j] == 100.0
    ensures EndToEndAt100(patches[..6], patches[6..])
  {
    forall j | 0 <= j < 6
      ensures patches[..6][j] == patches[j] && patches[6..][j] == patches[j + 6]
    {
    }
  }

  /** With the two series of get_results, the side-B segment of every year
      spans [d, d + r] = [d, 100]. */
  lemma ResultBarsEndAt100(data: Parsing.Table, state: string, rowNumber: nat)
    requires Parsing.WellFormed(data)
    requires Parsing.GetResults(data, state).Some?
    requires rowNumber < 6
    ensures |StackedBars(Parsing.GetResults(data, state).value, ChartColors(rowNumber), 6, 2)| == 12
    ensures EndToEndAt100(StackedBars(Parsing.GetResults(data, state).value, ChartColors(rowNumber), 6, 2)[..6],
                          StackedBars(Parsing.GetResults(data, state).value, ChartColors(rowNumber), 6, 2)[6..])
  {
    var v := Parsing.GetResults(data, state).value;
    Parsing.ResultsSumTo100(data, state);
    ChartPatches(v, rowNumber);
    LayoutEndToEnd(StackedBars(v, ChartColors(rowNumber), 6, 2), v, rowNumber);
  }
}
