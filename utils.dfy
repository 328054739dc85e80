/** The colour classifier, the grey-out rule and the layout arithmetic of
    the horizontal image concatenation (utils.py). */
module Utils {
  import opened Builtins

  type Color = string

  /** Side-A ramp (negative margins), lightest to darkest. */
  const COLORS_D: seq<Color> := ["#86B6F2", "#4389E3", "#1666CB", "#0645B4", "#002B84"]
  /** Side-B ramp (zero and positive margins), lightest to darkest. */
  const COLORS_R: seq<Color> := ["#E27F90", "#CC2F4A", "#D40000", "#AA0000", "#800000"]
  const COLOR_GREY: Color := "#D6D6D6"
  /** Band edges: band i is the half-open interval (THRESH_MARGIN[i], THRESH_MARGIN[i + 1]]. */
  const THRESH_MARGIN: seq<real> := [50.0, 60.0, 70.0, 80.0, 90.0, 100.0]

  // ---------------------------------------------------------------------------
  // get_color
  // ---------------------------------------------------------------------------

  /** The ramp is chosen by the sign of the value alone: negative picks side A. */
  function Palette(value: real): seq<Color>
  {
    if value < 0.0 then COLORS_D else COLORS_R
  }

  /** Whether magnitude a lies in band i: thresh[i] < a <= thresh[i + 1]. */
  predicate InBand(thresh: seq<real>, i: nat, a: real)
    requires i + 1 < |thresh|
  {
    thresh[i] < a <= thresh[i + 1]
  }

  /** The loop over the consecutive threshold pairs, from pair `from` on: the
      first band holding a yields its colour (the early return). */
  function ScanBands(colors: seq<Color>, thresh: seq<real>, a: real, from: nat): (r: Option<Color>)
    requires |thresh| <= |colors| + 1
    ensures r.Some? <==> exists i :: from <= i && i + 1 < |thresh| && InBand(thresh, i, a)
    ensures r.Some? ==> exists i :: from <= i && i + 1 < |thresh| && InBand(thresh, i, a)
                                 && r.value == colors[i]
                                 && forall j :: from <= j < i ==> !InBand(thresh, j, a)
    decreases |thresh| - from
  {
    if from + 1 >= |thresh| then None
    else if thresh[from] < a <= thresh[from + 1] then
      assert InBand(thresh, from, a);
      Some(colors[from])
    else ScanBands(colors, thresh, a, from + 1)
  }

  /** get_color(value, thresh). The source's callers pass at most six edges
      (one more than a ramp has colours) and at least one, as thresh[-1] needs. */
  function GetColor(value: real, thresh: seq<real>): (r: Option<Color>)
    requires 1 <= |thresh| <= |COLORS_D| + 1
    ensures r.Some? && value < 0.0 ==> r.value in COLORS_D
    ensures r.Some? && value >= 0.0 ==> r.value in COLORS_R
    ensures r.None? <==> (forall i :: 0 <= i && i + 1 < |thresh| ==> !InBand(thresh, i, Abs(value)))
                         && value <= thresh[|thresh| - 1]
    ensures forall i :: 0 <= i && i + 1 < |thresh| && InBand(thresh, i, Abs(value))
                        && (forall j :: 0 <= j < i ==> !InBand(thresh, j, Abs(value)))
                        ==> r == Some(Palette(value)[i])
    ensures ((forall i :: 0 <= i && i + 1 < |thresh| ==> !InBand(thresh, i, Abs(value)))
             && value > thresh[|thresh| - 1]) ==> r == Some(Palette(value)[|COLORS_D| - 1])
  {
    var colors := Palette(value);
    var found := ScanBands(colors, thresh, Abs(value), 0);
    if found.Some? then found
    else if value > thresh[|thresh| - 1] then Some(colors[|colors| - 1])
    else None
  }

  /** With the fixed edges, a magnitude in band k gives colour k of the ramp the
      sign picks; bands are open below and closed above. */
  lemma GetColorBand(value: real, k: nat)
    requires k + 1 < |THRESH_MARGIN|
    requires THRESH_MARGIN[k] < Abs(value) <= THRESH_MARGIN[k + 1]
    ensures GetColor(value, THRESH_MARGIN) == Some(Palette(value)[k])
  {
    assert InBand(THRESH_MARGIN, k, Abs(value));
    forall j | 0 <= j < k
      ensures !InBand(THRESH_MARGIN, j, Abs(value))
    {
      assert THRESH_MARGIN[j + 1] <= THRESH_MARGIN[k];
    }
  }

  /** 60 lies in band 0 and 60.01 in band 1, on both sides. */
  lemma GetColorBandEdges()
    ensures GetColor(60.0, THRESH_MARGIN) == Some(COLORS_R[0])
    ensures GetColor(60.01, THRESH_MARGIN) == Some(COLORS_R[1])
    ensures GetColor(-60.0, THRESH_MARGIN) == Some(COLORS_D[0])
    ensures GetColor(-60.01, THRESH_MARGIN) == Some(COLORS_D[1])
  {
    GetColorBand(60.0, 0);
    GetColorBand(60.01, 1);
    GetColorBand(-60.0, 0);
    GetColorBand(-60.01, 1);
  }

  /** The two examples of the docstring. */
  lemma GetColorExamples()
    ensures GetColor(51.3, THRESH_MARGIN) == Some("#E27F90")
    ensures GetColor(-65.7, THRESH_MARGIN) == Some("#4389E3")
  {
    GetColorBand(51.3, 0);
    GetColorBand(-65.7, 1);
  }

  /** Above the last edge a positive value takes the darkest side-B colour. */
  lemma GetColorOverflow(value: real)
    requires value > 100.0
    ensures GetColor(value, THRESH_MARGIN) == Some(COLORS_R[4])
  {
    assert forall i :: 0 <= i && i + 1 < |THRESH_MARGIN| ==> !InBand(THRESH_MARGIN, i, Abs(value));
  }

  /** No colour is returned exactly when the magnitude is at most 50, or the
      value is below -100: the overflow test looks at the value, not its
      magnitude, so a large negative margin falls through to None. */
  lemma GetColorNone(value: real)
    ensures GetColor(value, THRESH_MARGIN).None? <==> Abs(value) <= 50.0 || value < -100.0
  {
    if 50.0 < Abs(value) <= 100.0 {
      var k := if Abs(value) <= 60.0 then 0 else if Abs(value) <= 70.0 then 1
               else if Abs(value) <= 80.0 then 2 else if Abs(value) <= 90.0 then 3 else 4;
      GetColorBand(value, k);
    } else if value > 100.0 {
      GetColorOverflow(value);
    } else {
      assert forall i :: 0 <= i && i + 1 < |THRESH_MARGIN| ==> !InBand(THRESH_MARGIN, i, Abs(value));
    }
  }

  /** Every colour returned belongs to one of the two ramps, and to side A's
      ramp exactly when the value is negative (zero therefore selects side B). */
  lemma GetColorInRamps(value: real)
    ensures GetColor(value, THRESH_MARGIN).Some? ==>
              GetColor(value, THRESH_MARGIN).value in COLORS_D + COLORS_R
              && (GetColor(value, THRESH_MARGIN).value in COLORS_D <==> value < 0.0)
  {
    var r := GetColor(value, THRESH_MARGIN);
    if r.Some? {
      if value < 0.0 {
        assert r.value in COLORS_D;
      } else {
        assert r.value in COLORS_R;
        RampsDisjoint();
      }
    }
  }

  /** No colour is on both ramps: the first two hex digits tell them apart. */
  lemma RampsDisjoint()
    ensures forall c :: c in COLORS_R ==> c !in COLORS_D
  {
    forall i, j | 0 <= i < |COLORS_D| && 0 <= j < |COLORS_R|
      ensures COLORS_D[i] != COLORS_R[j]
    {
      assert COLORS_D[i][1] != COLORS_R[j][1] || COLORS_D[i][2] != COLORS_R[j][2];
    }
  }

  // ---------------------------------------------------------------------------
  // grey_out
  // ---------------------------------------------------------------------------

  /** grey_out(name, color, colored_name, color_grey): a subdivision keeps its
      colour only when it belongs to the highlighted name. */
  function GreyOut<C>(name: string, color: C, coloredName: string, colorGrey: C): (r: C)
    ensures name == coloredName ==> r == color
    ensures name != coloredName ==> r == colorGrey
  {
    if name == coloredName then color else colorGrey
  }

  /** The colour survives exactly when the name matches, unless it already was
      the grey. */
  lemma GreyOutKeeps<C>(name: string, color: C, coloredName: string, colorGrey: C)
    requires color != colorGrey
    ensures GreyOut(name, color, coloredName, colorGrey) == color <==> name == coloredName
  {
  }

  /** Greying out twice is greying out once. */
  lemma GreyOutIdempotent<C>(name: string, color: C, coloredName: string, colorGrey: C)
    ensures GreyOut(name, GreyOut(name, color, coloredName, colorGrey), coloredName, colorGrey)
            == GreyOut(name, color, coloredName, colorGrey)
  {
  }

  // ---------------------------------------------------------------------------
  // combine_images (sizes and offsets only)
  // ---------------------------------------------------------------------------

  /** An image's (width, height), as PIL's Image.size gives it. */
  datatype Size = Size(width: nat, height: nat)

  /** Where one image is pasted on the canvas (its top-left corner). */
  datatype Placement = Placement(x: int, y: int)

  /** The new canvas's size and the paste position of each image, in order. */
  datatype Canvas = Canvas(width: nat, height: nat, pastes: seq<Placement>)

  function Widths(sizes: seq<Size>): (ws: seq<nat>)
    ensures |ws| == |sizes|
    ensures forall k :: 0 <= k < |sizes| ==> ws[k] == sizes[k].width
  {
    seq(|sizes|, k requires 0 <= k < |sizes| => sizes[k].width)
  }

  function Heights(sizes: seq<Size>): (hs: seq<nat>)
    ensures |hs| == |sizes|
    ensures forall k :: 0 <= k < |sizes| ==> hs[k] == sizes[k].height
  {
    seq(|sizes|, k requires 0 <= k < |sizes| => sizes[k].height)
  }

  /** combine_images: the canvas is (sum of widths, max of heights), and image
      k is pasted at (sum of the widths of images 0..k-1, 0). An empty list has
      nothing to unpack and yields None. */
  method CombineImages(sizes: seq<Size>) returns (r: Option<Canvas>)
    ensures r.None? <==> sizes == []
    ensures r.Some? ==> (r.value.width == Sum(Widths(sizes))
                         && r.value.height == Max(Heights(sizes))
                         && |r.value.pastes| == |sizes|)
    ensures r.Some? ==> forall k :: 0 <= k < |sizes| ==>
              r.value.pastes[k] == Placement(Sum(Widths(sizes)[..k]), 0)
  {
    if sizes == [] {
      return None;
    }
    var widths, heights := Widths(sizes), Heights(sizes);
    var totalWidth := Sum(widths);
    var maxHeight := Max(heights);
    var pastes: seq<Placement> := [];
    var xOffset := 0;
    var k := 0;
    while k < |sizes|
      invariant 0 <= k <= |sizes|
      invariant |pastes| == k
      invariant xOffset == Sum(widths[..k])
      invariant forall j :: 0 <= j < k ==> pastes[j] == Placement(Sum(widths[..j]), 0)
    {
      pastes := pastes + [Placement(xOffset, 0)];
      SumPrefixStep(widths, k);
      xOffset := xOffset + sizes[k].width;
      k := k + 1;
    }
    r := Some(Canvas(totalWidth, maxHeight, pastes));
  }

  /** The pasted images tile the canvas from left to right: image k ends where
      image k+1 starts, so none overlap, every image lies inside the canvas
      (top-aligned, no taller than it), and the last one ends at its right edge. */
  lemma CombinedLayout(sizes: seq<Size>)
    requires sizes != []
    ensures forall k :: 0 <= k < |sizes| ==>
              Sum(Widths(sizes)[..k]) + sizes[k].width == Sum(Widths(sizes)[..k + 1])
    ensures forall k :: 0 <= k < |sizes| ==>
              Sum(Widths(sizes)[..k]) + sizes[k].width <= Sum(Widths(sizes))
    ensures forall k :: 0 <= k < |sizes| ==> sizes[k].height <= Max(Heights(sizes))
    ensures Sum(Widths(sizes)[..|sizes| - 1]) + sizes[|sizes| - 1].width == Sum(Widths(sizes))
  {
    var ws := Widths(sizes);
    forall k | 0 <= k < |ws|
      ensures Sum(ws[..k]) + ws[k] == Sum(ws[..k + 1])
    {
      SumPrefixStep(ws, k);
    }
    forall k | 0 <= k < |ws|
      ensures Sum(ws[..k]) + ws[k] <= Sum(ws)
    {
      SumPrefixStep(ws, k);
      SumPrefixBound(ws, k + 1);
    }
    SumPrefixStep(ws, |ws| - 1);
    assert ws[..|ws|] == ws;
  }

  /** Images pasted earlier lie wholly to the left of those pasted later. */
  lemma {:induction false} CombinedNoOverlap(sizes: seq<Size>, j: nat, k: nat)
    requires j < k < |sizes|
    ensures Sum(Widths(sizes)[..j]) + sizes[j].width <= Sum(Widths(sizes)[..k])
    decreases k - j
  {
    var ws := Widths(sizes);
    SumPrefixStep(ws, k - 1);
    if j < k - 1 {
      CombinedNoOverlap(sizes, j, k - 1);
    }
  }
}
