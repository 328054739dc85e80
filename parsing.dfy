/** The state filter with its per-year colour rewrite, and the two-series
    extraction from a state's aggregate row (parsing.py). */
module Parsing {
  import opened Builtins
  import Utils

  const THRESH_MARGIN: seq<real> := [50.0, 60.0, 70.0, 80.0, 90.0, 100.0]
  /** The election years, 2000 to 2020 in steps of four. */
  const YEARS: seq<int> := Range(2000, 2024, 4)

  /** The year range holds the six election years. */
  lemma YearsValues()
    ensures YEARS == [2000, 2004, 2008, 2012, 2016, 2020]
  {
    assert Range(2024, 2024, 4) == [];
  }

  /** One cell of a year column: a signed margin as loaded, or the colour
      (possibly none) that the filter writes over it. */
  datatype Cell = Margin(m: real) | Shade(c: Option<Utils.Color>)

  /** One row of the results table; years[k] is the column of YEARS[k]. */
  datatype Row = Row(unit: string, state: string, isState: int, code: string, years: seq<Cell>)

  type Table = seq<Row>

  /** The loaded table: every row has one margin per election year. */
  predicate WellFormed(data: Table)
  {
    forall i :: 0 <= i < |data| ==> |data[i].years| == 6 && forall k :: 0 <= k < 6 ==> data[i].years[k].Margin?
  }

  // ---------------------------------------------------------------------------
  // get_data
  // ---------------------------------------------------------------------------

  /** The row condition: a row of the state or any state-level row, except the
      state's own aggregate row. */
  predicate Keep(r: Row, state: string)
  {
    (r.state == state || r.isState == 1) && r.unit != state
  }

  /** data[conditions]: the rows meeting the condition, in input order. */
  function Filter(data: Table, state: string): (r: Table)
    ensures |r| <= |data|
    ensures forall x :: x in r <==> x in data && Keep(x, state)
    ensures WellFormed(data) ==> WellFormed(r)
  {
    if data == [] then []
    else (if Keep(data[0], state) then [data[0]] else []) + Filter(data[1..], state)
  }

  /** Filtering a concatenation filters each part and keeps them in order, so
      the filter preserves the input row order. */
  lemma {:induction false} FilterAppend(a: Table, b: Table, state: string)
    ensures Filter(a + b, state) == Filter(a, state) + Filter(b, state)
  {
    if a == [] {
      assert a + b == b;
    } else {
      assert (a + b)[0] == a[0];
      assert (a + b)[1..] == a[1..] + b;
      FilterAppend(a[1..], b, state);
    }
  }

  /** The cell a year column ends up with: the classified colour of the
      margin, greyed out unless the row belongs to the target state. */
  function FinalCell(r: Row, k: nat, state: string): Cell
    requires k < |r.years| && r.years[k].Margin?
  {
    Shade(Utils.GreyOut(r.state, Utils.GetColor(r.years[k].m, THRESH_MARGIN), state, Some(Utils.COLOR_GREY)))
  }

  /** A filtered row once the first `done` year columns are rewritten. */
  function PartlyShaded(r: Row, state: string, done: nat): (p: Row)
    requires |r.years| == 6 && forall k :: 0 <= k < 6 ==> r.years[k].Margin?
    ensures |p.years| == 6
    ensures forall k :: done <= k < 6 ==> p.years[k] == r.years[k]
  {
    r.(years := seq(6, k requires 0 <= k < 6 => if k < done then FinalCell(r, k, state) else r.years[k]))
  }

  /** state_data[year].apply(get_color): column k, still holding margins, gets their colours. */
  function ClassifyColumn(t: Table, k: nat): (t': Table)
    requires forall i :: 0 <= i < |t| ==> k < |t[i].years| && t[i].years[k].Margin?
    ensures |t'| == |t|
    ensures forall i :: 0 <= i < |t| ==>
              t'[i] == t[i].(years := t[i].years[k := Shade(Utils.GetColor(t[i].years[k].m, THRESH_MARGIN))])
  {
    seq(|t|, i requires 0 <= i < |t| =>
      t[i].(years := t[i].years[k := Shade(Utils.GetColor(t[i].years[k].m, THRESH_MARGIN))]))
  }

  /** state_data.apply(grey_out, axis=1): column k, now holding colours, is greyed
      out row by row against the row's owning state. */
  function GreyColumn(t: Table, k: nat, state: string): (t': Table)
    requires forall i :: 0 <= i < |t| ==> k < |t[i].years| && t[i].years[k].Shade?
    ensures |t'| == |t|
    ensures forall i :: 0 <= i < |t| ==>
              t'[i] == t[i].(years := t[i].years[k := Shade(Utils.GreyOut(t[i].state, t[i].years[k].c, state, Some(Utils.COLOR_GREY)))])
  {
    seq(|t|, i requires 0 <= i < |t| =>
      t[i].(years := t[i].years[k := Shade(Utils.GreyOut(t[i].state, t[i].years[k].c, state, Some(Utils.COLOR_GREY)))]))
  }

  /** Rewriting year column y (classify, then grey out) takes every row from
      y shaded columns to y + 1. */
  lemma ColumnStep(t: Table, kept: Table, state: string, y: nat)
    requires WellFormed(kept) && y < 6
    requires |t| == |kept| && forall i :: 0 <= i < |t| ==> t[i] == PartlyShaded(kept[i], state, y)
    ensures forall i :: 0 <= i < |t| ==> |t[i].years| == 6 && t[i].years[y] == kept[i].years[y] && t[i].years[y].Margin?
    ensures forall i :: 0 <= i < |t| ==>
              GreyColumn(ClassifyColumn(t, y), y, state)[i] == PartlyShaded(kept[i], state, y + 1)
  {
    forall i | 0 <= i < |t|
      ensures |t[i].years| == 6 && t[i].years[y] == kept[i].years[y] && t[i].years[y].Margin?
    {
      assert kept[i].years[y].Margin?;
    }
    var c := ClassifyColumn(t, y);
    var g := GreyColumn(c, y, state);
    forall i | 0 <= i < |t|
      ensures g[i] == PartlyShaded(kept[i], state, y + 1)
    {
      assert g[i].years == PartlyShaded(kept[i], state, y + 1).years;
    }
  }

  /** The final cell of a year column is the margin's colour for a row of the
      target state and grey for every other row. */
  lemma FinalCellColour(r: Row, k: nat, state: string)
    requires k < |r.years| && r.years[k].Margin?
    ensures FinalCell(r, k, state) == Shade(if r.state == state then Utils.GetColor(r.years[k].m, THRESH_MARGIN)
                                            else Some(Utils.COLOR_GREY))
  {
  }

  /** get_data(data, state): keeps the rows meeting the condition, in order, and
      rewrites every year cell to grey_out(row.state, get_color(margin), state):
      rows of the state carry their classified colour, all others grey, and the
      non-year fields are left as they were. */
  method GetData(data: Table, state: string) returns (out: Table)
    requires WellFormed(data)
    ensures |out| == |Filter(data, state)|
    ensures forall i :: 0 <= i < |out| ==>
              var r := Filter(data, state)[i];
              && out[i].unit == r.unit && out[i].state == r.state
              && out[i].isState == r.isState && out[i].code == r.code
              && |out[i].years| == 6
              && forall k :: 0 <= k < 6 ==>
                   out[i].years[k] == FinalCell(r, k, state)
                   && out[i].years[k] == Shade(if r.state == state then Utils.GetColor(r.years[k].m, THRESH_MARGIN)
                                               else Some(Utils.COLOR_GREY))
  {
    YearsValues();
    ghost var kept := Filter(data, state);
    var stateData := Filter(data, state);
    for y := 0 to |YEARS|
      invariant |stateData| == |kept|
      invariant forall i :: 0 <= i < |kept| ==> stateData[i] == PartlyShaded(kept[i], state, y)
    {
      ColumnStep(stateData, kept, state, y);
      stateData := ClassifyColumn(stateData, y);
      stateData := GreyColumn(stateData, y, state);
    }
    out := stateData;
    forall i, k | 0 <= i < |kept| && 0 <= k < 6
      ensures out[i].years[k] == FinalCell(kept[i], k, state)
      ensures FinalCell(kept[i], k, state) == Shade(if kept[i].state == state then Utils.GetColor(kept[i].years[k].m, THRESH_MARGIN)
                                                    else Some(Utils.COLOR_GREY))
    {
      FinalCellColour(kept[i], k, state);
    }
  }

  /** The target state's own aggregate row never survives the filter, and every
      state-level row of another name always does. */
  lemma FilterAggregates(data: Table, state: string)
    ensures forall r :: r in Filter(data, state) ==> r.unit != state
    ensures forall r :: r in data && r.isState == 1 && r.unit != state ==> r in Filter(data, state)
  {
  }

  // ---------------------------------------------------------------------------
  // get_results
  // ---------------------------------------------------------------------------

  /** The index of the first row, from `from` on, whose unit is the state's name. */
  function FirstMatch(data: Table, state: string, from: nat): (r: Option<nat>)
    ensures r.Some? ==> from <= r.value < |data| && data[r.value].unit == state
                        && forall j :: from <= j < r.value ==> data[j].unit != state
    ensures r.None? ==> forall j :: from <= j < |data| ==> data[j].unit != state
    decreases |data| - from
  {
    if from >= |data| then None
    else if data[from].unit == state then Some(from)
    else FirstMatch(data, state, from + 1)
  }

  /** Side A's share of a margin: its magnitude when negative, else 100 - m;
      within [0, 100] whenever the margin is within [-100, 100]. */
  function ShareD(m: real): (d: real)
    ensures m < 0.0 ==> d == Abs(m)
    ensures Abs(m) <= 100.0 ==> 0.0 <= d <= 100.0
  {
    if m < 0.0 then Abs(m) else 100.0 - m
  }

  /** Side B's share of a margin: 100 + m when negative, else m itself; what
      side A's share leaves of 100. */
  function ShareR(m: real): (r: real)
    ensures r == 100.0 - ShareD(m)
    ensures m >= 0.0 ==> r == m
  {
    if m < 0.0 then 100.0 + m else m
  }

  /** The two shares of one margin add up to 100, and within [-100, 100] each
      lies in [0, 100]. */
  lemma SharesOfMargin(m: real)
    ensures ShareD(m) + ShareR(m) == 100.0
    ensures m < 0.0 ==> ShareD(m) == -m && ShareR(m) == 100.0 + m
    ensures m >= 0.0 ==> ShareD(m) == 100.0 - m && ShareR(m) == m
    ensures Abs(m) <= 100.0 ==> 0.0 <= ShareD(m) <= 100.0 && 0.0 <= ShareR(m) <= 100.0
  {
  }

  /** get_results(data, state): from the first row whose unit is the state, the
      per-year shares of the two sides, [d_results, r_results]; None when no row
      matches (indexing the empty selection fails). */
  function GetResults(data: Table, state: string): (r: Option<seq<seq<real>>>)
    requires WellFormed(data)
    ensures r.None? <==> forall j :: 0 <= j < |data| ==> data[j].unit != state
    ensures r.Some? ==> |r.value| == 2 && |r.value[0]| == 6 && |r.value[1]| == 6
    ensures r.Some? ==> exists i :: (0 <= i < |data| && data[i].unit == state
                                    && (forall j :: 0 <= j < i ==> data[j].unit != state)
                                    && forall k :: 0 <= k < 6 ==>
                                         r.value[0][k] == ShareD(data[i].years[k].m)
                                         && r.value[1][k] == ShareR(data[i].years[k].m))
  {
    match FirstMatch(data, state, 0)
    case None => None
    case Some(i) =>
      var results := seq(6, k requires 0 <= k < 6 => data[i].years[k].m);
      var dResults := seq(6, k requires 0 <= k < 6 => ShareD(results[k]));
      var rResults := seq(6, k requires 0 <= k < 6 => ShareR(results[k]));
      Some([dResults, rResults])
  }

  /** The two series add up to 100 year by year, and each share lies in
      [0, 100] when the margin does in magnitude. */
  lemma ResultsSumTo100(data: Table, state: string)
    requires WellFormed(data)
    requires GetResults(data, state).Some?
    ensures forall k :: 0 <= k < 6 ==>
              GetResults(data, state).value[0][k] + GetResults(data, state).value[1][k] == 100.0
    ensures FirstMatch(data, state, 0).Some?
    ensures (forall k :: 0 <= k < 6 ==> Abs(data[FirstMatch(data, state, 0).value].years[k].m) <= 100.0) ==>
              forall k :: 0 <= k < 6 ==>
                0.0 <= GetResults(data, state).value[0][k] <= 100.0
                && 0.0 <= GetResults(data, state).value[1][k] <= 100.0
  {
    var v := GetResults(data, state).value;
    var i := FirstMatch(data, state, 0).value;
    assert forall k :: 0 <= k < 6 ==>
             v[0][k] == ShareD(data[i].years[k].m) && v[1][k] == ShareR(data[i].years[k].m);
    forall k | 0 <= k < 6
      ensures v[0][k] + v[1][k] == 100.0
      ensures Abs(data[i].years[k].m) <= 100.0 ==> 0.0 <= v[0][k] <= 100.0 && 0.0 <= v[1][k] <= 100.0
    {
      SharesOfMargin(data[i].years[k].m);
    }
  }

  /** For example, an aggregate margin of -65.7 gives shares 65.7 and 34.3,
      and one of 51.3 gives 48.7 and 51.3. */
  lemma ResultsExample()
    ensures ShareD(-65.7) == 65.7 && ShareR(-65.7) == 34.3
    ensures ShareD(51.3) == 48.7 && ShareR(51.3) == 51.3
  {
  }
}
