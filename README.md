# five-texases: a verified model of the data core

five-texases splits Texas into five invented states (El Norte, Gulfland, New
Texas, Plainland and Trinity). For each of them it draws a map of Texas, next to
a stacked horizontal bar chart of that state's overall result. On the map, the
state's counties are coloured by each election's margin (2000 to 2020), and the
state-level rows of the other states are grey. This project models the data transforms behind those pictures and proves their
properties:

- the margin colour classifier `get_color` and the grey-out rule `grey_out`
  (`utils.dfy`);
- the size and offset arithmetic of the horizontal image concatenation
  `combine_images` (`utils.dfy`);
- the state filter with its per-year colour rewrite `get_data` (`parsing.dfy`);
- the two-series extraction `get_results` (`parsing.dfy`);
- the chart's colour matrix, the stacking of the bars in `draw_bar_chart`, and
  the placement of the two annotations by `add_annot` and `create_chart`
  (`charts.dfy`).

`builtins.dfy` models the Python built-ins the core relies on: `None`, `abs`,
`range`, `f"{n}"`, `sum` and `max`.

How the source is represented:

- A margin is a `real`. A pandas table is a sequence of `Row`s with the
  columns `unit`, `state`, `is_state` and `code`, plus one cell per election
  year.
- A year cell holds either the margin as loaded or the colour `get_data`
  writes over it (`Cell = Margin(m) | Shade(c)`). `None` is `Option.None`.
- The plotting library is represented by an `Axes` object. Its fields are
  the patches drawn so far, in drawing order, and the texts placed on it.
  `barh` appends one rectangle per value. A rectangle is centred on its
  category, where category j sits at position j, and its height is
  matplotlib's default of 0.8.
- `combine_images` is given the images' sizes rather than file names. It
  returns the canvas size and the list of paste positions.

Where the code and its own description differ, the model follows the code:

- The overflow test in `get_color` compares the signed value with the last
  edge, `value > thresh[-1]`. So a magnitude above 100 gets the darkest colour
  only when the value is positive. A value below -100 gets no colour, like a
  magnitude of 50 or less (`Utils.GetColorNone`).
- `get_results` does not require a unique aggregate row. It reads the first
  row whose unit is the state. When there is none, the model returns `None`;
  the source fails on the empty selection.
- `draw_bar_chart` starts each series at the previous series' values, not at
  the running total. For the two-series chart the source draws, these are the
  same thing.

## Model

| member | source | states |
|---|---|---|
| Builtins.Abs | utils.py:38 | the result is non-negative and equals the value or its negation |
| Builtins.Range | parsing.py:5 | range(start, stop, step) is empty iff stop <= start, starts at start, steps by step and stays strictly below stop, and no further step fits |
| Builtins.NatToString | charts.py:10 | the text of a number is one or more decimal digits with no leading zero |
| Builtins.NatToStringValue | charts.py:10 | the digits written for n denote n, so different years get different labels |
| Builtins.Sum | utils.py:112 | sum() of the empty list is 0 and no element exceeds the total |
| Builtins.SumPrefixStep | utils.py:118 | summing one more width adds that width, as x_offset += image.size[0] does |
| Builtins.Max | utils.py:113 | max() of a non-empty list is one of its elements and no element exceeds it |
| Utils.ScanBands | utils.py:37-39 | the loop over consecutive threshold pairs finds a colour iff some band (left, right] holds the magnitude, and then it is the colour of the first such band |
| Utils.GetColor | utils.py:36-41 | a negative value takes a side-A colour and a non-negative one a side-B colour; the result is None iff no band holds the magnitude and the value is not above the last edge; the first band holding the magnitude gives that band's colour of the chosen ramp; with no band holding it and the value above the last edge, the result is the ramp's last colour |
| Utils.GetColorBand | utils.py:37-39 | with the fixed edges, a magnitude in (t[k], t[k+1]] gives colour k of the ramp the sign picks |
| Utils.GetColorBandEdges | utils.py:37-39 | bands are open below and closed above: 60 → band 0 and 60.01 → band 1, on both sides |
| Utils.GetColorExamples | utils.py:29-34 | get_color(51.3) is "#E27F90" and get_color(-65.7) is "#4389E3" |
| Utils.GetColorOverflow | utils.py:40-41 | a value above 100 gets the darkest side-B colour |
| Utils.GetColorNone | utils.py:36-41 | no colour is returned exactly when the magnitude is at most 50 or the value is below -100 |
| Utils.GetColorInRamps | utils.py:36-41 | a returned colour lies in COLORS_D + COLORS_R, and lies in COLORS_D exactly when the value is negative |
| Utils.RampsDisjoint | utils.py:9-10 | no colour appears on both ramps |
| Utils.GreyOut | utils.py:73 | the colour is kept when the names match and replaced by the grey otherwise |
| Utils.GreyOutKeeps | utils.py:73 | when the colour is not already the grey, it survives iff the names match |
| Utils.GreyOutIdempotent | utils.py:73 | greying out twice is the same as greying out once, for any colour |
| Utils.CombineImages | utils.py:110-118 | None exactly for an empty list; otherwise the canvas is (sum of widths, max of heights) with one paste per image, and image k goes at (sum of the widths of images 0..k-1, 0) |
| Utils.CombinedLayout | utils.py:111-118 | each image ends where the next starts, lies inside the canvas width, is no taller than the canvas, and the last image ends at the total width |
| Utils.CombinedNoOverlap | utils.py:115-118 | an image pasted earlier ends at or before the start of any image pasted later |
| Parsing.YearsValues | parsing.py:5 | the year list is 2000, 2004, …, 2020 |
| Parsing.Filter | parsing.py:20-21 | a row is kept iff (its state is the target or is_state == 1) and its unit is not the target; no rows are added, and the table's shape is preserved |
| Parsing.FilterAppend | parsing.py:21 | filtering a concatenation concatenates the filtered parts, so the input row order is kept |
| Parsing.FilterAggregates | parsing.py:20 | the target's own aggregate row never survives the filter, and every other state-level row always does |
| Parsing.ClassifyColumn | parsing.py:23-24 | only column k changes: each row's margin there becomes get_color of that margin |
| Parsing.GreyColumn | parsing.py:25-27 | only column k changes: each row's colour there becomes grey_out(row.state, colour, target) |
| Parsing.ColumnStep | parsing.py:22-27 | one pass of the year loop, classify then grey out, takes every row from y rewritten columns to y + 1 |
| Parsing.FinalCellColour | parsing.py:23-27 | a rewritten cell holds the margin's colour in a row of the target state and grey in every other row |
| Parsing.GetData | parsing.py:20-28 | the output has one row per row kept by the filter, in order; the non-year fields are unchanged; each year cell is grey_out(row.state, get_color(margin), target), which is the margin's colour for the target's rows and grey for all others |
| Parsing.FirstMatch | parsing.py:42 | the first row whose unit is the state, or None when no row's unit is |
| Parsing.ShareD | parsing.py:44 | side A's share is the magnitude of a negative margin, and lies in [0, 100] when the margin does in magnitude |
| Parsing.ShareR | parsing.py:45 | side B's share is what side A's share leaves of 100, and equals a non-negative margin itself |
| Parsing.SharesOfMargin | parsing.py:44-45 | for m < 0 the pair is (-m, 100 + m) and for m >= 0 it is (100 - m, m); the two always add up to 100, and both lie in [0, 100] when abs(m) <= 100 |
| Parsing.GetResults | parsing.py:42-46 | None iff no row's unit is the state; otherwise two series of six values, taken from the first matching row's year margins as its shares |
| Parsing.ResultsSumTo100 | parsing.py:44-45 | the two series add up to 100 year by year, and each share lies in [0, 100] when the six margins of the first matching row do in magnitude |
| Parsing.ResultsExample | parsing.py:44-45 | margin -65.7 gives shares 65.7 and 34.3; margin 51.3 gives 48.7 and 51.3 |
| Charts.YearStrings | charts.py:10 | f"{i}" of each election year is its four digits |
| Charts.YearsLabels | charts.py:10 | the chart labels are "2000", "2004", …, "2020" |
| Charts.LabelsDistinct | charts.py:10 | distinct years have distinct labels |
| Charts.YearsDistinct | charts.py:10 | there are six labels, no two alike |
| Charts.Repeat | charts.py:120 | [x] * n has length n and holds x everywhere |
| Charts.Axes.constructor | charts.py:119 | a new axes holds no patches and no texts |
| Charts.Axes.Barh | charts.py:70-73 | barh appends one bar per value, bar j on category j, with width values[j], colour colors[j] and left edge left[j]; the texts are unchanged |
| Charts.Axes.Text | charts.py:99-104 | text appends one annotation at the given point; the patches are unchanged |
| Charts.LeftEdge | charts.py:70-74 | a series' left edges have one entry per category: all 0 for the first series (barh's default left) and the previous series' values for every later one |
| Charts.StackedBarsLength | charts.py:69-75 | n series of m values leave n * m patches |
| Charts.StackedBarsAt | charts.py:69-75 | patch i*m + j is bar j of series i: width values[i][j], colour colors[i][j], starting at 0 for series 0 and at values[i-1][j] for later series |
| Charts.DrawBarChart | charts.py:68-76 | one barh call per zipped pair of value and colour series, so the axes gain exactly the stacked bars of the shorter of the two lists; the texts are unchanged |
| Charts.Centre | charts.py:96-100 | the annotation point is equally far from a patch's left and right edges and from its top and bottom edges |
| Charts.ListIndex | charts.py:96 | a list index from -len to len - 1 denotes a valid position, counting negative indices from the end |
| Charts.AddAnnot | charts.py:96-105 | one text is added at the centre of the chosen patch, with negative patch numbers counting from the end; the patches are unchanged |
| Charts.ChartColors | charts.py:120-122 | the colour matrix is two rows of six; the side-A row is BLUE at row_number and LIGHT_BLUE elsewhere, the side-B row is RED at row_number and LIGHT_RED elsewhere |
| Charts.HighlightColors | charts.py:120-122 | starting from [LIGHT_BLUE] * 6 and [LIGHT_RED] * 6, the loop writes each side's accent at row_number, which yields exactly that colour matrix |
| Charts.ChartPatches | charts.py:69-75 | the chart's twelve patches: patch j < 6 is side A of row j from 0, patch 6 + j is side B of row j from side A's value, each in the colour of its slot |
| Charts.ColoursDiffer | charts.py:5-6 | the light colours differ from both accent colours |
| Charts.ChartAccents | charts.py:120-127 | in the chart layout, exactly patches row_number and row_number + 6 carry an accent colour; these are the two patches annotated |
| Charts.PatchNumbering | charts.py:87-89 | patch k holds row k % 6 of series k / 6: its width, colour and row are that slot's, and it starts at 0 for series 0 and at side A's value for series 1, so patch 0 is the left bar of the first row and patch 11 the right bar of the last |
| Charts.CreateChart | charts.py:119-127 | the patches are the two series stacked under the highlighted colour matrix, twelve of them; the two texts sit at the centres of patches row_number and row_number + 6 and show values[0][row_number] and values[1][row_number] |
| Charts.LayoutEndToEnd | charts.py:71-72 | when the two series add up to 100, every first bar starts at 0 and ends where its second bar begins, and every second bar ends at 100 |
| Charts.ResultBarsEndAt100 | charts.py:69-75 | with the series of get_results, every year's side-B segment spans [d, d + r] = [d, 100] |

## Left out

- File and library I/O is not modelled. That covers `read_json`, `make_gif`, `add_text` and `draw_map`, opening, saving and deleting image files, `plt.savefig` and `ax.cla`. These are side effects on files and on third-party libraries.
- `main.py` and `map.py` only drive the routines above over files. They are not part of this model.
- Matplotlib styling is left out: figure size, spines, ticks, margins, y-axis inversion and font settings. It changes how the chart looks, not its patches or texts.
- The annotation text `f"   {round(v, 2)}%"` is represented by the value `v` itself. Rounding and formatting are presentation.
- Margins and shares are mathematical reals, not IEEE floats. The sums to 100 therefore hold exactly.
- The pandas machinery is left out, along with column lookup by name. The year columns are positional: `years[k]` is year 2000 + 4k. The table schema of one margin per year is a precondition (`Parsing.WellFormed`).
- Utils.GetColor: requires 1 to 6 edges. Python also accepts a longer list as long as the value does not fall in a band beyond the fifth colour; otherwise it raises IndexError.
- Parsing.GetResults: "the last six values" of the matching row are modelled as its six year cells, which the schema puts last. The model returns None where the source raises on an empty selection.
- Charts.CreateChart: requires 0 <= row_number <= 5, as its docstring asks. Python would also take -6..-1. It would then highlight slot row_number + 6, but put side A's value on patch row_number + 12, which is a side-B patch, and side B's value on patch row_number + 6, which is a side-A patch.
- Charts.Axes.Barh: requires distinct labels, so that label j sits at category j. The plotting library merges repeated categorical labels, and that merging is not modelled.
- Charts.AddAnnot: requires a valid list index. The source raises IndexError for any other patch number. The only caller, create_chart, passes row_number and row_number + 6, which are always valid for its twelve patches.
- Charts.DrawBarChart: the `plots` list it collects is never used and is not modelled.
- Utils.CombineImages: works on image sizes only. Pixel contents and the RGB canvas are not modelled. For an empty list it returns None, where the source fails to unpack `zip()`.
