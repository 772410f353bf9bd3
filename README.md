# mpl2vega-lite core, modelled in Dafny

mpl2vega-lite turns a rendered Matplotlib `Axes` into a Vega-Lite
specification. The core of the package does two things, and this project
models both:

1. **Classify the axes** (`detect_plot_type`). An ordered list of rules
   returns one of `scatter`, `line`, `bar`, `histogram` or `unknown`, and
   the first rule that applies decides.
   - A `BarContainer` whose label mentions `hist` gives a histogram.
   - So does an underscore attribute whose name mentions `hist`.
   - Any `PathCollection` gives a scatter plot.
   - Any line gives a line plot.
   - A set of `Rectangle` patches gives a histogram when all three gates pass:
     - there are more than five patches;
     - at most three widths are distinct after rounding to five decimals;
     - the patches are adjacent.

     Otherwise the patches give a bar chart.
2. **Extract a column table** (`extract_data_from_axes` and the four
   extractors). This walks the primitives matching the plot type and builds
   a dictionary from field name to list.
   - Scatter: x, y, size and label.
   - Line: x, y and label.
   - Bar: x as the bar centre, y, width, height and label.
   - Histogram: bin_start, bin_end, bin_width, x, y, count, density and
     label. The bins come from the tuple that `hist()` left on the axes
     when there is one. Otherwise they are rebuilt from the patches,
     sorted by left edge.

The project has these modules:

- `Text` (`text.dfy`): ASCII lower-casing, substring search, and the
  decimal rendering used in the default label `series_<i>`.
- `Charts` (`charts.dfy`): the chart as a value, with one datatype per
  Matplotlib primitive the core queries. It also holds the sort by left
  edge that Python's `sorted(..., key=get_x)` performs, proved stable
  (`SortByXStable`).
- `PlotDetection` (`plot_detection.dfy`): the classifier as a pure
  function, with lemmas about which charts get which kind.
- `Tables` (`tables.dfy`): the column table, and `Gather`, the
  concatenation a `for i, e in enumerate(...)` loop builds when it extends
  a list.
- `DataExtraction` (`data_extraction.dfy`): each extractor is a method
  containing the source's loop. Each method is proved equal to a
  specification function of the chart, and lemmas state what those tables
  contain.

The adjacency gate is modelled as the source writes it. It pairs the i-th
*sorted* left edge with the width of the i-th patch in the chart's *own*
order. So the same rectangles can be a histogram in one listing order and
bars in another (`TiledBinsAreHistogram`, `MisorderedBinsAreBars`).

### Behaviour worth knowing

- **Density with a non-positive total.** When the counts sum to zero or
  less, the density column is the counts themselves, not zeros
  (src/data_extraction.py:184-188, 223). For all-zero counts the two are
  the same (`DensityRule`, `DensityExamples`).
- **A retained tuple with fewer than two edges.** The table is not empty.
  With a single edge, all eight fields are still created:
  - bin_start, bin_end, bin_width and x are empty;
  - y, count, density and label have one entry per count
    (src/data_extraction.py:176-189, `OneEdgeTuple`).
- **Columns of different lengths.** The extractors do not make every
  column the same length:
  - a scatter collection with no points and one size keeps that size, so
    its size column is one longer than its x column
    (src/data_extraction.py:55-57, `ScatterEmptyCollectionKeepsItsSize`);
  - a line's y column matches its x column only when its data does
    (src/data_extraction.py:91-98);
  - a retained tuple's counts and edges are used whatever their lengths
    (src/data_extraction.py:166-189).

  The lemmas state row counts under the conditions where they hold.
- **Adjacency mixes two orders.** Sorted left edges are paired with widths
  in the listed order (src/plot_detection.py:69-74), as described above.
  Patches that are already in ascending order are unaffected
  (`SortedContiguousIsAdjacent`).

## Model

| member | source | states |
|---|---|---|
| PlotDetection.DetectPlotType | src/plot_detection.py:9-83 | the ordered rules; a scatter result means some `PathCollection` exists, a line result some line, a bar result only rectangles, and a histogram without a marker more than five rectangles |
| PlotDetection.Round5 | src/plot_detection.py:64 | `round(w, 5)` over exact decimals; the result is a multiple of 1e-5 |
| PlotDetection.Adjacent | src/plot_detection.py:69-74 | the adjacency gate as written, pairing sorted left edges with widths in the listed order; fewer than two patches always pass |
| PlotDetection.DetectScatterIff | src/plot_detection.py:36-45 | the kind is scatter exactly when no histogram marker is present and some collection is a `PathCollection`, whatever lines or patches exist |
| PlotDetection.DetectLineIff | src/plot_detection.py:47-49 | the kind is line exactly when there is no marker, no `PathCollection` and at least one line |
| PlotDetection.DetectHistogramIff | src/plot_detection.py:24-77 | the kind is histogram exactly when a marker (container label or underscore attribute) is present, or the patch rule is reached with rectangles only and all three gates pass |
| PlotDetection.DetectBarIff | src/plot_detection.py:52-80 | the kind is bar exactly when the patch rule is reached with rectangles only and some gate fails |
| PlotDetection.DetectUnknownIff | src/plot_detection.py:82-83 | the kind is unknown exactly when there is no marker, no `PathCollection`, no line, and either no patch or some patch that is not a `Rectangle` |
| PlotDetection.HistContainerWins | src/plot_detection.py:25-34 | a `BarContainer` whose lower-cased label contains `hist` makes the chart a histogram, whatever else it holds |
| PlotDetection.HistAttributeWins | src/plot_detection.py:37-39 | an attribute name starting with `_` and containing `hist` in lower case makes the chart a histogram |
| PlotDetection.NameInjective | src/plot_detection.py:17-22 | the five returned strings are distinct, so the string determines the kind |
| PlotDetection.NameIsExtractorKey | src/data_extraction.py:22-29 | every kind except unknown names one of the four extractors, and unknown names none |
| PlotDetection.FewRectanglesAreBars | src/plot_detection.py:63-80 | five or fewer rectangles are bars, whatever their widths and positions |
| PlotDetection.AdjacentUniformLooksLikeHistogram | src/plot_detection.py:63-74 | more than five equal-width patches laid edge to edge pass the count, width and adjacency gates |
| PlotDetection.AdjacentUniformRectanglesAreHistogram | src/plot_detection.py:52-77 | a chart that reaches the patch rule with more than five equal-width rectangles laid edge to edge is a histogram |
| PlotDetection.SpacedUniformRectanglesAreBars | src/plot_detection.py:69-80 | the same rectangles separated by a gap of at least the tolerance are bars, so adjacency is necessary |
| PlotDetection.SortedContiguousIsAdjacent | src/plot_detection.py:69-74 | patches in ascending order, each starting where the previous one ends, pass the adjacency gate |
| PlotDetection.SpacedEdgesMiss | src/plot_detection.py:70-74 | with a gap of at least the tolerance the first pair of edges fails the adjacency test |
| PlotDetection.TiledBinsAreHistogram | src/plot_detection.py:63-77 | six rectangles tiling [0, 7) in ascending order (a width-2 bin, then five of width 1) are a histogram |
| PlotDetection.MisorderedBinsAreBars | src/plot_detection.py:69-80 | the same six rectangles with the first two listed the other way round are bars, because sorted edges are paired with widths in the listed order |
| PlotDetection.MisorderedBinsNotAdjacent | src/plot_detection.py:69-74 | the misordered listing fails the adjacency gate |
| PlotDetection.LeftmostMisses | src/plot_detection.py:69-74 | when one patch alone starts left of a bound, and its edge plus the width of the first listed patch stays short of the bound by the tolerance, the adjacency gate fails |
| PlotDetection.FirstEdgeMisses | src/plot_detection.py:70-74 | a miss at the first pair of sorted edges fails the whole adjacency test |
| PlotDetection.SortedFirstTwo | src/plot_detection.py:69 | when one patch alone starts left of a bound, sorting puts it first and puts a patch starting at or after the bound second |
| PlotDetection.SortedFirst | src/plot_detection.py:69 | a patch alone left of a bound comes first after sorting |
| PlotDetection.OccursOnce | src/plot_detection.py:69 | such a patch occurs exactly once among the patches |
| PlotDetection.TiledBinsWidths | src/plot_detection.py:64-67 | both listings of the tiled rectangles have at most three distinct rounded widths |
| PlotDetection.TiledBinsShape | src/plot_detection.py:53 | the tiled rectangles are six rectangles laid edge to edge, with non-negative widths |
| PlotDetection.MisorderedBinsShape | src/plot_detection.py:53 | the misordered listing holds six rectangles, with the edge-0 patch second and every other patch starting at 2 or later |
| PlotDetection.SpacedIsSorted | src/plot_detection.py:69 | patches that follow each other with a non-negative step are already in ascending order of left edge |
| PlotDetection.RoundedWidthsWithin | src/plot_detection.py:64 | if every rounded width lies in a set, there are at most that set's size of distinct rounded widths |
| PlotDetection.Round5Close | src/plot_detection.py:64 | rounding to five decimals moves a width by at most half a unit in the fifth decimal |
| PlotDetection.Round5Idempotent | src/plot_detection.py:64 | rounding a rounded width changes nothing |
| PlotDetection.EmptyChartIsUnknown | src/plot_detection.py:83 | a chart with no primitives at all is unknown |
| Charts.SortByX | src/data_extraction.py:198 | `sorted(..., key=get_x)` by insertion; the result has as many patches as the input |
| Charts.SortByXStable | src/data_extraction.py:198 | the sort is stable: for every left edge v, the patches starting at v come out in the order they were listed |
| Charts.InsertByXStable | src/data_extraction.py:198 | an inserted patch lands after every patch with the same left edge |
| Charts.WithXAppend | src/data_extraction.py:198 | picking out the patches that start at v distributes over concatenation |
| Charts.SortByXSorts | src/data_extraction.py:198 | sorting by left edge yields the same patches (as a multiset), in ascending order of left edge |
| Charts.SortByXOfSorted | src/data_extraction.py:198 | sorting patches already in ascending order leaves them exactly as they are |
| Charts.SortSortedStep | src/data_extraction.py:198 | if sorting leaves the patches before the last one alone, and the last starts no earlier than the one before it, sorting leaves all of them alone |
| Charts.InsertByXPermutes | src/data_extraction.py:198 | inserting a patch adds exactly that patch |
| Charts.InsertByXSorted | src/data_extraction.py:198 | inserting into sorted patches keeps them sorted |
| Charts.InsertAtEnd | src/data_extraction.py:198 | a patch starting no earlier than the last sorted patch is appended after it, so equal keys keep their order |
| Charts.InsertBelowLast | src/data_extraction.py:198 | sorted patches that all start before a patch stay sorted with that patch appended |
| Charts.SnocSorted | src/data_extraction.py:198 | appending a patch that starts no earlier than the last keeps the order |
| Charts.SortedInit | src/data_extraction.py:198 | dropping the last of sorted patches keeps the order, and every earlier patch starts no later than the last |
| Text.ContainsLowerOf | src/plot_detection.py:32 | lower-casing keeps an occurrence of a lower-case marker such as `hist` |
| Text.LowerOfLowercase | src/plot_detection.py:38 | a string without upper-case letters is its own lower-cased form |
| Text.NatToStringInjective | src/data_extraction.py:65 | distinct collection indices give distinct decimal renderings, so distinct default labels `series_<i>` |
| Text.DigitRoundTrip | src/data_extraction.py:65 | each digit character reads back as its value |
| DataExtraction.ExtractDataFromAxes | src/data_extraction.py:9-31 | each of the four plot-type strings gives that extractor's table, and any other string gives the empty table |
| DataExtraction.ExtractScatter | src/data_extraction.py:34-74 | the loop over the collections returns the scatter table of the chart's collections |
| DataExtraction.ScatterTableNext | src/data_extraction.py:47-72 | one more `PathCollection` extends each of the four columns in turn, and any other collection leaves the table alone |
| DataExtraction.ScatterTableExtends | src/data_extraction.py:48-72 | a `PathCollection` extends the table by its x and y values, its broadcast sizes and its label once per point |
| DataExtraction.ScatterTableSkips | src/data_extraction.py:48 | a collection of another type leaves the table unchanged |
| DataExtraction.ScatterTableStep | src/data_extraction.py:46-48 | some prefix collection is a `PathCollection` exactly when the shorter prefix has one or the new collection is one; without one, every column is still empty |
| DataExtraction.ExtendScatterColumns | src/data_extraction.py:69-72 | the four `setdefault(...).extend` calls touch different keys, so each column is extended from its own old value |
| DataExtraction.ExtendDisplay | src/data_extraction.py:69-72 | extending the empty table, or a four-column table, column by column gives the four-column table of the extended columns |
| DataExtraction.ScatterTableRows | src/data_extraction.py:46-74 | when every `PathCollection`'s sizes fit its points, the table has exactly the keys x, y, size and label, each with one entry per point |
| DataExtraction.ScatterColumnLengths | src/data_extraction.py:50-66 | the x, y and label columns have one entry per point of the `PathCollection`s |
| DataExtraction.ScatterSizeLength | src/data_extraction.py:55-57 | so does the size column when each collection has one size per point, or a single size and at least one point |
| DataExtraction.ScatterShape | src/data_extraction.py:69-72 | four columns of length n form a table with the four scatter keys, each with n rows |
| DataExtraction.ScatterRow | src/data_extraction.py:50-70 | in the table's x and y columns, point p of collection j is the row right after the points of the earlier collections, with that point's coordinates |
| DataExtraction.ScatterRowLabel | src/data_extraction.py:65-72 | in the table's label column, that row holds the collection's label, or `series_j` when the label is empty |
| DataExtraction.ScatterBroadcast | src/data_extraction.py:55-71 | a collection with one size and more than one point contributes that size once per point, right after the earlier collections' sizes |
| DataExtraction.ScatterIgnoresOtherCollections | src/data_extraction.py:48 | appending a collection that is not a `PathCollection` leaves the table unchanged |
| DataExtraction.ScatterLabelsNonEmpty | src/data_extraction.py:65 | every scatter label is non-empty |
| DataExtraction.ScatterEmptyCollectionKeepsItsSize | src/data_extraction.py:55-57 | a collection with no points and one size gives an empty x column and a one-entry size column |
| DataExtraction.ExtractLine | src/data_extraction.py:77-101 | the loop over the lines returns the line table of the chart's lines |
| DataExtraction.LineRow | src/data_extraction.py:90-99 | value p of line j is the row right after the earlier lines' values, labelled with the line's label or `series_j`; the y column lines up too when every line has as many y as x values |
| DataExtraction.LineTableRows | src/data_extraction.py:89-101 | with some line the keys are x, y and label; label is as long as x, and so is y when every line's data lines up |
| DataExtraction.LineExample | src/data_extraction.py:89-99 | one line through (0, 0), (1, 1), (2, 4) labelled `f` gives x [0, 1, 2], y [0, 1, 4] and label [f, f, f] |
| DataExtraction.ExtractBar | src/data_extraction.py:104-141 | the loop over the patches returns the bar table of the chart's patches |
| DataExtraction.BarTableRows | src/data_extraction.py:116-139 | one row per patch in the chart's order, with the five bar keys; width is the patch width; x is the centre, the left edge plus half the width (so within the bar for a non-negative width); y and height are the patch height; every label is `bars` |
| DataExtraction.ExtractHistogram | src/data_extraction.py:144-226 | the attribute scan and then the patch loop return the histogram table of the chart |
| DataExtraction.FirstRetainedIsFirst | src/data_extraction.py:161-167 | a tuple is used exactly when some qualifying attribute holds one, and it is the tuple of the first such attribute |
| DataExtraction.RetainedTupleColumns | src/data_extraction.py:176-189 | with a retained tuple, the bin starts and ends are its edges without the last and without the first, y and count are its counts, the densities come from those counts, and every label is `histogram` |
| DataExtraction.OneEdgeTuple | src/data_extraction.py:170-189 | a retained tuple with one edge still gives all eight fields: the four edge fields empty, y, count, density and label one entry per count |
| DataExtraction.RetainedTupleIgnoresPatches | src/data_extraction.py:161-193 | with a retained tuple the patches have no effect on the table |
| DataExtraction.BinTableRows | src/data_extraction.py:170-189 | from edges one longer than the counts: one row per count; bin i runs from edge i to edge i+1; consecutive bins share an edge; width is end minus start; x is the midpoint; labels are `histogram` |
| DataExtraction.PatchHistogramRows | src/data_extraction.py:193-224 | without a tuple, one row per patch; bin starts are the sorted left edges, in ascending order; the last bin ends at the right edge of the last sorted patch; counts are the heights in sorted order |
| DataExtraction.LeftsAscend | src/data_extraction.py:198-217 | the left edges of sorted patches ascend |
| DataExtraction.HistogramWithoutDataIsEmpty | src/data_extraction.py:192-226 | with neither a tuple nor patches the table is empty |
| DataExtraction.Density | src/data_extraction.py:184-188 | the density column has one entry per count (each entry is characterised by `DensityRule`) |
| DataExtraction.DensityRule | src/data_extraction.py:184-223 | density has one entry per count; with a positive total each entry is count over total and they sum to 1; otherwise the counts are returned unchanged |
| DataExtraction.DensityExamples | src/data_extraction.py:184-188 | counts [2, 2, 4, 2] give densities [0.2, 0.2, 0.4, 0.2], and counts [0, 0, 0] give [0, 0, 0] |
| DataExtraction.SumScaled | src/data_extraction.py:185 | dividing every entry by d divides the sum by d |

## Left out

- `converter.py` (`mpl_to_vega`, `save_vega_spec`) is not part of this model. It composes the two core operations with external libraries. It raises the no-data error when the extracted table is empty (src/converter.py:62-65) and the format error for an unknown output format (src/converter.py:89-90), and writes files.
- `vega_conversion.py` is not part of this model. It builds the Vega-Lite JSON with Altair and pandas, and raises the unsupported-kind error for any other plot type (src/vega_conversion.py:32-35). An `unknown` plot gives the empty table (`DataExtraction.ExtractDataFromAxes`), so in the source the no-data error is raised before that one can be reached.
- `setup.py` is not part of this model; it is packaging.
- Face colours (`src/data_extraction.py:60-62`): they are computed and broadcast but never stored in the table, so they are not modelled.
- `patch.get_y()` in the bar extractor is read and never used, so it is not modelled.
- Floating point: every number is an exact `real`. `round(w, 5)` is exact decimal rounding, half to even; the binary representation of floats is not modelled. Sums, divisions and the `1e-5` tolerance are exact too.
- `str.lower` is modelled on ASCII letters only. No other Unicode case mapping is modelled.
- Python's dynamic object model. `hasattr` checks and `type(x).__name__` become plain fields: each primitive carries its class name as a string. `dir(ax)` becomes an ordered list of attributes.
- `getattr`, together with the truthiness, `isinstance(..., tuple)` and length test on a `hist()` tuple, becomes the optional `retained` field of an attribute. It is present exactly when the tuple test passes, and then holds the tuple's first two elements.
- NumPy arrays (offsets, sizes, data, counts, edges) are sequences. NumPy-specific failures are not modelled, such as `hist_counts / sum(...)` on a plain list.
- DataExtraction.PatchHistogramRows: states the counts as the heights in sorted order. It does not separately state that they are a rearrangement of the chart's heights; that follows from `Charts.SortByXSorts`.
- Idempotence of extraction (two calls on the same chart give equal tables) holds by construction, because every extractor is proved equal to a function of the chart. It is not stated as a separate lemma.
