/** The plot classifier: an ordered list of rules over the chart's
    primitives, the first that applies deciding the kind. Every rule is a
    pure query of the chart, and the classifier is total. */
module PlotDetection {
  import opened Text
  import opened Charts

  datatype PlotKind = Scatter | Line | Bar | Histogram | Unknown
  {
    /** The string the source returns for this kind. */
    function Name(): string
    {
      match this
      case Scatter => "scatter"
      case Line => "line"
      case Bar => "bar"
      case Histogram => "histogram"
      case Unknown => "unknown"
    }
  }

  /** More than this many rectangles are needed for a histogram. */
  const MinHistogramBars: nat := 5
  /** At most this many distinct rounded widths are allowed in a histogram. */
  const MaxDistinctWidths: nat := 3
  /** `1e-5`: how far a right edge may be from the next left edge. */
  const AdjacencyTolerance: real := 0.00001

  function Abs(r: real): real
  {
    if r < 0.0 then -r else r
  }

  /** Python's `round(w, 5)` taken over exact decimals: the nearest multiple
      of `1e-5`, ties going to the even multiple. The result is such a
      multiple. */
  function Round5(w: real): (r: real)
    ensures (r * 100000.0).Floor as real == r * 100000.0
  {
    var m := w * 100000.0;
    var f := m.Floor;
    var frac := m - f as real;
    var k := if frac < 0.5 then f
             else if frac > 0.5 then f + 1
             else if f % 2 == 0 then f else f + 1;
    k as real / 100000.0
  }

  /** Rounding moves a width by at most half a unit of the fifth decimal. */
  lemma Round5Close(w: real)
    ensures Abs(Round5(w) - w) <= 0.000005
  {
    var m := w * 100000.0;
    var f := m.Floor;
    assert f as real <= m < f as real + 1.0;
  }

  /** Rounding an already rounded width changes nothing. */
  lemma Round5Idempotent(w: real)
    ensures Round5(Round5(w)) == Round5(w)
  {
    var m := w * 100000.0;
    var f := m.Floor;
    var frac := m - f as real;
    var k := if frac < 0.5 then f
             else if frac > 0.5 then f + 1
             else if f % 2 == 0 then f else f + 1;
    assert Round5(w) == k as real / 100000.0;
    assert Round5(w) * 100000.0 == k as real;
    assert (k as real).Floor == k;
  }

  /** A `BarContainer` whose label, lower-cased, contains `hist`. */
  predicate IsHistContainer(k: Container)
  {
    k.typeName == "BarContainer" && Contains(Lower(k.labelText), "hist")
  }

  predicate HasHistContainer(c: Chart)
  {
    exists i | 0 <= i < |c.containers| :: IsHistContainer(c.containers[i])
  }

  predicate HasHistAttribute(c: Chart)
  {
    exists i | 0 <= i < |c.attributes| :: IsHistAttributeName(c.attributes[i].name)
  }

  /** Neither of the two histogram markers is present. */
  predicate NoHistMarker(c: Chart)
  {
    !HasHistContainer(c) && !HasHistAttribute(c)
  }

  /** The chart gets as far as the patch rule: no marker, no
      `PathCollection`, no line, and at least one patch. */
  predicate ReachesPatchRule(c: Chart)
  {
    NoHistMarker(c) && !HasPathCollection(c.collections) && |c.lines| == 0 && |c.patches| > 0
  }

  predicate AllRectangles(ps: seq<Patch>)
  {
    forall i | 0 <= i < |ps| :: ps[i].typeName == "Rectangle"
  }

  /** The set built from `round(w, 5)` over the patch widths. */
  function RoundedWidths(ps: seq<Patch>): set<real>
  {
    set i | 0 <= i < |ps| :: Round5(ps[i].width)
  }

  /** The adjacency gate as the source writes it: the i-th SORTED left edge
      plus the width of the i-th patch in the chart's OWN order must be
      within the tolerance of the (i+1)-th sorted left edge. Fewer than two
      patches are trivially adjacent. */
  predicate Adjacent(ps: seq<Patch>)
    ensures |ps| <= 1 ==> Adjacent(ps)
  {
    EdgesMeet(Lefts(SortByX(ps)), ps)
  }

  /** Edge `xs[i]` plus the width of patch `i` is within the tolerance of edge `xs[i + 1]`. */
  predicate EdgesMeet(xs: seq<real>, ps: seq<Patch>)
    requires |xs| == |ps|
  {
    forall i | 0 <= i < |ps| - 1 :: Abs(xs[i + 1] - (xs[i] + ps[i].width)) < AdjacencyTolerance
  }

  /** The three gates that turn an all-rectangle chart into a histogram. */
  predicate LooksLikeHistogram(ps: seq<Patch>)
  {
    |ps| > MinHistogramBars && |RoundedWidths(ps)| <= MaxDistinctWidths && Adjacent(ps)
  }

  /** `detect_plot_type`: the first rule that applies decides. Every kind
      but `Unknown` is backed by the primitives it is named for. */
  function DetectPlotType(c: Chart): (r: PlotKind)
    ensures r == Scatter ==> HasPathCollection(c.collections)
    ensures r == Line ==> |c.lines| > 0
    ensures r == Bar ==> |c.patches| > 0 && AllRectangles(c.patches)
    ensures r == Histogram && NoHistMarker(c) ==> |c.patches| > MinHistogramBars && AllRectangles(c.patches)
  {
    if HasHistContainer(c) then Histogram
    else if HasHistAttribute(c) then Histogram
    else if HasPathCollection(c.collections) then Scatter
    else if |c.lines| > 0 then Line
    else if |c.patches| > 0 && AllRectangles(c.patches) then
      (if LooksLikeHistogram(c.patches) then Histogram else Bar)
    else Unknown
  }

  /** The five names are distinct, so the string result determines the kind. */
  lemma NameInjective(k1: PlotKind, k2: PlotKind)
    requires k1.Name() == k2.Name()
    ensures k1 == k2
  {
  }

  /** Every kind except `Unknown` names one of the four extractors. */
  lemma NameIsExtractorKey(k: PlotKind)
    ensures k.Name() in {"scatter", "line", "bar", "histogram"} <==> k != Unknown
  {
  }

  /** A histogram-labelled bar container decides the kind, whatever else the chart holds. */
  lemma HistContainerWins(c: Chart)
    requires HasHistContainer(c)
    ensures DetectPlotType(c) == Histogram
  {
  }

  /** So does an underscore attribute whose name mentions `hist`. */
  lemma HistAttributeWins(c: Chart)
    requires HasHistAttribute(c)
    ensures DetectPlotType(c) == Histogram
  {
  }

  /** Scatter exactly when there is no marker and some `PathCollection`,
      even if lines or patches are present too. */
  lemma DetectScatterIff(c: Chart)
    ensures DetectPlotType(c) == Scatter <==> NoHistMarker(c) && HasPathCollection(c.collections)
  {
  }

  /** Line exactly when there is no marker, no `PathCollection` and some line. */
  lemma DetectLineIff(c: Chart)
    ensures DetectPlotType(c) == Line
        <==> NoHistMarker(c) && !HasPathCollection(c.collections) && |c.lines| > 0
  {
  }

  /** Histogram exactly when a marker is present, or the patch rule is
      reached with rectangles only and all three gates pass. */
  lemma DetectHistogramIff(c: Chart)
    ensures DetectPlotType(c) == Histogram
        <==> !NoHistMarker(c)
             || (ReachesPatchRule(c) && AllRectangles(c.patches) && LooksLikeHistogram(c.patches))
  {
  }

  /** Bar exactly when the patch rule is reached with rectangles only and
      some gate fails. */
  lemma DetectBarIff(c: Chart)
    ensures DetectPlotType(c) == Bar
        <==> ReachesPatchRule(c) && AllRectangles(c.patches) && !LooksLikeHistogram(c.patches)
  {
  }

  /** Unknown exactly when nothing qualifies: no marker, no
      `PathCollection`, no line, and no patch or a patch that is not a `Rectangle`. */
  lemma DetectUnknownIff(c: Chart)
    ensures DetectPlotType(c) == Unknown
        <==> NoHistMarker(c) && !HasPathCollection(c.collections) && |c.lines| == 0
             && (|c.patches| == 0 || !AllRectangles(c.patches))
  {
  }

  /** Five rectangles or fewer are always bars, whatever their widths and positions. */
  lemma FewRectanglesAreBars(c: Chart)
    requires ReachesPatchRule(c) && AllRectangles(c.patches)
    requires |c.patches| <= MinHistogramBars
    ensures DetectPlotType(c) == Bar
  {
  }

  predicate UniformWidth(ps: seq<Patch>, w: real)
  {
    forall i | 0 <= i < |ps| :: ps[i].width == w
  }

  /** Each patch starts `gap` to the right of where the previous one ends. */
  predicate Spaced(ps: seq<Patch>, gap: real)
  {
    forall i | 0 <= i < |ps| - 1 :: ps[i + 1].x == ps[i].x + ps[i].width + gap
  }

  lemma {:induction false} SpacedIsSorted(ps: seq<Patch>, gap: real)
    requires Spaced(ps, gap)
    requires forall i | 0 <= i < |ps| :: ps[i].width + gap >= 0.0
    ensures SortedByX(ps)
    decreases |ps|
  {
    if |ps| > 1 {
      var init := ps[..|ps| - 1];
      assert Spaced(init, gap);
      SpacedIsSorted(init, gap);
      var n := |ps| - 1;
      assert ps[n].x >= ps[n - 1].x;
      forall i, j | 0 <= i < j < |ps| ensures ps[i].x <= ps[j].x {
        if j < n {
          assert ps[i] == init[i] && ps[j] == init[j];
        } else if i < n - 1 {
          assert ps[i] == init[i] && ps[n - 1] == init[n - 1];
        }
      }
    }
  }

  /** If every rounded width is among `ws`, there are at most `|ws|` distinct ones. */
  lemma RoundedWidthsWithin(ps: seq<Patch>, ws: set<real>)
    requires forall i | 0 <= i < |ps| :: Round5(ps[i].width) in ws
    ensures |RoundedWidths(ps)| <= |ws|
  {
    assert RoundedWidths(ps) <= ws;
    SubsetCard(RoundedWidths(ps), ws);
  }

  lemma {:induction false} SubsetCard<T>(a: set<T>, b: set<T>)
    requires a <= b
    ensures |a| <= |b|
    decreases |b|
  {
    if a != {} {
      var x :| x in a;
      SubsetCard(a - {x}, b - {x});
    }
  }

  /** More than five rectangles of equal width and edge to edge pass all three gates. */
  lemma {:induction false} AdjacentUniformLooksLikeHistogram(ps: seq<Patch>, w: real)
    requires |ps| > MinHistogramBars
    requires w >= 0.0 && UniformWidth(ps, w) && Spaced(ps, 0.0)
    ensures LooksLikeHistogram(ps)
  {
    RoundedWidthsWithin(ps, {Round5(w)});
    SortedContiguousIsAdjacent(ps);
  }

  /** Patches that are in ascending order and each start where the previous one ends are adjacent. */
  lemma {:induction false} SortedContiguousIsAdjacent(ps: seq<Patch>)
    requires forall i | 0 <= i < |ps| :: ps[i].width >= 0.0
    requires Spaced(ps, 0.0)
    ensures Adjacent(ps)
  {
    SpacedIsSorted(ps, 0.0);
    SortByXOfSorted(ps);
    ContiguousEdgesMeet(ps);
  }

  lemma ContiguousEdgesMeet(ps: seq<Patch>)
    requires Spaced(ps, 0.0)
    ensures EdgesMeet(Lefts(ps), ps)
  {
    var xs := Lefts(ps);
    forall i | 0 <= i < |ps| - 1 ensures Abs(xs[i + 1] - (xs[i] + ps[i].width)) < AdjacencyTolerance {
      assert xs[i + 1] == ps[i + 1].x && xs[i] == ps[i].x;
    }
  }

  /** More than five equal-width rectangles laid edge to edge are a histogram. */
  lemma {:induction false} AdjacentUniformRectanglesAreHistogram(c: Chart, w: real)
    requires NoHistMarker(c) && !HasPathCollection(c.collections) && |c.lines| == 0
    requires AllRectangles(c.patches) && |c.patches| > MinHistogramBars
    requires w >= 0.0 && UniformWidth(c.patches, w) && Spaced(c.patches, 0.0)
    ensures DetectPlotType(c) == Histogram
  {
    AdjacentUniformLooksLikeHistogram(c.patches, w);
  }

  /** The same rectangles pulled apart by a gap of at least the tolerance
      are bars: adjacency is a necessary condition. */
  lemma {:induction false} SpacedUniformRectanglesAreBars(c: Chart, w: real, gap: real)
    requires NoHistMarker(c) && !HasPathCollection(c.collections) && |c.lines| == 0
    requires AllRectangles(c.patches) && |c.patches| > 0
    requires w >= 0.0 && gap >= AdjacencyTolerance && UniformWidth(c.patches, w) && Spaced(c.patches, gap)
    ensures DetectPlotType(c) == Bar
  {
    var ps := c.patches;
    if |ps| > 1 {
      SpacedIsSorted(ps, gap);
      SortByXOfSorted(ps);
      SpacedEdgesMiss(ps, gap);
    }
    assert !LooksLikeHistogram(ps);
  }

  lemma SpacedEdgesMiss(ps: seq<Patch>, gap: real)
    requires |ps| > 1 && gap >= AdjacencyTolerance && Spaced(ps, gap)
    ensures !EdgesMeet(Lefts(ps), ps)
  {
    var xs := Lefts(ps);
    assert xs[1] == ps[1].x && xs[0] == ps[0].x;
    assert Abs(xs[1] - (xs[0] + ps[0].width)) >= AdjacencyTolerance;
  }

  /** Six rectangles of height `h` tiling [0, 7): [0,2) and then five of width 1. */
  function TiledBins(h: real): seq<Patch>
  {
    [Patch("Rectangle", 0.0, 2.0, h), Patch("Rectangle", 2.0, 1.0, h),
     Patch("Rectangle", 3.0, 1.0, h), Patch("Rectangle", 4.0, 1.0, h),
     Patch("Rectangle", 5.0, 1.0, h), Patch("Rectangle", 6.0, 1.0, h)]
  }

  /** The same six rectangles with the first two listed the other way round. */
  function MisorderedBins(h: real): seq<Patch>
  {
    [TiledBins(h)[1], TiledBins(h)[0]] + TiledBins(h)[2..]
  }

  lemma TiledBinsWidths(h: real)
    ensures |RoundedWidths(TiledBins(h))| <= MaxDistinctWidths
    ensures |RoundedWidths(MisorderedBins(h))| <= MaxDistinctWidths
  {
    var ws := {Round5(1.0), Round5(2.0)};
    assert |ws| <= 2;
    RoundedWidthsWithin(TiledBins(h), ws);
    RoundedWidthsWithin(MisorderedBins(h), ws);
  }

  /** Listed in ascending order, the tiled rectangles pass all three gates. */
  lemma TiledBinsAreHistogram(c: Chart, h: real)
    requires NoHistMarker(c) && !HasPathCollection(c.collections) && |c.lines| == 0
    requires c.patches == TiledBins(h)
    ensures DetectPlotType(c) == Histogram
  {
    TiledBinsShape(h);
    SortedContiguousIsAdjacent(TiledBins(h));
    TiledBinsWidths(h);
  }

  lemma TiledBinsShape(h: real)
    ensures |TiledBins(h)| == 6 && AllRectangles(TiledBins(h)) && Spaced(TiledBins(h), 0.0)
    ensures forall i | 0 <= i < |TiledBins(h)| :: TiledBins(h)[i].width >= 0.0
  {
  }

  /** The adjacency gate pairs SORTED left edges with widths in the chart's
      OWN order. The same tiled rectangles with the wide one listed second
      are bars: the leftmost edge 0 is paired with the width 1 of the first
      listed patch and misses the next edge 2 by 1. */
  lemma {:induction false} MisorderedBinsAreBars(c: Chart, h: real)
    requires NoHistMarker(c) && !HasPathCollection(c.collections) && |c.lines| == 0
    requires c.patches == MisorderedBins(h)
    ensures DetectPlotType(c) == Bar
  {
    MisorderedBinsShape(h);
    MisorderedBinsNotAdjacent(h);
  }

  lemma MisorderedBinsShape(h: real)
    ensures |MisorderedBins(h)| == 6 && AllRectangles(MisorderedBins(h))
    ensures MisorderedBins(h)[1].x == 0.0 && MisorderedBins(h)[0].width == 1.0
    ensures forall i | 0 <= i < 6 && i != 1 :: MisorderedBins(h)[i].x >= 2.0
  {
  }

  lemma {:induction false} MisorderedBinsNotAdjacent(h: real)
    ensures !Adjacent(MisorderedBins(h))
  {
    MisorderedBinsShape(h);
    LeftmostMisses(MisorderedBins(h), 1, 2.0);
  }

  /** When patch `k` alone starts left of `bound`, and its left edge plus
      the width of the FIRST listed patch falls short of `bound` by the
      tolerance, the gate fails at the first pair of sorted edges. */
  lemma LeftmostMisses(ps: seq<Patch>, k: nat, bound: real)
    requires 2 <= |ps| && k < |ps|
    requires ps[k].x < bound
    requires forall i | 0 <= i < |ps| && i != k :: ps[i].x >= bound
    requires ps[k].x + ps[0].width + AdjacencyTolerance <= bound
    ensures !Adjacent(ps)
  {
    SortedFirstTwo(ps, k, bound);
    FirstEdgeMisses(Lefts(SortByX(ps)), ps);
  }

  lemma FirstEdgeMisses(xs: seq<real>, ps: seq<Patch>)
    requires |xs| == |ps| >= 2
    requires Abs(xs[1] - (xs[0] + ps[0].width)) >= AdjacencyTolerance
    ensures !EdgesMeet(xs, ps)
  {
  }

  /** When one patch lies strictly left of `bound` and all others start at
      `bound` or later, sorting puts that patch first and a patch starting
      at `bound` or later second. */
  lemma {:induction false} SortedFirstTwo(ps: seq<Patch>, k: nat, bound: real)
    requires 2 <= |ps| && k < |ps|
    requires ps[k].x < bound
    requires forall i | 0 <= i < |ps| && i != k :: ps[i].x >= bound
    ensures SortByX(ps)[0] == ps[k] && SortByX(ps)[1].x >= bound
  {
    var r := SortByX(ps);
    SortByXSorts(ps);
    SortedFirst(ps, k, bound);
    OccursOnce(ps, k, bound);
    assert r[1] in multiset(ps);
    var i1 :| 0 <= i1 < |ps| && ps[i1] == r[1];
    if i1 == k {
      TwoCopies(r);
      assert false;
    }
  }

  lemma TwoCopies(r: seq<Patch>)
    requires |r| >= 2 && r[0] == r[1]
    ensures multiset(r)[r[0]] >= 2
  {
    assert r == [r[0], r[1]] + r[2..];
    assert multiset(r) == multiset{r[0], r[1]} + multiset(r[2..]);
  }

  lemma {:induction false} SortedFirst(ps: seq<Patch>, k: nat, bound: real)
    requires 2 <= |ps| && k < |ps|
    requires ps[k].x < bound
    requires forall i | 0 <= i < |ps| && i != k :: ps[i].x >= bound
    ensures SortByX(ps)[0] == ps[k]
  {
    var r := SortByX(ps);
    SortByXSorts(ps);
    assert ps[k] in multiset(r);
    var j :| 0 <= j < |r| && r[j] == ps[k];
    assert r[0] in multiset(ps);
    var i0 :| 0 <= i0 < |ps| && ps[i0] == r[0];
    if i0 != k {
      assert false;
    }
  }

  lemma {:induction false} OccursOnce(ps: seq<Patch>, k: nat, bound: real)
    requires k < |ps|
    requires ps[k].x < bound
    requires forall i | 0 <= i < |ps| && i != k :: ps[i].x >= bound
    ensures multiset(ps)[ps[k]] == 1
  {
    var p := ps[k];
    assert ps == ps[..k] + [p] + ps[k + 1..];
    assert multiset(ps) == multiset(ps[..k]) + multiset{p} + multiset(ps[k + 1..]);
    assert p !in ps[..k];
    assert p !in ps[k + 1..];
  }

  /** A chart with no primitives at all is of unknown kind. */
  lemma EmptyChartIsUnknown()
    ensures DetectPlotType(Chart([], [], [], [], [])) == Unknown
  {
  }
}
