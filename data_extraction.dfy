/** The extractors: given the chart and the plot-type string, walk the
    matching primitives and build the column table. Each extractor is a
    method with the source's loop, proved equal to a specification function
    of the chart; the lemmas below state what those tables contain. */
module DataExtraction {
  import opened Text
  import opened Charts
  import opened Tables

  // ---------------------------------------------------------------------
  // Scatter

  /** `collection.get_label() or f"series_{i}"`. */
  function SeriesLabel(labelText: string, i: nat): string
  {
    if labelText != "" then labelText else "series_" + NatToString(i)
  }

  function OffsetXs(offsets: seq<Point>): seq<real>
  {
    seq(|offsets|, k requires 0 <= k < |offsets| => offsets[k].x)
  }

  function OffsetYs(offsets: seq<Point>): seq<real>
  {
    seq(|offsets|, k requires 0 <= k < |offsets| => offsets[k].y)
  }

  /** The sizes a collection contributes: a single size is repeated once per
      point when there is more than one point, otherwise the sizes are kept. */
  function BroadcastSizes(col: Collection): seq<real>
  {
    if |col.sizes| == 1 && |col.offsets| > 1 then Repeat(col.sizes[0], |col.offsets|) else col.sizes
  }

  // What collection number `i` adds to each scatter column: only a
  // `PathCollection` adds anything.
  function PointXs(col: Collection, i: nat): seq<real>
  {
    if IsPathCollection(col) then OffsetXs(col.offsets) else []
  }

  function PointYs(col: Collection, i: nat): seq<real>
  {
    if IsPathCollection(col) then OffsetYs(col.offsets) else []
  }

  function PointSizes(col: Collection, i: nat): seq<real>
  {
    if IsPathCollection(col) then BroadcastSizes(col) else []
  }

  function PointLabels(col: Collection, i: nat): seq<string>
  {
    if IsPathCollection(col) then Repeat(SeriesLabel(col.labelText, i), |col.offsets|) else []
  }

  /** The table `extract_scatter_data` returns: no field at all unless some
      collection is a `PathCollection`. */
  function ScatterTable(cs: seq<Collection>): Table
  {
    if HasPathCollection(cs) then
      map["x" := Num(Gather(cs, PointXs)), "y" := Num(Gather(cs, PointYs)),
          "size" := Num(Gather(cs, PointSizes)), "label" := Labels(Gather(cs, PointLabels))]
    else map[]
  }

  lemma ScatterTableStep(cs: seq<Collection>, i: nat)
    requires i < |cs|
    ensures HasPathCollection(cs[..i + 1]) <==> HasPathCollection(cs[..i]) || IsPathCollection(cs[i])
    ensures !HasPathCollection(cs[..i]) ==>
      Gather(cs[..i], PointXs) == [] && Gather(cs[..i], PointYs) == [] &&
      Gather(cs[..i], PointSizes) == [] && Gather(cs[..i], PointLabels) == []
  {
    var pre := cs[..i];
    assert forall k | 0 <= k < i :: cs[..i + 1][k] == pre[k];
    assert cs[..i + 1][i] == cs[i];
    if !HasPathCollection(pre) {
      GatherEmpty(pre, PointXs);
      GatherEmpty(pre, PointYs);
      GatherEmpty(pre, PointSizes);
      GatherEmpty(pre, PointLabels);
    }
  }

  /** What one more `PathCollection` does to the table: each column in turn
      is extended, as `data.setdefault(key, []).extend(...)` does. */
  function ExtendScatter(t: Table, col: Collection, i: nat): Table
  {
    var t1 := t["x" := Num(NumsAt(t, "x") + OffsetXs(col.offsets))];
    var t2 := t1["y" := Num(NumsAt(t1, "y") + OffsetYs(col.offsets))];
    var t3 := t2["size" := Num(NumsAt(t2, "size") + BroadcastSizes(col))];
    t3["label" := Labels(LabelsAt(t3, "label") + Repeat(SeriesLabel(col.labelText, i), |col.offsets|))]
  }

  /** The four extensions touch different keys, so each column is extended
      from its own old value. */
  lemma ExtendScatterColumns(t: Table, col: Collection, i: nat)
    ensures ExtendScatter(t, col, i) ==
      t["x" := Num(NumsAt(t, "x") + OffsetXs(col.offsets))]
       ["y" := Num(NumsAt(t, "y") + OffsetYs(col.offsets))]
       ["size" := Num(NumsAt(t, "size") + BroadcastSizes(col))]
       ["label" := Labels(LabelsAt(t, "label") + Repeat(SeriesLabel(col.labelText, i), |col.offsets|))]
  {
    var t1 := t["x" := Num(NumsAt(t, "x") + OffsetXs(col.offsets))];
    assert NumsAt(t1, "y") == NumsAt(t, "y");
    var t2 := t1["y" := Num(NumsAt(t1, "y") + OffsetYs(col.offsets))];
    assert NumsAt(t2, "size") == NumsAt(t, "size");
    var t3 := t2["size" := Num(NumsAt(t2, "size") + BroadcastSizes(col))];
    assert LabelsAt(t3, "label") == LabelsAt(t, "label");
  }

  /** One more collection: a `PathCollection` extends every column, any
      other collection leaves the table alone. */
  lemma ScatterTableNext(cs: seq<Collection>, i: nat)
    requires i < |cs|
    ensures IsPathCollection(cs[i]) ==> ScatterTable(cs[..i + 1]) == ExtendScatter(ScatterTable(cs[..i]), cs[i], i)
    ensures !IsPathCollection(cs[i]) ==> ScatterTable(cs[..i + 1]) == ScatterTable(cs[..i])
  {
    if IsPathCollection(cs[i]) {
      ScatterTableExtends(cs, i);
    } else {
      ScatterTableSkips(cs, i);
    }
  }

  lemma ScatterTableSkips(cs: seq<Collection>, i: nat)
    requires i < |cs| && !IsPathCollection(cs[i])
    ensures ScatterTable(cs[..i + 1]) == ScatterTable(cs[..i])
  {
    ScatterTableStep(cs, i);
    var pre := cs[..i];
    assert Gather(cs[..i + 1], PointXs) == Gather(pre, PointXs) by { GatherSnoc(cs, i, PointXs); }
    assert Gather(cs[..i + 1], PointYs) == Gather(pre, PointYs) by { GatherSnoc(cs, i, PointYs); }
    assert Gather(cs[..i + 1], PointSizes) == Gather(pre, PointSizes) by { GatherSnoc(cs, i, PointSizes); }
    assert Gather(cs[..i + 1], PointLabels) == Gather(pre, PointLabels) by { GatherSnoc(cs, i, PointLabels); }
  }

  lemma ScatterTableExtends(cs: seq<Collection>, i: nat)
    requires i < |cs| && IsPathCollection(cs[i])
    ensures ScatterTable(cs[..i + 1]) == ExtendScatter(ScatterTable(cs[..i]), cs[i], i)
  {
    var pre, col := cs[..i], cs[i];
    ScatterTableStep(cs, i);
    GatherSnoc(cs, i, PointXs);
    GatherSnoc(cs, i, PointYs);
    GatherSnoc(cs, i, PointSizes);
    GatherSnoc(cs, i, PointLabels);
    ExtendScatterColumns(ScatterTable(pre), col, i);
    ExtendDisplay(ScatterTable(pre), Gather(pre, PointXs), Gather(pre, PointYs), Gather(pre, PointSizes), Gather(pre, PointLabels),
      OffsetXs(col.offsets), OffsetYs(col.offsets), BroadcastSizes(col), Repeat(SeriesLabel(col.labelText, i), |col.offsets|));
  }

  /** Extending the empty table or a four-column table column by column
      gives the four-column table of the extended columns. */
  lemma ExtendDisplay(t: Table, xs: seq<real>, ys: seq<real>, ss: seq<real>, ls: seq<string>,
                      dx: seq<real>, dy: seq<real>, ds: seq<real>, dl: seq<string>)
    requires t == map[] ==> xs == [] && ys == [] && ss == [] && ls == []
    requires t == map[] || t == map["x" := Num(xs), "y" := Num(ys), "size" := Num(ss), "label" := Labels(ls)]
    ensures t["x" := Num(NumsAt(t, "x") + dx)]["y" := Num(NumsAt(t, "y") + dy)]
             ["size" := Num(NumsAt(t, "size") + ds)]["label" := Labels(LabelsAt(t, "label") + dl)]
         == map["x" := Num(xs + dx), "y" := Num(ys + dy), "size" := Num(ss + ds), "label" := Labels(ls + dl)]
  {
    if t == map[] {
      assert [] + dx == dx && [] + dy == dy && [] + ds == ds && [] + dl == dl;
    }
  }

  /** `extract_scatter_data`. */
  method ExtractScatter(c: Chart) returns (data: Table)
    ensures data == ScatterTable(c.collections)
  {
    var cs := c.collections;
    data := map[];
    if |cs| > 0 {
      var i := 0;
      while i < |cs|
        invariant 0 <= i <= |cs|
        invariant data == ScatterTable(cs[..i])
      {
        var col := cs[i];
        ScatterTableNext(cs, i);
        ghost var before := data;
        if col.typeName == "PathCollection" {
          var xs := OffsetXs(col.offsets);
          var ys := OffsetYs(col.offsets);
          var sizes := col.sizes;
          if |sizes| == 1 && |xs| > 1 {
            sizes := Repeat(sizes[0], |xs|);
          }
          var seriesLabel := if col.labelText != "" then col.labelText else "series_" + NatToString(i);
          var labels := Repeat(seriesLabel, |xs|);
          assert sizes == BroadcastSizes(col) && labels == Repeat(SeriesLabel(col.labelText, i), |col.offsets|);
          data := data["x" := Num(NumsAt(data, "x") + xs)];
          data := data["y" := Num(NumsAt(data, "y") + ys)];
          data := data["size" := Num(NumsAt(data, "size") + sizes)];
          data := data["label" := Labels(LabelsAt(data, "label") + labels)];
          assert data == ExtendScatter(before, col, i);
        }
        i := i + 1;
      }
    }
    assert cs[..|cs|] == cs;
  }

  /** Points in all `PathCollection`s together. */
  function PointCount(cs: seq<Collection>): nat
    decreases |cs|
  {
    if |cs| == 0 then 0
    else PointCount(cs[..|cs| - 1]) + (if IsPathCollection(cs[|cs| - 1]) then |cs[|cs| - 1].offsets| else 0)
  }

  /** A collection whose sizes line up with its points after broadcasting. */
  predicate SizesFit(col: Collection)
  {
    |col.sizes| == |col.offsets| || (|col.sizes| == 1 && |col.offsets| > 0)
  }

  /** The x, y and label columns have one entry per point of the
      `PathCollection`s. */
  lemma {:induction false} ScatterColumnLengths(cs: seq<Collection>)
    ensures |Gather(cs, PointXs)| == PointCount(cs)
    ensures |Gather(cs, PointYs)| == PointCount(cs)
    ensures |Gather(cs, PointLabels)| == PointCount(cs)
    decreases |cs|
  {
    if |cs| > 0 {
      ScatterColumnLengths(cs[..|cs| - 1]);
    }
  }

  /** So has the size column when every `PathCollection`'s sizes fit its points. */
  lemma {:induction false} ScatterSizeLength(cs: seq<Collection>)
    requires forall i | 0 <= i < |cs| && IsPathCollection(cs[i]) :: SizesFit(cs[i])
    ensures |Gather(cs, PointSizes)| == PointCount(cs)
    decreases |cs|
  {
    if |cs| > 0 {
      var init := cs[..|cs| - 1];
      assert forall i | 0 <= i < |init| :: init[i] == cs[i];
      ScatterSizeLength(init);
    }
  }

  /** A table from `extract_scatter_data` over collections whose sizes fit
      has all four columns of the same length, one row per point. */
  lemma ScatterTableRows(cs: seq<Collection>)
    requires HasPathCollection(cs)
    requires forall i | 0 <= i < |cs| && IsPathCollection(cs[i]) :: SizesFit(cs[i])
    ensures ScatterTable(cs).Keys == {"x", "y", "size", "label"}
    ensures HasRows(ScatterTable(cs), PointCount(cs))
  {
    ScatterColumnLengths(cs);
    ScatterSizeLength(cs);
    ScatterShape(Gather(cs, PointXs), Gather(cs, PointYs), Gather(cs, PointSizes), Gather(cs, PointLabels), PointCount(cs));
  }

  lemma ScatterShape(xs: seq<real>, ys: seq<real>, sizes: seq<real>, labels: seq<string>, n: nat)
    requires |xs| == |ys| == |sizes| == |labels| == n
    ensures var t := map["x" := Num(xs), "y" := Num(ys), "size" := Num(sizes), "label" := Labels(labels)];
      t.Keys == {"x", "y", "size", "label"} && HasRows(t, n)
  {
  }

  /** Point `p` of `PathCollection` number `j` is the row right after the
      points of the collections before it, with its own coordinates. */
  lemma {:induction false} ScatterRow(cs: seq<Collection>, j: nat, p: nat)
    requires j < |cs| && IsPathCollection(cs[j]) && p < |cs[j].offsets|
    ensures var t, row := ScatterTable(cs), PointCount(cs[..j]) + p;
      && row < |t["x"].nums| && t["x"].nums[row] == cs[j].offsets[p].x
      && row < |t["y"].nums| && t["y"].nums[row] == cs[j].offsets[p].y
  {
    assert HasPathCollection(cs) by { assert IsPathCollection(cs[j]); }
    GatheredRow(cs, j, p);
  }

  /** The same row, read in the gathered x and y columns. */
  lemma {:induction false} GatheredRow(cs: seq<Collection>, j: nat, p: nat)
    requires j < |cs| && IsPathCollection(cs[j]) && p < |cs[j].offsets|
    ensures var row := PointCount(cs[..j]) + p;
      && row < |Gather(cs, PointXs)| && Gather(cs, PointXs)[row] == cs[j].offsets[p].x
      && row < |Gather(cs, PointYs)| && Gather(cs, PointYs)[row] == cs[j].offsets[p].y
  {
    ScatterColumnLengths(cs[..j]);
    assert PointCount(cs[..j]) + p < |Gather(cs, PointXs)| && Gather(cs, PointXs)[PointCount(cs[..j]) + p] == cs[j].offsets[p].x by {
      GatherAt(cs, PointXs, j, p);
    }
    GatherAt(cs, PointYs, j, p);
  }

  /** The same row of the label column holds the collection's label, or
      `series_j` when that label is empty. */
  lemma {:induction false} ScatterRowLabel(cs: seq<Collection>, j: nat, p: nat)
    requires j < |cs| && IsPathCollection(cs[j]) && p < |cs[j].offsets|
    ensures var t, row := ScatterTable(cs), PointCount(cs[..j]) + p;
      row < |t["label"].texts| && t["label"].texts[row] == SeriesLabel(cs[j].labelText, j)
  {
    assert HasPathCollection(cs) by { assert IsPathCollection(cs[j]); }
    ScatterColumnLengths(cs[..j]);
    GatherAt(cs, PointLabels, j, p);
  }

  /** A `PathCollection` with one size and more than one point contributes
      that size once per point, right after the sizes of the collections
      before it. */
  lemma ScatterBroadcast(cs: seq<Collection>, j: nat)
    requires j < |cs| && IsPathCollection(cs[j])
    requires |cs[j].sizes| == 1 && |cs[j].offsets| > 1
    ensures var sizes, start := ScatterTable(cs)["size"].nums, |Gather(cs[..j], PointSizes)|;
      start + |cs[j].offsets| <= |sizes| &&
      forall r | start <= r < start + |cs[j].offsets| :: sizes[r] == cs[j].sizes[0]
  {
    var sizes, start := ScatterTable(cs)["size"].nums, |Gather(cs[..j], PointSizes)|;
    forall r | start <= r < start + |cs[j].offsets| ensures r < |sizes| && sizes[r] == cs[j].sizes[0] {
      GatherAt(cs, PointSizes, j, r - start);
    }
    GatherAt(cs, PointSizes, j, |cs[j].offsets| - 1);
  }

  /** A collection of another type adds nothing to the table. */
  lemma ScatterIgnoresOtherCollections(cs: seq<Collection>, col: Collection)
    requires !IsPathCollection(col)
    ensures ScatterTable(cs + [col]) == ScatterTable(cs)
  {
    var cs' := cs + [col];
    assert cs'[..|cs'| - 1] == cs;
    assert Gather(cs', PointXs) == Gather(cs, PointXs);
    assert Gather(cs', PointYs) == Gather(cs, PointYs);
    assert Gather(cs', PointSizes) == Gather(cs, PointSizes);
    assert Gather(cs', PointLabels) == Gather(cs, PointLabels);
    assert HasPathCollection(cs') ==> HasPathCollection(cs) by {
      if HasPathCollection(cs') {
        var i :| 0 <= i < |cs'| && IsPathCollection(cs'[i]);
        assert cs[i] == cs'[i];
      }
    }
    assert HasPathCollection(cs) ==> HasPathCollection(cs') by {
      if HasPathCollection(cs) {
        var i :| 0 <= i < |cs| && IsPathCollection(cs[i]);
        assert cs'[i] == cs[i];
      }
    }
  }

  /** Every scatter label is non-empty: an empty collection label is
      replaced by `series_i`. */
  lemma ScatterLabelsNonEmpty(cs: seq<Collection>, k: nat)
    requires HasPathCollection(cs) && k < |ScatterTable(cs)["label"].texts|
    ensures ScatterTable(cs)["label"].texts[k] != ""
  {
    GatherFrom(cs, PointLabels, k);
  }

  /** A `PathCollection` with no points and one size (what `ax.scatter([], [])`
      leaves) gives a size column one longer than the x column: the
      broadcast only fires for more than one point. */
  lemma ScatterEmptyCollectionKeepsItsSize(s: real)
    ensures var t := ScatterTable([Collection("PathCollection", [], [s], "")]);
      "x" in t && "size" in t && |t["x"].nums| == 0 && t["size"].nums == [s]
  {
    var cs := [Collection("PathCollection", [], [s], "")];
    assert IsPathCollection(cs[0]);
    assert HasPathCollection(cs);
    assert cs[..0] == [];
    assert Gather(cs, PointXs) == [] + PointXs(cs[0], 0);
    assert Gather(cs, PointSizes) == [] + PointSizes(cs[0], 0);
  }

  // ---------------------------------------------------------------------
  // Line

  function LineXs(line: Line2D, i: nat): seq<real>
  {
    line.xdata
  }

  function LineYs(line: Line2D, i: nat): seq<real>
  {
    line.ydata
  }

  /** The label repeated once per x value: `[label] * len(x_data)`. */
  function LineLabels(line: Line2D, i: nat): seq<string>
  {
    Repeat(SeriesLabel(line.labelText, i), |line.xdata|)
  }

  /** The table `extract_line_data` returns. */
  function LineTable(ls: seq<Line2D>): Table
  {
    if |ls| == 0 then map[]
    else map["x" := Num(Gather(ls, LineXs)), "y" := Num(Gather(ls, LineYs)), "label" := Labels(Gather(ls, LineLabels))]
  }

  /** `extract_line_data`. */
  method ExtractLine(c: Chart) returns (data: Table)
    ensures data == LineTable(c.lines)
  {
    var ls := c.lines;
    data := map[];
    if |ls| > 0 {
      var i := 0;
      while i < |ls|
        invariant 0 <= i <= |ls|
        invariant data == LineTable(ls[..i])
      {
        var line := ls[i];
        GatherSnoc(ls, i, LineXs);
        GatherSnoc(ls, i, LineYs);
        GatherSnoc(ls, i, LineLabels);
        var xs := line.xdata;
        var ys := line.ydata;
        var seriesLabel := if line.labelText != "" then line.labelText else "series_" + NatToString(i);
        var labels := Repeat(seriesLabel, |xs|);
        data := data["x" := Num(NumsAt(data, "x") + xs)];
        data := data["y" := Num(NumsAt(data, "y") + ys)];
        data := data["label" := Labels(LabelsAt(data, "label") + labels)];
        i := i + 1;
      }
    }
    assert ls[..|ls|] == ls;
  }

  /** One line through (0, 0), (1, 1) and (2, 4) labelled `f` gives one
      row per point, each labelled `f`. */
  lemma LineExample()
    ensures LineTable([Line2D([0.0, 1.0, 2.0], [0.0, 1.0, 4.0], "f")])
      == map["x" := Num([0.0, 1.0, 2.0]), "y" := Num([0.0, 1.0, 4.0]), "label" := Labels(["f", "f", "f"])]
  {
    var ls := [Line2D([0.0, 1.0, 2.0], [0.0, 1.0, 4.0], "f")];
    assert ls[..0] == [];
    assert SeriesLabel("f", 0) == "f";
    assert Gather(ls, LineXs) == [0.0, 1.0, 2.0];
    assert Gather(ls, LineYs) == [0.0, 1.0, 4.0];
    assert Gather(ls, LineLabels) == ["f", "f", "f"];
  }

  /** Values `p` of line number `j` form the row right after the values of
      the lines before it, labelled with the line's label or `series_j`;
      the y column lines up too when every line has as many y as x values. */
  lemma LineRow(ls: seq<Line2D>, j: nat, p: nat)
    requires j < |ls| && p < |ls[j].xdata|
    ensures var t, row := LineTable(ls), |Gather(ls[..j], LineXs)| + p;
      && row < |t["x"].nums| && t["x"].nums[row] == ls[j].xdata[p]
      && row < |t["label"].texts| && t["label"].texts[row] == SeriesLabel(ls[j].labelText, j)
      && ((forall i | 0 <= i < |ls| :: |ls[i].xdata| == |ls[i].ydata|) ==>
            row < |t["y"].nums| && t["y"].nums[row] == ls[j].ydata[p])
  {
    assert LineTable(ls)["x"].nums == Gather(ls, LineXs);
    assert LineTable(ls)["y"].nums == Gather(ls, LineYs);
    assert LineTable(ls)["label"].texts == Gather(ls, LineLabels);
    GatheredLineRow(ls, j, p);
    if forall i | 0 <= i < |ls| :: |ls[i].xdata| == |ls[i].ydata| {
      GatheredLineY(ls, j, p);
    }
  }

  /** The same row, read in the gathered x and label columns. */
  lemma GatheredLineRow(ls: seq<Line2D>, j: nat, p: nat)
    requires j < |ls| && p < |ls[j].xdata|
    ensures var row := |Gather(ls[..j], LineXs)| + p;
      && row < |Gather(ls, LineXs)| && Gather(ls, LineXs)[row] == ls[j].xdata[p]
      && row < |Gather(ls, LineLabels)| && Gather(ls, LineLabels)[row] == SeriesLabel(ls[j].labelText, j)
  {
    GatherAt(ls, LineXs, j, p);
    GatheredLineLabel(ls, j, p);
  }

  lemma GatheredLineLabel(ls: seq<Line2D>, j: nat, p: nat)
    requires j < |ls| && p < |ls[j].xdata|
    ensures var row := |Gather(ls[..j], LineXs)| + p;
      row < |Gather(ls, LineLabels)| && Gather(ls, LineLabels)[row] == SeriesLabel(ls[j].labelText, j)
  {
    LineLabelLength(ls[..j]);
    assert |LineLabels(ls[j], j)| == |ls[j].xdata|;
    GatherAt(ls, LineLabels, j, p);
    assert LineLabels(ls[j], j)[p] == SeriesLabel(ls[j].labelText, j);
  }

  /** The label column has one label per x value. */
  lemma {:induction false} LineLabelLength(ls: seq<Line2D>)
    ensures |Gather(ls, LineLabels)| == |Gather(ls, LineXs)|
    decreases |ls|
  {
    if |ls| > 0 {
      LineLabelLength(ls[..|ls| - 1]);
    }
  }

  /** The same row of the gathered y column, when every line has as many
      y as x values. */
  lemma GatheredLineY(ls: seq<Line2D>, j: nat, p: nat)
    requires j < |ls| && p < |ls[j].xdata|
    requires forall i | 0 <= i < |ls| :: |ls[i].xdata| == |ls[i].ydata|
    ensures var row := |Gather(ls[..j], LineXs)| + p;
      row < |Gather(ls, LineYs)| && Gather(ls, LineYs)[row] == ls[j].ydata[p]
  {
    assert forall i | 0 <= i < |ls[..j]| :: ls[..j][i] == ls[i];
    GatherSameLength(ls[..j], LineXs, LineYs);
    GatherAt(ls, LineYs, j, p);
  }

  /** The x and label columns always have the same length, and the y
      column too when every line has as many y as x values. */
  lemma LineTableRows(ls: seq<Line2D>)
    requires |ls| > 0
    ensures LineTable(ls).Keys == {"x", "y", "label"}
    ensures |LineTable(ls)["label"].texts| == |LineTable(ls)["x"].nums|
    ensures (forall i | 0 <= i < |ls| :: |ls[i].xdata| == |ls[i].ydata|) ==>
      HasRows(LineTable(ls), |LineTable(ls)["x"].nums|)
  {
    GatherSameLength(ls, LineXs, LineLabels);
    if forall i | 0 <= i < |ls| :: |ls[i].xdata| == |ls[i].ydata| {
      GatherSameLength(ls, LineXs, LineYs);
    }
  }

  // ---------------------------------------------------------------------
  // Bar

  function Widths(ps: seq<Patch>): seq<real>
  {
    seq(|ps|, i requires 0 <= i < |ps| => ps[i].width)
  }

  function Centres(ps: seq<Patch>): seq<real>
  {
    seq(|ps|, i requires 0 <= i < |ps| => ps[i].x + ps[i].width / 2.0)
  }

  /** The table `extract_bar_data` returns. */
  function BarTable(ps: seq<Patch>): Table
  {
    if |ps| == 0 then map[]
    else map["x" := Num(Centres(ps)), "y" := Num(Heights(ps)), "width" := Num(Widths(ps)),
             "height" := Num(Heights(ps)), "label" := Labels(Repeat("bars", |ps|))]
  }

  /** `extract_bar_data`. */
  method ExtractBar(c: Chart) returns (data: Table)
    ensures data == BarTable(c.patches)
  {
    var ps := c.patches;
    data := map[];
    if |ps| > 0 {
      var xData, yData, widthData, heightData := [], [], [], [];
      var i := 0;
      while i < |ps|
        invariant 0 <= i <= |ps|
        invariant |xData| == |yData| == |widthData| == |heightData| == i
        invariant forall k | 0 <= k < i :: xData[k] == ps[k].x + ps[k].width / 2.0
        invariant forall k | 0 <= k < i :: yData[k] == ps[k].height && heightData[k] == ps[k].height
        invariant forall k | 0 <= k < i :: widthData[k] == ps[k].width
      {
        var patch := ps[i];
        var x, width, height := patch.x, patch.width, patch.height;
        xData := xData + [x + width / 2.0];
        yData := yData + [height];
        widthData := widthData + [width];
        heightData := heightData + [height];
        i := i + 1;
      }
      assert xData == Centres(ps);
      assert yData == Heights(ps) && heightData == Heights(ps);
      assert widthData == Widths(ps);
      data := data["x" := Num(xData)];
      data := data["y" := Num(yData)];
      data := data["width" := Num(widthData)];
      data := data["height" := Num(heightData)];
      data := data["label" := Labels(Repeat("bars", |xData|))];
    }
  }

  /** One row per patch, in the chart's order: the width column is the
      patch width, the x column is the centre of the bar, half a width right
      of the left edge; y and height are the patch height; every label is
      `bars`. */
  lemma BarTableRows(ps: seq<Patch>, i: nat)
    requires i < |ps|
    ensures var t := BarTable(ps);
      && t.Keys == {"x", "y", "width", "height", "label"}
      && HasRows(t, |ps|)
      && t["width"].nums[i] == ps[i].width
      && t["x"].nums[i] == ps[i].x + ps[i].width / 2.0
      && t["y"].nums[i] == t["height"].nums[i] == ps[i].height
      && t["label"].texts[i] == "bars"
      && (ps[i].width >= 0.0 ==> ps[i].x <= t["x"].nums[i] <= ps[i].x + ps[i].width)
  {
  }

  // ---------------------------------------------------------------------
  // Histogram

  /** `s[:-1]`. */
  function DropLast<T>(s: seq<T>): seq<T>
  {
    if |s| == 0 then [] else s[..|s| - 1]
  }

  /** `s[1:]`. */
  function DropFirst<T>(s: seq<T>): seq<T>
  {
    if |s| == 0 then [] else s[1..]
  }

  /** `len(range(len(edges) - 1))`: the number of bins the edges delimit. */
  function BinCount(edges: seq<real>): nat
  {
    if |edges| == 0 then 0 else |edges| - 1
  }

  function BinWidths(edges: seq<real>): seq<real>
  {
    seq(BinCount(edges), i requires 0 <= i < BinCount(edges) => edges[i + 1] - edges[i])
  }

  function BinCentres(edges: seq<real>): seq<real>
  {
    seq(BinCount(edges), i requires 0 <= i < BinCount(edges) => (edges[i] + edges[i + 1]) / 2.0)
  }

  function Sum(s: seq<real>): real
    decreases |s|
  {
    if |s| == 0 then 0.0 else s[0] + Sum(s[1..])
  }

  /** Each count divided by the total when the total is positive;
      otherwise the counts themselves. */
  function Density(counts: seq<real>): (r: seq<real>)
    ensures |r| == |counts|
  {
    var total := Sum(counts);
    if total > 0.0 then seq(|counts|, i requires 0 <= i < |counts| => counts[i] / total) else counts
  }

  /** The eight histogram fields, computed from bin edges and counts the
      same way by both strategies. */
  function BinTable(edges: seq<real>, counts: seq<real>): Table
  {
    map["bin_start" := Num(DropLast(edges)), "bin_end" := Num(DropFirst(edges)),
        "bin_width" := Num(BinWidths(edges)), "x" := Num(BinCentres(edges)),
        "y" := Num(counts), "count" := Num(counts), "density" := Num(Density(counts)),
        "label" := Labels(Repeat("histogram", |counts|))]
  }

  /** An attribute the retained-tuple strategy can use. */
  predicate Retains(a: Attribute)
  {
    IsHistAttributeName(a.name) && a.retained.Some?
  }

  /** The tuple held by the first attribute that `Retains`, if any. */
  function FirstRetained(attrs: seq<Attribute>): Option<HistResult>
    decreases |attrs|
  {
    if |attrs| == 0 then None
    else if Retains(attrs[0]) then attrs[0].retained
    else FirstRetained(attrs[1..])
  }

  /** The edges rebuilt from patches sorted by left edge: every left edge,
      then the right edge of the last patch. */
  function PatchEdges(sorted: seq<Patch>): seq<real>
    requires |sorted| > 0
  {
    Lefts(sorted) + [sorted[|sorted| - 1].x + sorted[|sorted| - 1].width]
  }

  /** The table `extract_histogram_data` returns. */
  function HistogramTable(c: Chart): Table
  {
    match FirstRetained(c.attributes)
    case Some(h) => BinTable(h.bins, h.counts)
    case None =>
      if |c.patches| == 0 then map[]
      else
        var sorted := SortByX(c.patches);
        BinTable(PatchEdges(sorted), Heights(sorted))
  }

  /** `extract_histogram_data`. */
  method ExtractHistogram(c: Chart) returns (data: Table)
    ensures data == HistogramTable(c)
  {
    data := map[];
    var attrs := c.attributes;
    var k := 0;
    while k < |attrs|
      invariant 0 <= k <= |attrs|
      invariant FirstRetained(attrs[k..]) == FirstRetained(attrs)
    {
      var key := attrs[k];
      if StartsWith(key.name, "_") && Contains(Lower(key.name), "hist") {
        var held := key.retained;
        if held.Some? {
          var counts, bins := held.value.counts, held.value.bins;
          data := BinTable(bins, counts);
          return;
        }
      }
      assert attrs[k..][1..] == attrs[k + 1..];
      k := k + 1;
    }
    assert FirstRetained(attrs) == None;
    if data == map[] && |c.patches| > 0 {
      var patches := SortByX(c.patches);
      var n := |patches|;
      var edges: seq<real> := [];
      var heights: seq<real> := [];
      var i := 0;
      while i < n
        invariant 0 <= i <= n
        invariant |heights| == i
        invariant forall j | 0 <= j < i :: heights[j] == patches[j].height
        invariant |edges| == if i == n then n + 1 else i
        invariant forall j | 0 <= j < i :: edges[j] == patches[j].x
        invariant i == n ==> edges[n] == patches[n - 1].x + patches[n - 1].width
      {
        var patch := patches[i];
        var x, width, height := patch.x, patch.width, patch.height;
        edges := edges + [x];
        heights := heights + [height];
        if |edges| == n {
          edges := edges + [x + width];
        }
        i := i + 1;
      }
      assert edges == PatchEdges(patches);
      assert heights == Heights(patches);
      data := BinTable(edges, heights);
    }
  }

  /** The retained tuple is the one of the first attribute that qualifies:
      some attribute qualifies exactly when the result is present, and then
      it is that attribute's tuple and no earlier attribute qualifies. */
  lemma {:induction false} FirstRetainedIsFirst(attrs: seq<Attribute>)
    ensures FirstRetained(attrs).Some? <==> exists i | 0 <= i < |attrs| :: Retains(attrs[i])
    ensures FirstRetained(attrs).Some? ==>
      exists i | 0 <= i < |attrs| :: Retains(attrs[i]) && attrs[i].retained == FirstRetained(attrs)
        && forall j | 0 <= j < i :: !Retains(attrs[j])
    decreases |attrs|
  {
    if |attrs| > 0 && !Retains(attrs[0]) {
      var rest := attrs[1..];
      FirstRetainedIsFirst(rest);
      assert forall i | 0 <= i < |rest| :: rest[i] == attrs[i + 1];
      if FirstRetained(rest).Some? {
        var i :| 0 <= i < |rest| && Retains(rest[i]) && rest[i].retained == FirstRetained(rest)
          && forall j | 0 <= j < i :: !Retains(rest[j]);
        assert Retains(attrs[i + 1]);
        assert forall j | 0 <= j < i + 1 :: !Retains(attrs[j]) by {
          forall j | 0 <= j < i + 1 ensures !Retains(attrs[j]) {
            if j > 0 {
              assert attrs[j] == rest[j - 1];
            }
          }
        }
      } else {
        forall i | 0 <= i < |attrs| ensures !Retains(attrs[i]) {
          if i > 0 {
            assert attrs[i] == rest[i - 1];
          }
        }
      }
    }
  }

  /** A retained tuple with a single edge still gives all eight fields:
      the four edge fields are empty, while y, count, density and label
      have one entry per count. */
  lemma OneEdgeTuple(c: Chart, e: real, counts: seq<real>)
    requires FirstRetained(c.attributes) == Some(HistResult(counts, [e]))
    ensures var t := HistogramTable(c);
      && t.Keys == {"bin_start", "bin_end", "bin_width", "x", "y", "count", "density", "label"}
      && t["bin_start"].nums == t["bin_end"].nums == t["bin_width"].nums == t["x"].nums == []
      && |t["y"].nums| == |t["count"].nums| == |t["density"].nums| == |t["label"].texts| == |counts|
  {
  }

  /** When a tuple is retained the patches are never consulted. */
  lemma RetainedTupleIgnoresPatches(c: Chart, ps: seq<Patch>)
    requires FirstRetained(c.attributes).Some?
    ensures HistogramTable(c.(patches := ps)) == HistogramTable(c)
  {
  }

  /** With a retained tuple the bins come straight from it: starts are all
      edges but the last, ends all but the first, y and count are its
      counts, and the densities are computed from those counts. */
  lemma RetainedTupleColumns(c: Chart, h: HistResult)
    requires FirstRetained(c.attributes) == Some(h)
    ensures var t := HistogramTable(c);
      && t["bin_start"].nums == DropLast(h.bins) && t["bin_end"].nums == DropFirst(h.bins)
      && t["y"].nums == t["count"].nums == h.counts
      && t["density"].nums == Density(h.counts)
      && t["label"].texts == Repeat("histogram", |h.counts|)
  {
  }

  /** From edges one longer than the counts, every column has one entry per
      count; bin `i` runs from edge `i` to edge `i + 1`, consecutive bins
      share an edge, the width is end minus start and x is the midpoint. */
  lemma BinTableRows(edges: seq<real>, counts: seq<real>)
    requires |edges| == |counts| + 1
    ensures var t := BinTable(edges, counts);
      && t.Keys == {"bin_start", "bin_end", "bin_width", "x", "y", "count", "density", "label"}
      && HasRows(t, |counts|)
      && t["count"].nums == t["y"].nums == counts
      && (forall i | 0 <= i < |counts| ::
            && t["bin_start"].nums[i] == edges[i]
            && t["bin_end"].nums[i] == edges[i + 1]
            && t["bin_width"].nums[i] == t["bin_end"].nums[i] - t["bin_start"].nums[i]
            && t["x"].nums[i] == (t["bin_start"].nums[i] + t["bin_end"].nums[i]) / 2.0
            && t["label"].texts[i] == "histogram")
      && (forall i | 0 <= i < |counts| - 1 :: t["bin_end"].nums[i] == t["bin_start"].nums[i + 1])
  {
    var t := BinTable(edges, counts);
    assert |Density(counts)| == |counts|;
    assert HasRows(t, |counts|);
  }

  /** Without a retained tuple and with patches, the patches sorted by left
      edge give the bins: one row per patch, bin starts are the sorted left
      edges (so they ascend), the last bin ends at the right edge of the
      rightmost-starting patch, and the counts are the heights in that order. */
  lemma PatchHistogramRows(c: Chart)
    requires FirstRetained(c.attributes) == None && |c.patches| > 0
    ensures var t, sorted, n := HistogramTable(c), SortByX(c.patches), |c.patches|;
      && HasRows(t, n)
      && t["bin_start"].nums == Lefts(sorted)
      && (forall i, j | 0 <= i < j < n :: t["bin_start"].nums[i] <= t["bin_start"].nums[j])
      && t["bin_end"].nums[n - 1] == sorted[n - 1].x + sorted[n - 1].width
      && t["count"].nums == Heights(sorted)
  {
    var sorted, n := SortByX(c.patches), |c.patches|;
    var edges := PatchEdges(sorted);
    var t := BinTable(edges, Heights(sorted));
    assert HistogramTable(c) == t;
    BinTableRows(edges, Heights(sorted));
    assert t["bin_start"].nums == DropLast(edges) == Lefts(sorted);
    SortByXSorts(c.patches);
    LeftsAscend(sorted);
    assert t["bin_end"].nums[n - 1] == edges[n];
  }

  lemma LeftsAscend(ps: seq<Patch>)
    requires SortedByX(ps)
    ensures forall i, j | 0 <= i < j < |ps| :: Lefts(ps)[i] <= Lefts(ps)[j]
  {
  }

  /** A chart with neither a retained tuple nor patches gives the empty table. */
  lemma HistogramWithoutDataIsEmpty(c: Chart)
    requires FirstRetained(c.attributes) == None && |c.patches| == 0
    ensures HistogramTable(c) == map[]
  {
  }

  /** Dividing every entry by `d` divides the sum by `d`. */
  lemma {:induction false} SumScaled(s: seq<real>, d: real)
    requires d != 0.0
    ensures Sum(seq(|s|, i requires 0 <= i < |s| => s[i] / d)) == Sum(s) / d
    decreases |s|
  {
    var q := seq(|s|, i requires 0 <= i < |s| => s[i] / d);
    if |s| > 0 {
      var q' := seq(|s[1..]|, i requires 0 <= i < |s[1..]| => s[1..][i] / d);
      assert q[1..] == q';
      SumScaled(s[1..], d);
    }
  }

  /** With a positive total the densities are count / total and sum to 1;
      otherwise they are the counts unchanged. */
  lemma DensityRule(counts: seq<real>)
    ensures |Density(counts)| == |counts|
    ensures Sum(counts) > 0.0 ==>
      (Sum(Density(counts)) == 1.0 && forall i | 0 <= i < |counts| :: Density(counts)[i] == counts[i] / Sum(counts))
    ensures Sum(counts) <= 0.0 ==> Density(counts) == counts
  {
    var total := Sum(counts);
    if total > 0.0 {
      SumScaled(counts, total);
      assert Density(counts) == seq(|counts|, i requires 0 <= i < |counts| => counts[i] / total);
    }
  }

  lemma DensityExamples()
    ensures Density([2.0, 2.0, 4.0, 2.0]) == [0.2, 0.2, 0.4, 0.2]
    ensures Density([0.0, 0.0, 0.0]) == [0.0, 0.0, 0.0]
  {
    assert Sum([2.0, 2.0, 4.0, 2.0]) == 10.0;
    assert Sum([0.0, 0.0, 0.0]) == 0.0;
  }

  // ---------------------------------------------------------------------
  // Dispatch

  /** `extract_data_from_axes`: the extractor named by the plot-type
      string; any other string gives the empty table. */
  method ExtractDataFromAxes(c: Chart, plotType: string) returns (data: Table)
    ensures plotType == "scatter" ==> data == ScatterTable(c.collections)
    ensures plotType == "line" ==> data == LineTable(c.lines)
    ensures plotType == "bar" ==> data == BarTable(c.patches)
    ensures plotType == "histogram" ==> data == HistogramTable(c)
    ensures plotType !in {"scatter", "line", "bar", "histogram"} ==> data == map[]
  {
    data := map[];
    if plotType == "scatter" {
      data := ExtractScatter(c);
    } else if plotType == "line" {
      data := ExtractLine(c);
    } else if plotType == "bar" {
      data := ExtractBar(c);
    } else if plotType == "histogram" {
      data := ExtractHistogram(c);
    }
  }
}
