/** The abstract chart: the read-only view of a rendered Matplotlib `Axes`
    that the classifier and the extractors query. Each primitive carries the
    class name that the source compares with `type(x).__name__`, so a tag is
    a plain string here. */
module Charts {
  import opened Text

  datatype Option<T> = None | Some(value: T)

  /** An entry of `ax.containers`: its class name and `get_label()`. */
  datatype Container = Container(typeName: string, labelText: string)

  /** The first two elements of a tuple returned by `hist()`: the counts
      and the bin edges. */
  datatype HistResult = HistResult(counts: seq<real>, bins: seq<real>)

  /** A name listed by `dir(ax)`. `retained` is `Some` exactly when the
      attribute's value is a tuple of at least two elements, and then holds
      those two elements; any other value, or a missing one, is `None`. */
  datatype Attribute = Attribute(name: string, retained: Option<HistResult>)

  datatype Point = Point(x: real, y: real)

  /** An entry of `ax.collections`: class name, `get_offsets()`,
      `get_sizes()` and `get_label()`. */
  datatype Collection = Collection(typeName: string, offsets: seq<Point>, sizes: seq<real>, labelText: string)

  /** An entry of `ax.lines`: `get_xdata()`, `get_ydata()` and `get_label()`. */
  datatype Line2D = Line2D(xdata: seq<real>, ydata: seq<real>, labelText: string)

  /** An entry of `ax.patches`: class name, `get_x()`, `get_width()` and `get_height()`. */
  datatype Patch = Patch(typeName: string, x: real, width: real, height: real)

  /** `dir(ax)` is given in the order Python lists it. */
  datatype Chart = Chart(
    containers: seq<Container>,
    attributes: seq<Attribute>,
    collections: seq<Collection>,
    lines: seq<Line2D>,
    patches: seq<Patch>)

  /** A name that both the classifier and the histogram extractor treat as
      a trace of a `hist()` call: it starts with `_` and, lower-cased,
      contains `hist`. */
  predicate IsHistAttributeName(name: string)
  {
    StartsWith(name, "_") && Contains(Lower(name), "hist")
  }

  predicate IsPathCollection(col: Collection)
  {
    col.typeName == "PathCollection"
  }

  predicate HasPathCollection(cs: seq<Collection>)
  {
    exists i | 0 <= i < |cs| :: IsPathCollection(cs[i])
  }

  /** The left edges `get_x()` of the patches, in the given order. */
  function Lefts(ps: seq<Patch>): seq<real>
  {
    seq(|ps|, i requires 0 <= i < |ps| => ps[i].x)
  }

  function Heights(ps: seq<Patch>): seq<real>
  {
    seq(|ps|, i requires 0 <= i < |ps| => ps[i].height)
  }

  predicate SortedByX(ps: seq<Patch>)
  {
    forall i, j :: 0 <= i < j < |ps| ==> ps[i].x <= ps[j].x
  }

  /** Puts `p` into `s` after every trailing patch whose left edge is not
      greater than its own, so that equal keys keep their order
      (`InsertByXStable`). */
  function InsertByX(s: seq<Patch>, p: Patch): (r: seq<Patch>)
    ensures |r| == |s| + 1
    decreases |s|
  {
    if |s| == 0 then [p]
    else if s[|s| - 1].x <= p.x then s + [p]
    else InsertByX(s[..|s| - 1], p) + [s[|s| - 1]]
  }

  /** Inserting adds exactly `p` to the patches. */
  lemma {:induction false} InsertByXPermutes(s: seq<Patch>, p: Patch)
    ensures multiset(InsertByX(s, p)) == multiset(s) + multiset{p}
    decreases |s|
  {
    if |s| > 0 && s[|s| - 1].x > p.x {
      var init, last := s[..|s| - 1], s[|s| - 1];
      InsertByXPermutes(init, p);
      assert s == init + [last];
    }
  }

  /** Inserting into sorted patches keeps them sorted. */
  lemma {:induction false} InsertByXSorted(s: seq<Patch>, p: Patch)
    requires SortedByX(s)
    ensures SortedByX(InsertByX(s, p))
    decreases |s|
  {
    if |s| > 0 {
      if s[|s| - 1].x <= p.x {
        SnocSorted(s, p);
      } else {
        var init, last := s[..|s| - 1], s[|s| - 1];
        SortedInit(s);
        InsertByXSorted(init, p);
        InsertByXPermutes(init, p);
        InsertBelowLast(init, last, p, InsertByX(init, p));
      }
    }
  }

  /** Appending a patch that starts no earlier than the last one keeps the order. */
  lemma SnocSorted(s: seq<Patch>, p: Patch)
    requires SortedByX(s) && (|s| == 0 || s[|s| - 1].x <= p.x)
    ensures SortedByX(s + [p])
  {
    var t := s + [p];
    forall i, j | 0 <= i < j < |t| ensures t[i].x <= t[j].x {
      if j == |s| && i < |s| - 1 {
        assert s[i].x <= s[|s| - 1].x;
      }
    }
  }

  /** Dropping the last patch keeps the order, and every patch before it
      starts no later than it does. */
  lemma SortedInit(s: seq<Patch>)
    requires SortedByX(s) && |s| > 0
    ensures SortedByX(s[..|s| - 1])
    ensures forall i | 0 <= i < |s| - 1 :: s[i].x <= s[|s| - 1].x
  {
  }

  /** The patches of `init` and `p`, in any sorted order, stay left of a
      patch starting no earlier than all of them. */
  lemma InsertBelowLast(init: seq<Patch>, last: Patch, p: Patch, r: seq<Patch>)
    requires SortedByX(r) && multiset(r) == multiset(init) + multiset{p}
    requires forall i | 0 <= i < |init| :: init[i].x <= last.x
    requires p.x < last.x
    ensures SortedByX(r + [last])
  {
    if |r| > 0 {
      var q := r[|r| - 1];
      assert q in multiset(r);
      if q != p {
        assert q in multiset(init);
        var k :| 0 <= k < |init| && init[k] == q;
      }
    }
    SnocSorted(r, last);
  }

  /** Inserting a patch that starts no earlier than every sorted patch appends it. */
  lemma InsertAtEnd(s: seq<Patch>, p: Patch)
    requires |s| == 0 || s[|s| - 1].x <= p.x
    ensures InsertByX(s, p) == s + [p]
  {
  }

  /** Python's `sorted(patches, key=lambda p: p.get_x())`: a sort by left
      edge that inserts each patch in turn into the sorted prefix; it is
      stable (`SortByXStable`). */
  function SortByX(ps: seq<Patch>): (r: seq<Patch>)
    ensures |r| == |ps|
    decreases |ps|
  {
    if |ps| == 0 then [] else InsertByX(SortByX(ps[..|ps| - 1]), ps[|ps| - 1])
  }

  /** The sort yields the same patches in ascending order of left edge. */
  lemma {:induction false} SortByXSorts(ps: seq<Patch>)
    ensures SortedByX(SortByX(ps))
    ensures multiset(SortByX(ps)) == multiset(ps)
    decreases |ps|
  {
    if |ps| > 0 {
      var init, last := ps[..|ps| - 1], ps[|ps| - 1];
      SortByXSorts(init);
      InsertByXSorted(SortByX(init), last);
      InsertByXPermutes(SortByX(init), last);
      SplitLast(ps);
      assert multiset(ps) == multiset(init) + multiset{last};
    }
  }

  /** Sorting patches that are already in ascending order of left edge
      leaves them exactly as they are. */
  lemma {:induction false} SortByXOfSorted(ps: seq<Patch>)
    requires SortedByX(ps)
    ensures SortByX(ps) == ps
    decreases |ps|
  {
    if |ps| > 0 {
      SortedInit(ps);
      SortByXOfSorted(ps[..|ps| - 1]);
      assert |ps| == 1 || ps[|ps| - 2].x <= ps[|ps| - 1].x;
      SortSortedStep(ps);
    }
  }

  /** The inductive step: if sorting leaves the patches before the last one
      alone and the last one starts no earlier than the one before it,
      sorting leaves all of them alone. */
  lemma SortSortedStep(ps: seq<Patch>)
    requires |ps| > 0 && (|ps| == 1 || ps[|ps| - 2].x <= ps[|ps| - 1].x)
    requires SortByX(ps[..|ps| - 1]) == ps[..|ps| - 1]
    ensures SortByX(ps) == ps
  {
    InsertAtEnd(ps[..|ps| - 1], ps[|ps| - 1]);
    SplitLast(ps);
  }

  /** The patches whose left edge is `v`, in the order they appear. */
  function WithX(ps: seq<Patch>, v: real): (r: seq<Patch>)
    ensures forall i | 0 <= i < |r| :: r[i].x == v
    decreases |ps|
  {
    if |ps| == 0 then []
    else WithX(ps[..|ps| - 1], v) + (if ps[|ps| - 1].x == v then [ps[|ps| - 1]] else [])
  }

  lemma {:induction false} WithXAppend(a: seq<Patch>, b: seq<Patch>, v: real)
    ensures WithX(a + b, v) == WithX(a, v) + WithX(b, v)
    decreases |b|
  {
    if |b| > 0 {
      var ab := a + b;
      assert ab[..|ab| - 1] == a + b[..|b| - 1];
      assert ab[|ab| - 1] == b[|b| - 1];
      WithXAppend(a, b[..|b| - 1], v);
    } else {
      assert a + b == a;
    }
  }

  /** Inserting `p` puts it after every patch with the same left edge, so
      among the patches starting at `v` it comes last. */
  lemma {:induction false} InsertByXStable(s: seq<Patch>, p: Patch, v: real)
    ensures WithX(InsertByX(s, p), v) == WithX(s, v) + WithX([p], v)
    decreases |s|
  {
    if |s| == 0 {
      assert InsertByX(s, p) == [] + [p];
    } else if s[|s| - 1].x <= p.x {
      WithXAppend(s, [p], v);
    } else {
      var init, last := s[..|s| - 1], s[|s| - 1];
      InsertByXStable(init, p, v);
      WithXAppend(InsertByX(init, p), [last], v);
      WithXAppend(init, [last], v);
      SplitLast(s);
      assert p.x == v ==> WithX([last], v) == [] by { WithXAppend([], [last], v); }
      assert p.x != v ==> WithX([p], v) == [] by { WithXAppend([], [p], v); }
    }
  }

  /** The sort is stable: for every left edge `v`, the patches starting at
      `v` come out in the order they went in. */
  lemma {:induction false} SortByXStable(ps: seq<Patch>, v: real)
    ensures WithX(SortByX(ps), v) == WithX(ps, v)
    decreases |ps|
  {
    if |ps| > 0 {
      var init, last := ps[..|ps| - 1], ps[|ps| - 1];
      SortByXStable(init, v);
      InsertByXStable(SortByX(init), last, v);
      WithXAppend(init, [last], v);
      SplitLast(ps);
    }
  }

  lemma SplitLast(ps: seq<Patch>)
    requires |ps| > 0
    ensures ps[..|ps| - 1] + [ps[|ps| - 1]] == ps
  {
  }
}
