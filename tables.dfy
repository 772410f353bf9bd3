/** The column table the extractors build: a dictionary from field name to
    a column, each column a list of numbers or a list of labels. */
module Tables {

  datatype Column = Num(nums: seq<real>) | Labels(texts: seq<string>)
  {
    function Length(): nat
    {
      match this
      case Num(ns) => |ns|
      case Labels(ts) => |ts|
    }
  }

  type Table = map<string, Column>

  /** Every column of `t` has exactly `n` entries. */
  predicate HasRows(t: Table, n: nat)
  {
    forall key | key in t :: t[key].Length() == n
  }

  /** `[v] * n`. */
  function Repeat<T>(v: T, n: nat): seq<T>
  {
    seq(n, _ => v)
  }

  /** `data.setdefault(key, [])` for a numeric column. */
  function NumsAt(t: Table, key: string): seq<real>
  {
    if key in t && t[key].Num? then t[key].nums else []
  }

  /** `data.setdefault(key, [])` for a label column. */
  function LabelsAt(t: Table, key: string): seq<string>
  {
    if key in t && t[key].Labels? then t[key].texts else []
  }

  /** The concatenation, in order, of `f(s[i], i)` over the elements of `s`:
      what a `for i, e in enumerate(s)` loop extending one list builds. */
  function Gather<T, U>(s: seq<T>, f: (T, nat) -> seq<U>): seq<U>
    decreases |s|
  {
    if |s| == 0 then [] else Gather(s[..|s| - 1], f) + f(s[|s| - 1], |s| - 1)
  }

  /** One more loop iteration adds the contribution of element `i`. */
  lemma GatherSnoc<T, U>(s: seq<T>, i: nat, f: (T, nat) -> seq<U>)
    requires i < |s|
    ensures Gather(s[..i + 1], f) == Gather(s[..i], f) + f(s[i], i)
  {
    assert s[..i + 1][..i] == s[..i];
  }

  /** The contribution of element `j` sits right after those of the
      elements before it: entry `p` of `f(s[j], j)` is entry
      `|Gather(s[..j], f)| + p` of the whole. */
  lemma {:induction false} GatherAt<T, U>(s: seq<T>, f: (T, nat) -> seq<U>, j: nat, p: nat)
    requires j < |s| && p < |f(s[j], j)|
    ensures |Gather(s[..j], f)| + p < |Gather(s, f)|
    ensures Gather(s, f)[|Gather(s[..j], f)| + p] == f(s[j], j)[p]
    decreases |s|
  {
    var init := s[..|s| - 1];
    if j < |s| - 1 {
      assert init[..j] == s[..j] && init[j] == s[j];
      GatherAt(init, f, j, p);
    } else {
      assert init == s[..j];
    }
  }

  /** Every entry of the whole comes from the contribution of some element. */
  lemma {:induction false} GatherFrom<T, U>(s: seq<T>, f: (T, nat) -> seq<U>, k: nat)
    requires k < |Gather(s, f)|
    ensures exists j, p :: 0 <= j < |s| && 0 <= p < |f(s[j], j)| && Gather(s, f)[k] == f(s[j], j)[p]
    decreases |s|
  {
    var init := s[..|s| - 1];
    var n := |Gather(init, f)|;
    if k < n {
      GatherFrom(init, f, k);
      var j, p :| 0 <= j < |init| && 0 <= p < |f(init[j], j)| && Gather(init, f)[k] == f(init[j], j)[p];
      assert s[j] == init[j];
    } else {
      var j, p := |s| - 1, k - n;
      assert Gather(s, f)[k] == f(s[j], j)[p];
    }
  }

  /** Two contributions of equal length at every element give wholes of equal length. */
  lemma {:induction false} GatherSameLength<T, U, V>(s: seq<T>, f: (T, nat) -> seq<U>, g: (T, nat) -> seq<V>)
    requires forall i | 0 <= i < |s| :: |f(s[i], i)| == |g(s[i], i)|
    ensures |Gather(s, f)| == |Gather(s, g)|
    decreases |s|
  {
    if |s| > 0 {
      var init := s[..|s| - 1];
      assert forall i | 0 <= i < |init| :: init[i] == s[i];
      GatherSameLength(init, f, g);
    }
  }

  /** Elements that contribute nothing leave the whole empty. */
  lemma {:induction false} GatherEmpty<T, U>(s: seq<T>, f: (T, nat) -> seq<U>)
    requires forall i | 0 <= i < |s| :: f(s[i], i) == []
    ensures Gather(s, f) == []
    decreases |s|
  {
    if |s| > 0 {
      var init := s[..|s| - 1];
      assert forall i | 0 <= i < |init| :: init[i] == s[i];
      GatherEmpty(init, f);
    }
  }
}
