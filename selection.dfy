/**
 * Selection resolution: how `apply_catalog` turns the catalog's ordered
 * `(breadcrumb, selected)` pairs into a dimension list and a metric list.
 */
module Selection {
  import opened Seqs

  /** The two fixed name sets the stream classifies fields against (`DIMENSIONS`, `BASE_METRICS`). */
  datatype FieldCatalog = FieldCatalog(dimensions: set<string>, baseMetrics: set<string>)

  datatype FieldKind = Dimension | Metric | Unknown

  /** One entry of the resolved selection: a breadcrumb (a path of names) and its selected flag. */
  datatype Crumb = Crumb(path: seq<string>, selected: bool)

  const Day := "day"

  /** Dimension membership is tested first, then metric membership. */
  function Classify(fc: FieldCatalog, name: string): (k: FieldKind)
    ensures k == Dimension <==> name in fc.dimensions
    ensures k == Metric <==> name !in fc.dimensions && name in fc.baseMetrics
    ensures k == Unknown <==> name !in fc.dimensions && name !in fc.baseMetrics
  {
    if name in fc.dimensions then Dimension
    else if name in fc.baseMetrics then Metric
    else Unknown
  }

  /** A breadcrumb takes part only when it is non-empty and selected. */
  predicate Picked(c: Crumb)
  {
    |c.path| > 0 && c.selected
  }

  function Leaf(c: Crumb): string
    requires |c.path| > 0
  {
    c.path[|c.path| - 1]
  }

  /** The leaves the loop appends to the dimension list, in selection order. */
  function SelectedDimensions(fc: FieldCatalog, sel: seq<Crumb>): seq<string>
  {
    if sel == [] then []
    else
      var c := sel[|sel| - 1];
      SelectedDimensions(fc, sel[..|sel| - 1])
        + (if Picked(c) && Classify(fc, Leaf(c)) == Dimension then [Leaf(c)] else [])
  }

  /** The leaves the loop appends to the metric list, in selection order. */
  function SelectedMetrics(fc: FieldCatalog, sel: seq<Crumb>): seq<string>
  {
    if sel == [] then []
    else
      var c := sel[|sel| - 1];
      SelectedMetrics(fc, sel[..|sel| - 1])
        + (if Picked(c) && Classify(fc, Leaf(c)) == Metric then [Leaf(c)] else [])
  }

  /** A name is a selected dimension exactly when some picked breadcrumb ends in it and it is a dimension. */
  lemma {:induction false} SelectedDimensionsMembers(fc: FieldCatalog, sel: seq<Crumb>, x: string)
    ensures x in SelectedDimensions(fc, sel) <==>
      x in fc.dimensions && exists i :: 0 <= i < |sel| && Picked(sel[i]) && Leaf(sel[i]) == x
  {
    if sel != [] {
      var init := sel[..|sel| - 1];
      SelectedDimensionsMembers(fc, init, x);
      if exists i :: 0 <= i < |init| && Picked(init[i]) && Leaf(init[i]) == x {
        var i :| 0 <= i < |init| && Picked(init[i]) && Leaf(init[i]) == x;
        assert sel[i] == init[i];
      }
      if exists i :: 0 <= i < |sel| && Picked(sel[i]) && Leaf(sel[i]) == x {
        var i :| 0 <= i < |sel| && Picked(sel[i]) && Leaf(sel[i]) == x;
        if i < |init| {
          assert init[i] == sel[i];
        }
      }
    }
  }

  /**
   * A name is a selected metric exactly when some picked breadcrumb ends in it, it is a base
   * metric, and it is not a dimension.
   */
  lemma {:induction false} SelectedMetricsMembers(fc: FieldCatalog, sel: seq<Crumb>, x: string)
    ensures x in SelectedMetrics(fc, sel) <==>
      x !in fc.dimensions && x in fc.baseMetrics &&
      exists i :: 0 <= i < |sel| && Picked(sel[i]) && Leaf(sel[i]) == x
  {
    if sel != [] {
      var init := sel[..|sel| - 1];
      SelectedMetricsMembers(fc, init, x);
      if exists i :: 0 <= i < |init| && Picked(init[i]) && Leaf(init[i]) == x {
        var i :| 0 <= i < |init| && Picked(init[i]) && Leaf(init[i]) == x;
        assert sel[i] == init[i];
      }
      if exists i :: 0 <= i < |sel| && Picked(sel[i]) && Leaf(sel[i]) == x {
        var i :| 0 <= i < |sel| && Picked(sel[i]) && Leaf(sel[i]) == x;
        if i < |init| {
          assert init[i] == sel[i];
        }
      }
    }
  }

  /** A leaf in neither name set ends up in neither list. */
  lemma UnknownLeafIgnored(fc: FieldCatalog, sel: seq<Crumb>, x: string)
    requires x !in fc.dimensions && x !in fc.baseMetrics
    ensures x !in SelectedDimensions(fc, sel) && x !in SelectedMetrics(fc, sel)
  {
    SelectedDimensionsMembers(fc, sel, x);
    SelectedMetricsMembers(fc, sel, x);
  }

  /** No name lands in both lists. */
  lemma DimensionsAndMetricsDisjoint(fc: FieldCatalog, sel: seq<Crumb>, x: string)
    ensures !(x in SelectedDimensions(fc, sel) && x in SelectedMetrics(fc, sel))
  {
    SelectedDimensionsMembers(fc, sel, x);
    SelectedMetricsMembers(fc, sel, x);
  }

  /** The dimension list with `"day"` appended when it is missing. */
  function WithDay(ds: seq<string>): (r: seq<string>)
    ensures Day in r
    ensures Day in ds ==> r == ds
    ensures Day !in ds ==> r == ds + [Day]
  {
    if Day in ds then ds else ds + [Day]
  }

  /**
   * `list(set(s))`: the distinct elements of `s` in an order the model leaves open (Python's
   * set iteration order depends on string hashing).
   */
  method DistinctList(s: seq<string>) returns (r: seq<string>)
    ensures NoDuplicates(r)
    ensures forall x :: x in r <==> x in s
  {
    var pool := set x | x in s;
    r := [];
    while pool != {}
      invariant NoDuplicates(r)
      invariant forall x :: x in r ==> x !in pool
      invariant forall x :: x in s <==> x in r || x in pool
      decreases |pool|
    {
      var x :| x in pool;
      r := r + [x];
      pool := pool - {x};
    }
  }
}
