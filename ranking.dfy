/** The two headline figures of the dashboard: the best-selling product (the
    column with the largest sum) and the best-performing region (the group
    with the largest total over all products), with pandas' tie-breaking, and
    the French sentinels shown when the view is empty. */
module Ranking {
  import opened Sales
  import opened Filtering

  /** Sum of one product column over the rows; a missing cell adds nothing.
      No cell exceeds the sum, and the sum is zero when every cell is zero or
      missing. */
  function ColumnSum(rows: seq<Record>, p: Product): (s: nat)
    ensures forall i :: 0 <= i < |rows| ==> Amount(rows[i], p) <= s
    ensures (forall i :: 0 <= i < |rows| ==> Amount(rows[i], p) == 0) ==> s == 0
  {
    if rows == [] then 0
    else
      var n := |rows| - 1;
      assert forall i :: 0 <= i < n ==> rows[..n][i] == rows[i];
      ColumnSum(rows[..n], p) + Amount(rows[n], p)
  }

  /** Sum, over the listed product columns, of the column sums. */
  function SumOfColumns(rows: seq<Record>, ps: seq<Product>): nat
  {
    if ps == [] then 0
    else SumOfColumns(rows, ps[..|ps| - 1]) + ColumnSum(rows, ps[|ps| - 1])
  }

  /** Everything sold in the rows, all six products together. */
  function GrandTotal(rows: seq<Record>): nat
  {
    SumOfColumns(rows, ProductColumns)
  }

  /** Index of the first largest score: a left-to-right scan that moves on
      only to a strictly larger score, as numpy's argmax (and so `idxmax`) does. */
  function FirstArgMax(scores: seq<int>): (j: nat)
    requires |scores| > 0
    ensures j < |scores|
    ensures forall i :: 0 <= i < |scores| ==> scores[i] <= scores[j]
    ensures forall i :: 0 <= i < j ==> scores[i] < scores[j]
  {
    if |scores| == 1 then 0
    else
      var j := FirstArgMax(scores[..|scores| - 1]);
      if scores[|scores| - 1] > scores[j] then |scores| - 1 else j
  }

  // ---------------------------------------------------------------- top product

  /** `view[product_columns].sum()`: one sum per column, in column order. */
  function ProductSums(view: seq<Record>): (sums: seq<int>)
    ensures |sums| == |ProductColumns|
    ensures forall i :: 0 <= i < |sums| ==> sums[i] == ColumnSum(view, ProductColumns[i])
  {
    seq(|ProductColumns|, i requires 0 <= i < |ProductColumns| => ColumnSum(view, ProductColumns[i]))
  }

  /** The best-selling product, or `None` on an empty view (where the script
      does not compute it). Its column sum is at least every other column's,
      and every column before it in the fixed order sums to strictly less. */
  function TopProduct(view: seq<Record>): (r: Option<Product>)
    ensures r.None? <==> view == []
    ensures r.Some? ==> forall p :: ColumnSum(view, p) <= ColumnSum(view, r.value)
    ensures r.Some? ==> forall p :: ProductIndex(p) < ProductIndex(r.value) ==> ColumnSum(view, p) < ColumnSum(view, r.value)
  {
    if view == [] then None
    else
      var sums := ProductSums(view);
      var j := FirstArgMax(sums);
      assert forall p :: ColumnSum(view, p) == sums[ProductIndex(p)];
      Some(ProductColumns[j])
  }

  /** The first largest column is the only product with both properties of TopProduct. */
  lemma TopProductUnique(view: seq<Record>, q: Product)
    requires view != []
    requires forall p :: ColumnSum(view, p) <= ColumnSum(view, q)
    requires forall p :: ProductIndex(p) < ProductIndex(q) ==> ColumnSum(view, p) < ColumnSum(view, q)
    ensures TopProduct(view) == Some(q)
  {
  }

  // ----------------------------------------------------------------- top region

  /** The rows of one region (`groupby("Region")`; a missing region is in no group). */
  function Group(view: seq<Record>, g: Region): (rows: seq<Record>)
    ensures |rows| <= |view|
    ensures forall r :: r in rows <==> r in view && r.region == Some(g)
  {
    if view == [] then []
    else
      var n := |view| - 1;
      assert view == view[..n] + [view[n]];
      Group(view[..n], g) + (if view[n].region == Some(g) then [view[n]] else [])
  }

  /** Region names in ascending order, the order in which `groupby` lists its keys. */
  const GroupOrder: seq<Region> := [Central, North, South]

  function GroupIndex(g: Region): (i: nat)
    ensures i < |GroupOrder| && GroupOrder[i] == g
  {
    match g
    case Central => 0
    case North => 1
    case South => 2
  }

  /** Group order is the alphabetical order of the region names. */
  lemma GroupOrderIsAlphabetical(g: Region, h: Region)
    ensures LexLess(RegionName(g), RegionName(h)) <==> GroupIndex(g) < GroupIndex(h)
  {
    var a, b := RegionName(g), RegionName(h);
    if a != [] && b != [] && a[0] == b[0] {
      assert g == h;
      LexLessIrreflexive(a);
    }
  }

  lemma {:induction false} LexLessIrreflexive(a: string)
    ensures !LexLess(a, a)
  {
    if a != [] {
      LexLessIrreflexive(a[1..]);
    }
  }

  /** The keys of a grouping: those of `keys` that have at least one row, in order. */
  function PresentAmong(view: seq<Record>, keys: seq<Region>): seq<Region>
  {
    if keys == [] then []
    else
      var g := keys[|keys| - 1];
      PresentAmong(view, keys[..|keys| - 1]) + (if Group(view, g) != [] then [g] else [])
  }

  lemma PresentAmongSpec(view: seq<Record>, keys: seq<Region>)
    requires forall i, j :: 0 <= i < j < |keys| ==> GroupIndex(keys[i]) < GroupIndex(keys[j])
    ensures var present := PresentAmong(view, keys);
      && (forall g :: g in present <==> g in keys && Group(view, g) != [])
      && (forall i, j :: 0 <= i < j < |present| ==> GroupIndex(present[i]) < GroupIndex(present[j]))
  {
    PresentAmongMembers(view, keys);
    PresentAmongOrdered(view, keys);
  }

  lemma {:induction false} PresentAmongMembers(view: seq<Record>, keys: seq<Region>)
    ensures forall g :: g in PresentAmong(view, keys) <==> g in keys && Group(view, g) != []
  {
    if keys != [] {
      var n := |keys| - 1;
      PresentAmongMembers(view, keys[..n]);
      assert keys == keys[..n] + [keys[n]];
    }
  }

  lemma {:induction false} PresentAmongOrdered(view: seq<Record>, keys: seq<Region>)
    requires forall i, j :: 0 <= i < j < |keys| ==> GroupIndex(keys[i]) < GroupIndex(keys[j])
    ensures forall i, j :: 0 <= i < j < |PresentAmong(view, keys)| ==>
      GroupIndex(PresentAmong(view, keys)[i]) < GroupIndex(PresentAmong(view, keys)[j])
  {
    if keys != [] {
      var n := |keys| - 1;
      PresentAmongOrdered(view, keys[..n]);
      PresentAmongMembers(view, keys[..n]);
      var pre := PresentAmong(view, keys[..n]);
      forall g | g in pre ensures GroupIndex(g) < GroupIndex(keys[n]) {
        var i :| 0 <= i < n && keys[..n][i] == g;
      }
      var present := PresentAmong(view, keys);
      assert present == pre + (if Group(view, keys[n]) != [] then [keys[n]] else []);
      forall i, j | 0 <= i < j < |present|
        ensures GroupIndex(present[i]) < GroupIndex(present[j])
      {
        if j < |pre| {
          assert present[i] == pre[i] && present[j] == pre[j];
        } else {
          assert present[i] == pre[i] && present[i] in pre;
          assert present[j] == keys[n];
          assert GroupIndex(pre[i]) < GroupIndex(keys[n]);
        }
      }
    }
  }

  /** Total of one region: its column sums, added across the six products
      (`groupby(...)[product_columns].sum().sum(axis=1)`). It never exceeds
      what the whole view sold. */
  function RegionTotal(view: seq<Record>, g: Region): (t: nat)
    ensures t <= GrandTotal(view)
  {
    forall p | true ensures ColumnSum(Group(view, g), p) <= ColumnSum(view, p) {
      GroupColumnBound(view, g, p);
    }
    SumOfColumnsMonotone(Group(view, g), view, ProductColumns);
    GrandTotal(Group(view, g))
  }

  /** A region's sum of one column is at most the view's. */
  lemma {:induction false} GroupColumnBound(view: seq<Record>, g: Region, p: Product)
    ensures ColumnSum(Group(view, g), p) <= ColumnSum(view, p)
  {
    if view != [] {
      var n := |view| - 1;
      GroupColumnBound(view[..n], g, p);
      GroupSumStep(view, g, p);
    }
  }

  /** Rows whose every column sum is at most another's give a smaller sum over any columns. */
  lemma {:induction false} SumOfColumnsMonotone(a: seq<Record>, b: seq<Record>, ps: seq<Product>)
    requires forall p :: ColumnSum(a, p) <= ColumnSum(b, p)
    ensures SumOfColumns(a, ps) <= SumOfColumns(b, ps)
  {
    if ps != [] {
      SumOfColumnsMonotone(a, b, ps[..|ps| - 1]);
    }
  }

  /** The regions `groupby("Region")` forms groups for, in sorted key order. */
  function GroupKeys(view: seq<Record>): (keys: seq<Region>)
    ensures forall g :: g in keys <==> Group(view, g) != []
    ensures forall i, j :: 0 <= i < j < |keys| ==> GroupIndex(keys[i]) < GroupIndex(keys[j])
  {
    assert forall i :: 0 <= i < |GroupOrder| ==> GroupIndex(GroupOrder[i]) == i;
    assert forall g :: g in GroupOrder by {
      forall g ensures g in GroupOrder {
        assert GroupOrder[GroupIndex(g)] == g;
      }
    }
    PresentAmongSpec(view, GroupOrder);
    PresentAmong(view, GroupOrder)
  }

  /** The best-performing region, or `None` when no row has a region. It is
      a region of the view, its total is at least every present region's, and
      every present region before it in group key order totals strictly less. */
  function TopRegion(view: seq<Record>): (r: Option<Region>)
    ensures r.None? <==> forall g :: Group(view, g) == []
    ensures r.Some? ==> Group(view, r.value) != []
    ensures r.Some? ==> forall g :: Group(view, g) != [] ==> RegionTotal(view, g) <= RegionTotal(view, r.value)
    ensures r.Some? ==> forall g :: Group(view, g) != [] && GroupIndex(g) < GroupIndex(r.value)
                                 ==> RegionTotal(view, g) < RegionTotal(view, r.value)
  {
    var keys := GroupKeys(view);
    if keys == [] then None
    else
      var totals := seq(|keys|, i requires 0 <= i < |keys| => RegionTotal(view, keys[i]) as int);
      var j := FirstArgMax(totals);
      KeyedMaximum(view, keys, totals, j);
      assert keys[0] in keys;
      Some(keys[j])
  }

  /** The first largest total among the sorted keys beats every present region
      and strictly beats those earlier in key order. */
  lemma KeyedMaximum(view: seq<Record>, keys: seq<Region>, totals: seq<int>, j: nat)
    requires |totals| == |keys| && j < |keys|
    requires forall i :: 0 <= i < |keys| ==> totals[i] == RegionTotal(view, keys[i])
    requires forall g :: g in keys <==> Group(view, g) != []
    requires forall i, k :: 0 <= i < k < |keys| ==> GroupIndex(keys[i]) < GroupIndex(keys[k])
    requires forall i :: 0 <= i < |totals| ==> totals[i] <= totals[j]
    requires forall i :: 0 <= i < j ==> totals[i] < totals[j]
    ensures forall g :: Group(view, g) != [] ==> RegionTotal(view, g) <= RegionTotal(view, keys[j])
    ensures forall g :: Group(view, g) != [] && GroupIndex(g) < GroupIndex(keys[j])
                   ==> RegionTotal(view, g) < RegionTotal(view, keys[j])
  {
    forall g | Group(view, g) != []
      ensures RegionTotal(view, g) <= RegionTotal(view, keys[j])
      ensures GroupIndex(g) < GroupIndex(keys[j]) ==> RegionTotal(view, g) < RegionTotal(view, keys[j])
    {
      assert g in keys;
      var i :| 0 <= i < |keys| && keys[i] == g;
      assert totals[i] == RegionTotal(view, g) && totals[j] == RegionTotal(view, keys[j]);
      assert totals[i] <= totals[j];
      if GroupIndex(g) < GroupIndex(keys[j]) {
        assert i < j;
        assert totals[i] < totals[j];
      }
    }
  }

  /** Ties between regions go to the one whose name sorts first: every
      present region whose name sorts before the best one totals strictly less. */
  lemma TopRegionIsFirstMaximum(view: seq<Record>)
    requires TopRegion(view).Some?
    ensures forall g :: Group(view, g) != [] && LexLess(RegionName(g), RegionName(TopRegion(view).value))
                   ==> RegionTotal(view, g) < RegionTotal(view, TopRegion(view).value)
  {
    forall g | Group(view, g) != [] && LexLess(RegionName(g), RegionName(TopRegion(view).value))
      ensures RegionTotal(view, g) < RegionTotal(view, TopRegion(view).value)
    {
      GroupOrderIsAlphabetical(g, TopRegion(view).value);
    }
  }

  /** A region that some row carries has a group. */
  lemma RowRegionHasGroup(view: seq<Record>, i: nat, g: Region)
    requires i < |view| && view[i].region == Some(g)
    ensures Group(view, g) != []
  {
  }

  /** Every region total is counted once: when every row has a region, the
      three region totals add up to everything sold in the view. */
  lemma RegionTotalsPartitionGrandTotal(view: seq<Record>)
    requires forall i :: 0 <= i < |view| ==> view[i].region.Some?
    ensures RegionTotal(view, Central) + RegionTotal(view, North) + RegionTotal(view, South) == GrandTotal(view)
  {
    GroupsPartitionColumns(view, ProductColumns);
  }

  lemma {:induction false} GroupsPartitionColumns(view: seq<Record>, ps: seq<Product>)
    requires forall i :: 0 <= i < |view| ==> view[i].region.Some?
    ensures SumOfColumns(Group(view, Central), ps) + SumOfColumns(Group(view, North), ps) + SumOfColumns(Group(view, South), ps)
         == SumOfColumns(view, ps)
  {
    if ps != [] {
      var n := |ps| - 1;
      GroupsPartitionColumns(view, ps[..n]);
      GroupsPartitionColumn(view, ps[n]);
    }
  }

  lemma {:induction false} GroupsPartitionColumn(view: seq<Record>, p: Product)
    requires forall i :: 0 <= i < |view| ==> view[i].region.Some?
    ensures ColumnSum(Group(view, Central), p) + ColumnSum(Group(view, North), p) + ColumnSum(Group(view, South), p)
         == ColumnSum(view, p)
  {
    if view != [] {
      var n := |view| - 1;
      GroupsPartitionColumn(view[..n], p);
      GroupSumStep(view, Central, p);
      GroupSumStep(view, North, p);
      GroupSumStep(view, South, p);
      assert ColumnSum(view, p) == ColumnSum(view[..n], p) + Amount(view[n], p);
      assert view[n].region.Some?;
      match view[n].region.value
      case Central =>
      case North =>
      case South =>
    }
  }

  /** Adding a row to the view adds its amount to its own region's column sum only. */
  lemma GroupSumStep(view: seq<Record>, g: Region, p: Product)
    requires view != []
    ensures var n := |view| - 1;
      ColumnSum(Group(view, g), p)
        == ColumnSum(Group(view[..n], g), p) + (if view[n].region == Some(g) then Amount(view[n], p) else 0)
  {
    var n := |view| - 1;
    var pre := Group(view[..n], g);
    if view[n].region == Some(g) {
      assert Group(view, g) == pre + [view[n]];
      assert (pre + [view[n]])[..|pre|] == pre;
    } else {
      assert Group(view, g) == pre;
    }
  }

  // ------------------------------------------------------------------ sentinels

  /** The product named in the recommendations: "Aucun produit" on an empty
      view, otherwise the top product's column name. */
  function TopProductLabel(view: seq<Record>): (s: string)
    ensures s == "Aucun produit" <==> view == []
    ensures view != [] ==> s == ProductName(TopProduct(view).value)
  {
    if view == [] then "Aucun produit" else ProductName(TopProduct(view).value)
  }

  /** The region named in the recommendations: "Aucune région" on an empty
      view, otherwise the top region's name. Every filtered view has a region
      on every row, so the grouping of a non-empty view is never empty. */
  function TopRegionLabel(view: seq<Record>): (s: string)
    requires forall i :: 0 <= i < |view| ==> view[i].region.Some?
    ensures s == "Aucune région" <==> view == []
    ensures view != [] ==> TopRegion(view).Some? && s == RegionName(TopRegion(view).value)
  {
    if view == [] then "Aucune région"
    else
      RowRegionHasGroup(view, 0, view[0].region.value);
      RegionName(TopRegion(view).value)
  }

  /** On a filtered view both headline figures fall back to their sentinels
      exactly when no row passes the filter. */
  lemma SentinelsIffEmptyView(rows: seq<Record>, channels: set<Channel>, regions: set<Region>)
    ensures var view := Filter(rows, channels, regions);
      && (TopProductLabel(view) == "Aucun produit" <==> view == [])
      && (TopRegionLabel(view) == "Aucune région" <==> view == [])
      && (view != [] <==> TopRegion(view).Some?)
  {
    var view := Filter(rows, channels, regions);
    if view != [] {
      RowRegionHasGroup(view, 0, view[0].region.value);
    }
  }
}
