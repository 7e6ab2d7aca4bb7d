/** The sidebar filter: keep the rows whose channel and region are both among
    the selected ones, in table order (a boolean mask built from two `isin`). */
module Filtering {
  import opened Sales

  /** The default selections: every option of each multiselect. */
  function AllChannels(): (s: set<Channel>)
    ensures forall c :: c in s
  {
    OptionsAreExhaustive();
    set c | c in ChannelOptions
  }

  function AllRegions(): (s: set<Region>)
    ensures forall g :: g in s
  {
    OptionsAreExhaustive();
    set g | g in RegionOptions
  }

  /** The mask of one row. `isin` is false on a missing value, whatever is selected. */
  predicate Selected(r: Record, channels: set<Channel>, regions: set<Region>): (b: bool)
    ensures b ==> r.channel.Some? && r.region.Some?
    ensures channels == {} || regions == {} ==> !b
  {
    && r.channel.Some? && r.channel.value in channels
    && r.region.Some? && r.region.value in regions
  }

  /** The filtered view. */
  function Filter(rows: seq<Record>, channels: set<Channel>, regions: set<Region>): (view: seq<Record>)
    ensures |view| <= |rows|
    ensures forall k :: 0 <= k < |view| ==> Selected(view[k], channels, regions)
  {
    if rows == [] then []
    else
      var last := rows[|rows| - 1];
      Filter(rows[..|rows| - 1], channels, regions) + (if Selected(last, channels, regions) then [last] else [])
  }

  /** The positions, in the table, of the rows the mask keeps. */
  function KeptIndices(rows: seq<Record>, channels: set<Channel>, regions: set<Region>): seq<nat>
  {
    if rows == [] then []
    else
      KeptIndices(rows[..|rows| - 1], channels, regions)
        + (if Selected(rows[|rows| - 1], channels, regions) then [|rows| - 1] else [])
  }

  /** The view is exactly the selected rows as a subsequence in table order:
      row k of the view is row `idx[k]` of the table, the positions strictly
      increase, and a position is kept if and only if its row is selected. */
  lemma FilterIsStableSelection(rows: seq<Record>, channels: set<Channel>, regions: set<Region>)
    ensures var view, idx := Filter(rows, channels, regions), KeptIndices(rows, channels, regions);
      && |idx| == |view|
      && (forall k :: 0 <= k < |idx| ==> idx[k] < |rows| && view[k] == rows[idx[k]])
      && (forall k, l :: 0 <= k < l < |idx| ==> idx[k] < idx[l])
      && (forall i :: 0 <= i < |rows| ==> (i in idx <==> Selected(rows[i], channels, regions)))
  {
    KeptRowsAreViewRows(rows, channels, regions);
    KeptIndicesIncrease(rows, channels, regions);
    KeptIndicesAreSelected(rows, channels, regions);
  }

  lemma {:induction false} KeptRowsAreViewRows(rows: seq<Record>, channels: set<Channel>, regions: set<Region>)
    ensures var view, idx := Filter(rows, channels, regions), KeptIndices(rows, channels, regions);
      && |idx| == |view|
      && (forall k :: 0 <= k < |idx| ==> idx[k] < |rows| && view[k] == rows[idx[k]])
  {
    if rows != [] {
      var n := |rows| - 1;
      var pre := rows[..n];
      KeptRowsAreViewRows(pre, channels, regions);
      var view0, idx0 := Filter(pre, channels, regions), KeptIndices(pre, channels, regions);
      var view, idx := Filter(rows, channels, regions), KeptIndices(rows, channels, regions);
      var kept := Selected(rows[n], channels, regions);
      assert view == view0 + (if kept then [rows[n]] else []);
      assert idx == idx0 + (if kept then [n] else []);
      forall k | 0 <= k < |idx|
        ensures idx[k] < |rows| && view[k] == rows[idx[k]]
      {
        if k < |idx0| {
          assert view[k] == view0[k] && idx[k] == idx0[k];
          assert pre[idx0[k]] == rows[idx0[k]];
        }
      }
    }
  }

  lemma {:induction false} KeptIndicesBelow(rows: seq<Record>, channels: set<Channel>, regions: set<Region>)
    ensures forall k :: 0 <= k < |KeptIndices(rows, channels, regions)| ==> KeptIndices(rows, channels, regions)[k] < |rows|
  {
    if rows != [] {
      var n := |rows| - 1;
      KeptIndicesBelow(rows[..n], channels, regions);
      var idx0 := KeptIndices(rows[..n], channels, regions);
      assert KeptIndices(rows, channels, regions) == idx0 + (if Selected(rows[n], channels, regions) then [n] else []);
    }
  }

  lemma {:induction false} KeptIndicesIncrease(rows: seq<Record>, channels: set<Channel>, regions: set<Region>)
    ensures forall k, l :: 0 <= k < l < |KeptIndices(rows, channels, regions)| ==>
      KeptIndices(rows, channels, regions)[k] < KeptIndices(rows, channels, regions)[l]
  {
    if rows != [] {
      var n := |rows| - 1;
      KeptIndicesIncrease(rows[..n], channels, regions);
      KeptIndicesBelow(rows[..n], channels, regions);
      var idx0 := KeptIndices(rows[..n], channels, regions);
      var idx := KeptIndices(rows, channels, regions);
      assert idx == idx0 + (if Selected(rows[n], channels, regions) then [n] else []);
      forall k, l | 0 <= k < l < |idx| ensures idx[k] < idx[l] {
        assert idx[k] == idx0[k] && idx0[k] < n;
        if l < |idx0| {
          assert idx[l] == idx0[l];
        } else {
          assert idx[l] == n;
        }
      }
    }
  }

  lemma {:induction false} KeptIndicesAreSelected(rows: seq<Record>, channels: set<Channel>, regions: set<Region>)
    ensures var idx := KeptIndices(rows, channels, regions);
      forall i :: 0 <= i < |rows| ==> (i in idx <==> Selected(rows[i], channels, regions))
  {
    if rows != [] {
      var n := |rows| - 1;
      var pre := rows[..n];
      KeptIndicesAreSelected(pre, channels, regions);
      KeptIndicesBelow(pre, channels, regions);
      var idx0 := KeptIndices(pre, channels, regions);
      var idx := KeptIndices(rows, channels, regions);
      assert idx == idx0 + (if Selected(rows[n], channels, regions) then [n] else []);
      assert n !in idx0;
      forall i | 0 <= i < n
        ensures i in idx <==> Selected(rows[i], channels, regions)
      {
        assert pre[i] == rows[i];
      }
    }
  }

  /** A row is in the view if and only if it is a row of the table that is selected. */
  lemma FilterMembership(rows: seq<Record>, channels: set<Channel>, regions: set<Region>, r: Record)
    ensures r in Filter(rows, channels, regions) <==> r in rows && Selected(r, channels, regions)
  {
  }

  /** Filtering the view again with the same selections changes nothing. */
  lemma {:induction false} FilterIdempotent(rows: seq<Record>, channels: set<Channel>, regions: set<Region>)
    ensures Filter(Filter(rows, channels, regions), channels, regions) == Filter(rows, channels, regions)
  {
    if rows != [] {
      var n := |rows| - 1;
      var pre := Filter(rows[..n], channels, regions);
      FilterIdempotent(rows[..n], channels, regions);
      if Selected(rows[n], channels, regions) {
        var view := pre + [rows[n]];
        assert view[..|view| - 1] == pre;
      } else {
        assert Filter(rows, channels, regions) == pre;
      }
    }
  }

  /** Filtering distributes over concatenation of tables. */
  lemma {:induction false} FilterAppend(a: seq<Record>, b: seq<Record>, channels: set<Channel>, regions: set<Region>)
    ensures Filter(a + b, channels, regions) == Filter(a, channels, regions) + Filter(b, channels, regions)
    decreases |b|
  {
    if b == [] {
      assert a + b == a;
    } else {
      var n := |b| - 1;
      assert (a + b)[..|a + b| - 1] == a + b[..n];
      FilterAppend(a, b[..n], channels, regions);
    }
  }

  /** Emptying either multiselect empties the view. */
  lemma {:induction false} EmptySelectionEmptiesView(rows: seq<Record>, channels: set<Channel>, regions: set<Region>)
    requires channels == {} || regions == {}
    ensures Filter(rows, channels, regions) == []
  {
    if rows != [] {
      EmptySelectionEmptiesView(rows[..|rows| - 1], channels, regions);
    }
  }

  /** With the default selections the view is the whole table exactly when no
      row has a missing channel or region. */
  lemma DefaultSelectionKeepsKnownRows(rows: seq<Record>)
    ensures Filter(rows, AllChannels(), AllRegions()) == rows
        <==> forall i :: 0 <= i < |rows| ==> rows[i].channel.Some? && rows[i].region.Some?
  {
    FilterIsStableSelection(rows, AllChannels(), AllRegions());
    if forall i :: 0 <= i < |rows| ==> rows[i].channel.Some? && rows[i].region.Some? {
      DefaultSelectionKeepsAll(rows);
    }
  }

  lemma {:induction false} DefaultSelectionKeepsAll(rows: seq<Record>)
    requires forall i :: 0 <= i < |rows| ==> rows[i].channel.Some? && rows[i].region.Some?
    ensures Filter(rows, AllChannels(), AllRegions()) == rows
  {
    if rows != [] {
      var n := |rows| - 1;
      DefaultSelectionKeepsAll(rows[..n]);
      assert rows[..n] + [rows[n]] == rows;
    }
  }
}
