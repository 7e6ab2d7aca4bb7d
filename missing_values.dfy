/** The missing-value report: the number of missing cells per column, keeping
    only the columns that have at least one. */
module MissingValues {
  import opened Sales
  import opened Filtering

  /** The eight columns of the table. */
  datatype Column = ChannelColumn | RegionColumn | ProductColumn(product: Product)

  /** The column order of the table. */
  const Columns: seq<Column> := [
    ChannelColumn, RegionColumn,
    ProductColumn(Robusta), ProductColumn(Arabica), ProductColumn(Espresso),
    ProductColumn(Lungo), ProductColumn(Latte), ProductColumn(Cappuccino)]

  function ColumnIndex(c: Column): (i: nat)
    ensures i < |Columns| && Columns[i] == c
  {
    match c
    case ChannelColumn => 0
    case RegionColumn => 1
    case ProductColumn(p) => 2 + ProductIndex(p)
  }

  /** `isnull()` of one cell. A missing product cell adds nothing to its
      column's sum, and a row missing its channel or region passes no filter. */
  predicate IsNull(r: Record, c: Column): (b: bool)
    ensures b && c.ProductColumn? ==> Amount(r, c.product) == 0
    ensures b && !c.ProductColumn? ==> forall channels, regions :: !Selected(r, channels, regions)
  {
    match c
    case ChannelColumn => r.channel.None?
    case RegionColumn => r.region.None?
    case ProductColumn(p) => Quantity(r, p).None?
  }

  /** `isnull().sum()` of one column. */
  function NullCount(view: seq<Record>, c: Column): (k: nat)
    ensures k <= |view|
  {
    if view == [] then 0
    else NullCount(view[..|view| - 1], c) + (if IsNull(view[|view| - 1], c) then 1 else 0)
  }

  /** A column has no missing cell when its count is zero. */
  lemma {:induction false} NullCountZero(view: seq<Record>, c: Column)
    ensures NullCount(view, c) == 0 <==> forall i :: 0 <= i < |view| ==> !IsNull(view[i], c)
  {
    if view != [] {
      var n := |view| - 1;
      NullCountZero(view[..n], c);
      assert forall i :: 0 <= i < n ==> view[..n][i] == view[i];
    }
  }

  /** The counts of the listed columns, in order, keeping those above zero. */
  function Report(view: seq<Record>, cols: seq<Column>): seq<(Column, nat)>
  {
    if cols == [] then []
    else
      var c := cols[|cols| - 1];
      Report(view, cols[..|cols| - 1]) + (if NullCount(view, c) > 0 then [(c, NullCount(view, c))] else [])
  }

  /** The report over the table's columns (`missing_values[missing_values > 0]`):
      an entry for a column exactly when that column has a missing cell, the
      entry being its count, and entries in column order. */
  function MissingValueReport(view: seq<Record>): (report: seq<(Column, nat)>)
    ensures forall c, k :: (c, k) in report <==> NullCount(view, c) > 0 && k == NullCount(view, c)
    ensures forall i, j :: 0 <= i < j < |report| ==> ColumnIndex(report[i].0) < ColumnIndex(report[j].0)
  {
    assert forall i :: 0 <= i < |Columns| ==> ColumnIndex(Columns[i]) == i;
    assert forall c :: c in Columns by {
      forall c ensures c in Columns {
        assert Columns[ColumnIndex(c)] == c;
      }
    }
    ReportSpec(view, Columns);
    Report(view, Columns)
  }

  lemma ReportSpec(view: seq<Record>, cols: seq<Column>)
    requires forall i, j :: 0 <= i < j < |cols| ==> ColumnIndex(cols[i]) < ColumnIndex(cols[j])
    ensures forall c, k :: (c, k) in Report(view, cols) <==> c in cols && NullCount(view, c) > 0 && k == NullCount(view, c)
    ensures forall i, j :: 0 <= i < j < |Report(view, cols)| ==>
      ColumnIndex(Report(view, cols)[i].0) < ColumnIndex(Report(view, cols)[j].0)
  {
    ReportEntries(view, cols);
    ReportOrdered(view, cols);
  }

  lemma {:induction false} ReportEntries(view: seq<Record>, cols: seq<Column>)
    ensures forall c, k :: (c, k) in Report(view, cols) <==> c in cols && NullCount(view, c) > 0 && k == NullCount(view, c)
  {
    if cols != [] {
      var n := |cols| - 1;
      ReportEntries(view, cols[..n]);
      assert cols == cols[..n] + [cols[n]];
    }
  }

  lemma {:induction false} ReportOrdered(view: seq<Record>, cols: seq<Column>)
    requires forall i, j :: 0 <= i < j < |cols| ==> ColumnIndex(cols[i]) < ColumnIndex(cols[j])
    ensures forall i, j :: 0 <= i < j < |Report(view, cols)| ==>
      ColumnIndex(Report(view, cols)[i].0) < ColumnIndex(Report(view, cols)[j].0)
  {
    if cols != [] {
      var n := |cols| - 1;
      ReportOrdered(view, cols[..n]);
      ReportEntries(view, cols[..n]);
      var pre := Report(view, cols[..n]);
      var report := Report(view, cols);
      assert report == pre + (if NullCount(view, cols[n]) > 0 then [(cols[n], NullCount(view, cols[n]))] else []);
      forall i, j | 0 <= i < j < |report|
        ensures ColumnIndex(report[i].0) < ColumnIndex(report[j].0)
      {
        assert report[i] == pre[i];
        if j < |pre| {
          assert report[j] == pre[j];
        } else {
          assert report[j].0 == cols[n];
          assert pre[i] in pre;
          var m :| 0 <= m < n && cols[..n][m] == pre[i].0;
        }
      }
    }
  }

  /** A view without missing cells gives an empty report, and only such a view does. */
  lemma EmptyReportIffNoMissing(view: seq<Record>)
    ensures MissingValueReport(view) == []
        <==> forall i, c :: 0 <= i < |view| ==> !IsNull(view[i], c)
  {
    var report := MissingValueReport(view);
    if report != [] {
      var c := report[0].0;
      assert (c, report[0].1) in report;
      NullCountZero(view, c);
    } else {
      forall i, c | 0 <= i < |view| ensures !IsNull(view[i], c) {
        assert (c, NullCount(view, c)) !in report;
        NullCountZero(view, c);
      }
    }
  }

  /** Rows with a missing channel or region never pass the filter, so the
      report on a filtered view only ever names product columns. */
  lemma FilteredReportNamesProductsOnly(rows: seq<Record>, channels: set<Channel>, regions: set<Region>)
    ensures forall e :: e in MissingValueReport(Filter(rows, channels, regions)) ==> e.0.ProductColumn?
  {
    var view := Filter(rows, channels, regions);
    NullCountZero(view, ChannelColumn);
    NullCountZero(view, RegionColumn);
  }
}
