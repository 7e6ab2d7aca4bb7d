/** One top-to-bottom run of the dashboard script for given selections and a
    given slider choice: what it puts on screen from the filter, ranking,
    pagination and missing-value parts. Charts and fixed text are not shown. */
module Dashboard {
  import opened Sales
  import opened Filtering
  import opened Ranking
  import opened Pagination
  import opened MissingValues

  datatype Screen = Screen(
    total: nat,                                  // "Nombre total d'enregistrements"
    numPages: nat,
    pageRows: seq<Record>,                       // the table of the current page
    missingReport: Option<seq<(Column, nat)>>,   // the missing-value section, if reached
    recommendation: Option<(string, string)>,    // (top product, top region) named in the text, if reached
    halted: bool)                                // the run stopped on an exception

  /** The run as the script is written: on a non-empty view the plotly chart
      refers to `px`, a name that is never imported, so the run stops there
      with an error, before the missing-value section and the recommendations. */
  function RenderAsWritten(rows: seq<Record>, channels: set<Channel>, regions: set<Region>, choice: int): (s: Screen)
    ensures s.halted <==> Filter(rows, channels, regions) != []
    ensures s.missingReport.None? && s.recommendation.None?
  {
    var view := Filter(rows, channels, regions);
    if view == [] then Screen(0, 0, [], None, None, false)
    else
      var k := NumPages(|view|);
      Screen(|view|, k, PageRows(view, SliderPage(choice, k)), None, None, true)
  }

  /** The run as evidently intended, with `px` imported: a non-empty view
      gets its page, the missing-value report and the recommendations. */
  function Render(rows: seq<Record>, channels: set<Channel>, regions: set<Region>, choice: int): (s: Screen)
    ensures !s.halted
    ensures s.total == |Filter(rows, channels, regions)| && s.numPages == NumPages(s.total)
    ensures s.total == 0 ==> s.pageRows == [] && s.missingReport.None? && s.recommendation.None?
    ensures s.total > 0 ==> 1 <= |s.pageRows| <= RowsPerPage
  {
    var view := Filter(rows, channels, regions);
    if view == [] then Screen(0, 0, [], None, None, false)
    else
      var k := NumPages(|view|);
      var page := SliderPage(choice, k);
      PageInRange(view, page);
      Screen(|view|, k, PageRows(view, page), Some(MissingValueReport(view)),
             Some((TopProductLabel(view), TopRegionLabel(view))), false)
  }

  /** As written, no selection and no slider choice ever shows the
      recommendations or the missing-value report while also showing data. */
  lemma AsWrittenNeverRecommends(rows: seq<Record>, channels: set<Channel>, regions: set<Region>, choice: int)
    requires Filter(rows, channels, regions) != []
    ensures RenderAsWritten(rows, channels, regions, choice).halted
    ensures RenderAsWritten(rows, channels, regions, choice).recommendation.None?
    ensures Render(rows, channels, regions, choice).recommendation.Some?
  {
  }

  /** A concrete input: one Store sale in the South under the default
      selections halts the script as written. */
  lemma AsWrittenHaltsOnOneRow()
    ensures var row := Record(Some(Store), Some(South), Some(1), Some(2), Some(3), Some(4), Some(5), Some(6));
      RenderAsWritten([row], AllChannels(), AllRegions(), 1).halted
  {
  }

  /** With the import in place, a run that shows data names a real product
      and a real region (never a sentinel, which only an empty view would
      produce and an empty view shows no recommendations), reports exactly
      the missing cells of the view, and shows the rows of the chosen page. */
  lemma RenderShowsFiguresOfView(rows: seq<Record>, channels: set<Channel>, regions: set<Region>, choice: int)
    requires Filter(rows, channels, regions) != []
    ensures var view, s := Filter(rows, channels, regions), Render(rows, channels, regions, choice);
      && s.recommendation.Some?
      && s.recommendation.value.0 == ProductName(TopProduct(view).value)
      && TopRegion(view).Some?
      && s.recommendation.value.1 == RegionName(TopRegion(view).value)
      && s.recommendation.value.0 != "Aucun produit"
      && s.recommendation.value.1 != "Aucune région"
      && s.missingReport == Some(MissingValueReport(view))
      && s.pageRows == PageRows(view, SliderPage(choice, s.numPages))
  {
  }
}
