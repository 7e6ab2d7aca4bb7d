# Beans & Pods sales dashboard — verified model of the query pipeline

The dashboard is a Streamlit script (`App.py`) over a fixed-schema sales
table: a sales channel (Store, Online), a region (South, North, Central) and
six product quantities (Robusta, Arabica, Espresso, Lungo, Latte,
Cappuccino) per row. Its logic is one pipeline, re-run on every interaction:

- **filter** the table by the channels and regions picked in two sidebar
  multiselects, keeping table order (module `Filtering`);
- **rank**: the best-selling product (largest column sum, first column on a
  tie) and the best-performing region (largest total over all products,
  alphabetically first region on a tie), with the French sentinels
  "Aucun produit" / "Aucune région" for an empty view (module `Ranking`);
- **paginate** the view ten rows per page, the page chosen on a slider
  (module `Pagination`);
- **report missing values**: per column, the number of missing cells, only
  for columns that have any (module `MissingValues`);
- one **run of the script** tying these together (module `Dashboard`).

`Sales` holds the schema. A missing cell (NaN once the CSV is read) is
`None`: `isin` is false on it, so such a row never passes the filter, and
pandas' sums skip it, so it adds nothing to a sum. Quantities are unbounded
naturals; only sums and comparisons of them are used. Every sequence
function recurses on the last element, so positions in the table do not
shift in the proofs.

Modelling choices:
- The model types the selections as sets of the two enumerations, so an
  out-of-range channel or region cannot be passed; the script feeds `isin`
  from closed multiselects, which offer no other value.
- The model gives the top product and the top region both ways:
  `TopProduct`/`TopRegion` return an `Option`, and
  `TopProductLabel`/`TopRegionLabel` return the string the script builds,
  with its sentinel.
- `TopRegion` is defined on any sequence of rows and is `None` when no row
  has a region. On a filtered view, which is the only input the script gives
  it, that happens exactly when the view is empty (`SentinelsIffEmptyView`).
- The sentinels are computed but never displayed: the only place that shows
  the two figures (App.py:187-211) is inside `if not data_filtered.empty`.
  `RenderShowsFiguresOfView` states this for the corrected run.

## Model

| member | source | states |
|---|---|---|
| `Sales.OptionsAreExhaustive` | App.py:33-38 | every channel and every region is among the options its multiselect offers |
| `Filtering.AllChannels` | App.py:33-34 | the default channel selection contains every channel |
| `Filtering.AllRegions` | App.py:37-38 | the default region selection contains every region |
| `Filtering.Selected` | App.py:41 | a row with a missing channel or region is never selected (`isin` is false on NaN), and nothing is selected when either selection is empty |
| `Filtering.Filter` | App.py:41 | the view is no longer than the table and every row in it has a selected channel and a selected region |
| `Filtering.FilterIsStableSelection` | App.py:41 | the view is the table's selected rows in table order: view row k is table row idx[k], the positions strictly increase, and a position is kept iff its row is selected |
| `Filtering.FilterMembership` | App.py:41 | a row is in the view iff it is in the table and its channel and region are both selected |
| `Filtering.FilterIdempotent` | App.py:41 | filtering the view again with the same selections gives the same view |
| `Filtering.FilterAppend` | App.py:41 | the row mask works row by row: filtering a concatenation is concatenating the filtered parts |
| `Filtering.EmptySelectionEmptiesView` | App.py:41 | an empty channel selection or an empty region selection gives an empty view |
| `Filtering.DefaultSelectionKeepsKnownRows` | App.py:33-41 | under the default selections the view is the whole table iff no row has a missing channel or region |
| `Filtering.DefaultSelectionKeepsAll` | App.py:33-41 | under the default selections a table without missing channel or region is kept whole |
| `Ranking.ColumnSum` | App.py:48 | no cell of a product column exceeds its sum (missing cells count 0), and the sum is zero when every cell is zero or missing |
| `Ranking.GroupColumnBound` | App.py:51 | a region's sum of one product column is at most the view's |
| `Ranking.SumOfColumnsMonotone` | App.py:51 | rows whose every column sum is at most another set's give a smaller or equal sum over any list of columns |
| `Ranking.FirstArgMax` | App.py:48 | the index returned has the largest score, and every earlier index has a strictly smaller score (first occurrence wins) |
| `Ranking.TopProduct` | App.py:44-48 | none iff the view is empty; otherwise a product whose column sum is at least every column's and strictly above every column before it in Robusta..Cappuccino order |
| `Ranking.TopProductUnique` | App.py:45-48 | any product with both properties of the first largest column is the top product |
| `Ranking.Group` | App.py:51 | a region's group is no longer than the view, and a row is in it iff it is a row of the view carrying that region |
| `Ranking.GroupIndex` | App.py:51 | each region has its position in the sorted key order Central, North, South |
| `Ranking.GroupOrderIsAlphabetical` | App.py:51 | one region's name sorts before another's (Python string order) iff it comes earlier in the group key order |
| `Ranking.PresentAmongSpec` | App.py:51 | the kept keys are exactly the listed keys with a non-empty group, in the listed order |
| `Ranking.GroupKeys` | App.py:51 | the keys groupby forms are exactly the regions with at least one row, in sorted order |
| `Ranking.RegionTotal` | App.py:51 | a region's total over the six products never exceeds the view's grand total |
| `Ranking.TopRegion` | App.py:51 | none iff no row of the view has a region; otherwise a region of the view whose total is at least every present region's and strictly above every present region before it in group key order |
| `Ranking.KeyedMaximum` | App.py:51 | the first largest total among the sorted group keys is at least every present region's total and strictly above those earlier in key order |
| `Ranking.TopRegionIsFirstMaximum` | App.py:51 | on a tie the region whose name sorts first (Python string order) wins: every present region whose name sorts before the top region totals strictly less |
| `Ranking.RowRegionHasGroup` | App.py:51 | a region carried by some row of the view has a non-empty group |
| `Ranking.RegionTotalsPartitionGrandTotal` | App.py:51 | when every row has a region, the three region totals add up to everything sold in the view |
| `Ranking.GroupsPartitionColumns` | App.py:51 | when every row has a region, the region groups' sums over any list of product columns add up to the view's |
| `Ranking.GroupsPartitionColumn` | App.py:51 | when every row has a region, the three groups' sums of one product column add up to the view's column sum |
| `Ranking.GroupSumStep` | App.py:51 | one more row adds its amount to its own region's column sum and to no other |
| `Ranking.TopProductLabel` | App.py:44-53 | the text is "Aucun produit" iff the view is empty, and otherwise the top product's column name |
| `Ranking.TopRegionLabel` | App.py:51-54 | the text is "Aucune région" iff the view is empty, and otherwise the top region's name (which then exists) |
| `Ranking.SentinelsIffEmptyView` | App.py:41-54 | on a filtered view both sentinels appear iff no row passes the filter, and a top region exists iff the view is non-empty |
| `Pagination.NumPages` | App.py:60-61 | zero pages iff no rows; otherwise the ceiling of n/10: (pages-1)*10 < n <= pages*10 |
| `Pagination.SliderPage` | App.py:62 | the slider's page lies in [1, num_pages] and is the user's choice whenever that choice is in range |
| `Pagination.SliceBound` | App.py:68 | a Python slice bound lands within the sequence and is unchanged when already inside it |
| `Pagination.PySlice` | App.py:68 | a Python slice never fails and is never longer than the sequence |
| `Pagination.PageRows` | App.py:63-68 | a page never shows more than ten rows nor more than the view has, and from page 1 on its rows are the view's rows from position (page-1)*10 |
| `Pagination.PageInRange` | App.py:59-68 | a page in [1, num_pages] shows 1 to 10 rows, exactly 10 on every page but the last, namely view rows (page-1)*10 onward |
| `Pagination.PagePastEndIsEmpty` | App.py:63-68 | a page number past the last page shows no rows instead of failing |
| `Pagination.JoinPagesIsPrefix` | App.py:63-68 | pages 1..k joined in order are the first min(10k, n) rows of the view |
| `Pagination.PagesCoverView` | App.py:59-68 | pages 1..num_pages joined in order give back the whole view |
| `Pagination.PaginationExamples` | App.py:59-68 | 440 rows make 44 pages; 25 rows make 3 pages, the third holding 5 rows |
| `MissingValues.ColumnIndex` | App.py:11 | each column has its position in the table's column order |
| `MissingValues.IsNull` | App.py:132 | a missing product cell adds nothing to its column sum, and a row missing its channel or region passes no filter |
| `MissingValues.NullCount` | App.py:132 | a column's missing count is at most the number of rows |
| `MissingValues.NullCountZero` | App.py:132 | a column's missing count is zero iff no row of the view has that cell missing |
| `MissingValues.ReportSpec` | App.py:132-133 | the report over listed columns has an entry (c, k) iff c is listed, has missing cells and k is its count, in column order |
| `MissingValues.MissingValueReport` | App.py:132-133 | the report has an entry for a column iff its missing count is above zero, that entry is the count, and entries follow column order |
| `MissingValues.EmptyReportIffNoMissing` | App.py:132-136 | the report is empty iff no cell of the view is missing |
| `MissingValues.FilteredReportNamesProductsOnly` | App.py:132-133 | on a filtered view the report never names the Channel or Region column |
| `Dashboard.RenderAsWritten` | App.py:44-126 | as written, the run stops on an error exactly when the view is non-empty, and never reaches the missing-value report or the recommendations |
| `Dashboard.AsWrittenNeverRecommends` | App.py:122-126 | for every selection giving a non-empty view the script as written halts without recommendations, while the corrected run gives them |
| `Dashboard.AsWrittenHaltsOnOneRow` | App.py:125 | a one-row table of a Store sale in the South halts the script as written under the default selections |
| `Dashboard.Render` | App.py:44-213 | the corrected run never halts, counts the view's rows and pages, shows nothing on an empty view and 1 to 10 rows otherwise |
| `Dashboard.RenderShowsFiguresOfView` | App.py:185-191 | on a non-empty view the corrected run names the top product and top region (never a sentinel), reports the view's missing cells and shows the chosen page's rows |

## Findings

| source | as written | input that shows it | evidently intended | confidence | as-written member | corrected member |
|---|---|---|---|---|---|---|
| App.py:125 | `px.bar(...)` uses the name `px`, which no line of the script imports (only streamlit, pandas, seaborn, matplotlib, numpy and scatter_matrix are), so every run with a non-empty view stops there with a NameError, and the missing-value section and the recommendations naming the top product and region are never shown | any selection that keeps a row, e.g. one Store sale in the South under the default selections (`AsWrittenHaltsOnOneRow`) | `import plotly.express as px`, so that the run continues to the missing-value report and the recommendations | high; not executed | `Dashboard.RenderAsWritten` | `Dashboard.Render` |

## Left out

- Loading the CSV with `pd.read_csv` and the error-and-stop path (App.py:9-23): file I/O. The table is a parameter of every function. The fixed `Vente_1..Vente_440` labels (App.py:13-16) also force exactly 440 rows: any other length makes `data.index = ventes` raise, which takes the load-error path (App.py:21-23), which is not modelled. The model accepts a table of any length and identifies a row by its position.
- Quantities are `nat`: negative or fractional quantities, and the int64/float64 arithmetic and rounding of pandas sums, are not modelled. Sums are exact unbounded integers.
- A channel or region value outside the two enumerations: it could only come from the CSV loader, which is not modelled.
- The Streamlit widgets and output calls (multiselects, slider, checkbox, download button, writes, warnings, tables): the selections and the slider choice are parameters. How the slider widget itself behaves when its minimum and maximum coincide (a one-page view) is the framework's business and is not modelled; `SliderPage` only states the range it returns.
- `describe()` and the pie chart of means (App.py:91-97): floating-point statistics (mean, standard deviation, interpolated quartiles).
- All charts: the seaborn bar chart, the plotly chart, the heatmap, the pair plots and the scatter matrix (App.py:106-181).
- The CSV export of the filtered view through `to_csv` (App.py:76-79): a library serialiser whose format the script does not define.
- The fixed recommendation text around the two figures and the GitHub link (App.py:186-220).
- `Dashboard.RenderAsWritten`: models the halt at App.py:125 as a flag; what Streamlit shows for the exception, and the charts drawn before it, are not modelled.
