# Music store dashboard: chart selection and the report loop

`music_store.py` is a one-page dashboard over a music-store database. It holds
sixteen reports, each a title and a query. For each report, in list order, it
shows the title as a subheader and runs the query. On success it shows the
result as a table, then maybe a chart. The chart is chosen by a first-match
`if/elif` chain over the result's column names. An exception after the
subheader is caught for that report alone and shown as an error banner
`Error in '<title>'` followed by a line with the exception's message. Then the
loop moves on to the next report.

This project models the two pieces of that script that carry logic:

- `chart_selector.dfy`, module `ChartSelector`, models the chart selector.
  - `Select` is the `if/elif` chain exactly as written.
  - `Rules` and `FirstMatch` give the same decision as an ordered rule table
    ("first match wins"), as an independent reference.
  - The lemmas state priority, exact membership, that extra columns never
    block a match, that only the set of names matters, and which columns
    each chart plots.
- `report_loop.dfy`, module `ReportLoop`, models the report loop.
  - `RunReports` is the `for` loop, appending to a log of page events
    (`Subheader`, `Table`, `Chart`, `Error`).
  - `RenderAll` is its specification.
  - Running a query and drawing a chart are an oracle `execute`. It returns
    either `QueryFailed(message)` or `Fetched(result, chartFailure)`.
  - The lemmas state list order, one subheader per report, one table per
    successful query, one error per failing report, and failure isolation.
    Every error banner names the report whose subheader it follows.
- `catalogue.dfy`, module `Dashboard`, holds the sixteen reports as data.
  - Each query is reduced to the column names its select list produces.
  - Each report gets a lemma naming the chart the selector picks for its
    columns.
  - `AsWrittenRun` and `CorrectedRun` run the report loop over the whole
    list, against a database that answers each query with the columns its
    select list names. They state which charts the page then shows.
- `wrappers.dfy` holds the `Option` type.

Three points of the code shape the model:

- The code tests membership in the frame's ordered column list, so `Select`
  takes a `seq<Column>`. `SelectionDependsOnlyOnNames` shows that only the set
  of names in that list matters.
- For rules 1, 3, 4 and 5 the code plots `df.set_index(index)`, which is every
  column except the index, not one named value column. `BarChart` and
  `LineChart` therefore carry all remaining columns.
- The code's `try` also covers drawing the chart, so a chart call that raises
  shows an error banner after the table. It is modelled as
  `Fetched(_, Some(message))`.

The model assumes the database names each result column as the select list
spells it: an alias where one is given, otherwise the column as written in the
query. So line 25 yields `Lastname`, and line 177 yields `First_name` and
`Last_name`.

## Model

| member | source | states |
|---|---|---|
| `ChartSelector.Select` | music_store.py:243-272 | definition: the `if/elif` chain over the result's column names, with no final `else`; its properties are stated by `SelectedChartPlotsResultColumns`, `SelectIsFirstMatch`, `FirstMatchWins`, `NoChartIffNoRuleMatches`, `ExtraColumnsNeverBlock`, `UnnamedColumnsChangeNothing` and `SelectionDependsOnlyOnNames` |
| `ChartSelector.Without` | music_store.py:244-261 | definition: the columns left by `set_index` on lines 244, 255, 258 and 261; its properties are stated by `WithoutKeepsOtherColumns` |
| `ChartSelector.SelectedChartPlotsResultColumns` | music_store.py:243-272 | the chosen chart draws only result columns; an indexed bar or line chart plots every column except its index; the Total_Revenue line plots that column alone and only when Invoice_Count is absent; both Altair charts sort x by descending y and list x and y in their tooltip |
| `ChartSelector.WithoutKeepsOtherColumns` | music_store.py:244-261 | indexing a frame by a column removes exactly that column and keeps every other one; an index that is not a column changes nothing |
| `ChartSelector.Chart` | music_store.py:244-272 | every rule, once it fires, draws a chart |
| `ChartSelector.FirstMatch` | music_store.py:243-272 | returns the first rule at or after a position whose two columns are both present, and none when no later rule matches |
| `ChartSelector.SelectIsFirstMatch` | music_store.py:243-272 | the `if/elif` chain and the ordered seven-rule table choose the same chart for every column list |
| `ChartSelector.FirstMatchWins` | music_store.py:243-272 | a matching rule with no earlier matching rule decides the chart |
| `ChartSelector.NoChartIffNoRuleMatches` | music_store.py:241-272 | no chart is drawn if and only if none of the seven column pairs is present |
| `ChartSelector.ExtraColumnsNeverBlock` | music_store.py:243-271 | adding columns never removes a match; the chosen rule can only move earlier |
| `ChartSelector.UnnamedColumnsChangeNothing` | music_store.py:243-271 | adding columns that no rule names leaves the chosen rule unchanged |
| `ChartSelector.SameMatches` | music_store.py:243-271 | two column lists that every rule judges alike get the same first match |
| `ChartSelector.SelectionDependsOnlyOnNames` | music_store.py:243-272 | reordering or repeating column names picks the same rule, the same index or axes, and the same plotted columns |
| `ChartSelector.CustomerCountOutranksTotalSales` | music_store.py:243-261 | with Country, Customer_Count and Total_Sales present, rule 1's bar chart wins over rule 5's |
| `ChartSelector.InvoiceCountOutranksTotalRevenue` | music_store.py:257-272 | with Year, Invoice_Count and Total_Revenue present, a rule no later than rule 4 wins, and the Total_Revenue-only line is never drawn |
| `ReportLoop.ErrorText` | music_store.py:274-275 | definition: the banner text `Error in '<title>'`, a line break, then the exception's message; its properties are stated by `ReportErrors`, `ReportBanners` and `BannersFollowTheirSubheader` |
| `ReportLoop.Fails` | music_store.py:238-274 | definition: the `except` catches the query call or, when a chart was selected, the chart call; its properties are stated by `ReportBlockCounts`, `ReportErrors` and `EventCounts` |
| `ReportLoop.FailureMessage` | music_store.py:238-274 | definition: the message of whichever call the `except` caught; its properties are stated by `ReportErrors` |
| `ReportLoop.ReportEvents` | music_store.py:238-275 | definition: one pass of the loop body; its properties are stated by `ReportBlockShape`, `ReportBlockCounts`, `ReportSubheaders`, `ReportCharts`, `ReportErrors`, `ReportBanners` and `RowCountChangesOnlyTheTable` |
| `ReportLoop.RenderAll` | music_store.py:237-275 | definition: the `for` loop's log, one report after another; its properties are stated by `RunReports`, `RenderAllAppend`, `RenderPrefixStep`, `SplitAfter`, `IsolatedReport`, `SubheadersInListOrder`, `EventCounts`, `BannersFollowTheirSubheader` and `ChartsFollowProjections` |
| `ReportLoop.ReportBlockShape` | music_store.py:237-275 | each report opens with its own subheader; a failed query writes exactly the subheader and one error with its title and message; a successful query writes its table right after the subheader; a chart can only come third, and only the selector's chart |
| `ReportLoop.ReportBlockCounts` | music_store.py:238-275 | per report: one subheader; one table when the query succeeds; one error when the report fails; one chart when it succeeds with a chart selected and the chart does not raise |
| `ReportLoop.ReportSubheaders` | music_store.py:237-238 | per report: the only subheader written is the report's own title |
| `ReportLoop.ReportCharts` | music_store.py:239-272 | per report: the page shows the selector's chart for the result's columns, and only when the query succeeds, a chart is selected and drawing it does not raise |
| `ReportLoop.ReportErrors` | music_store.py:238-275 | per report: an error banner appears only when the report fails, at most once, as its last event; when it fails the banner is `Error in '<title>'`, a line break and the message of whichever call raised, the query or the chart |
| `ReportLoop.ReportBanners` | music_store.py:237-275 | per report: each error banner names the title of the subheader it follows |
| `ReportLoop.RowCountChangesOnlyTheTable` | music_store.py:239-272 | a result with no rows still shows its table and writes the same chart or error as one with rows; only the table differs |
| `ReportLoop.CountAppend` | music_store.py:237-275 | event counts add up over concatenated logs |
| `ReportLoop.SubheaderTitlesAppend` | music_store.py:237-238 | subheader titles of concatenated logs concatenate |
| `ReportLoop.ChartsDrawnAppend` | music_store.py:237-272 | the charts of concatenated logs concatenate |
| `ReportLoop.CurrentTitleAppend` | music_store.py:237-238 | once a log segment has shown a subheader, what came before it no longer decides the current report |
| `ReportLoop.BannersAppend` | music_store.py:237-275 | two logs whose banners name their reports concatenate into one whose banners still do |
| `ReportLoop.RenderAllAppend` | music_store.py:237 | processing two report lists in turn writes the first list's log, then the second's |
| `ReportLoop.RenderPrefixStep` | music_store.py:237-275 | processing one more report appends that report's events to the log |
| `ReportLoop.SplitAfter` | music_store.py:237 | the log splits into the log of the first k+1 reports followed by the log of the rest |
| `ReportLoop.IsolatedReport` | music_store.py:237-275 | failure isolation: report k's events sit between the events of the reports before it and those after it; the events after it are exactly what those reports write on their own, whatever report k's outcome |
| `ReportLoop.SubheadersInListOrder` | music_store.py:237-238 | the log's subheaders are the reports' titles, in list order, each once |
| `ReportLoop.EventCounts` | music_store.py:237-275 | tables = successful queries; errors = failing reports; subheaders = reports; charts ≤ successful queries |
| `ReportLoop.BannersFollowTheirSubheader` | music_store.py:237-275 | in the whole log, every error banner names the report whose subheader comes last before it, whether the query or the chart raised |
| `ReportLoop.DrawableKeepsPicks` | music_store.py:241-272 | a chart left after dropping the empty picks is one of the picks, and not the empty one |
| `ReportLoop.SelectedChartsByPicks` | music_store.py:237-272 | given the chart the selector picks for each report, the charts selected over the list are those picks in list order, without the empty ones |
| `ReportLoop.ChartsFollowProjections` | music_store.py:237-275 | when every query answers with the columns its select list names and no chart raises, the page shows exactly the charts the selector picks for those columns, in list order, and no report fails |
| `ReportLoop.AllFetched` | music_store.py:237-241 | when every query returns a result, every report counts as a success |
| `ReportLoop.RunReports` | music_store.py:237-275 | the loop writes exactly `RenderAll` of the report list, with subheaders in list order, one table per success and one error per failing report |
| `Dashboard.EveryRuleServesItsReport` | music_store.py:243-272 | with the surname column spelled `LastName`, each of the seven rules is the first match of the report it was written for |
| `Dashboard.CustomersByCountryChart` | music_store.py:17-22 | "Customers by country" gets a bar chart of Customer_Count by Country |
| `Dashboard.CustomersTotalPurchasesChart` | music_store.py:246-252 | "Customers total purchases", with its surname column spelled `LastName`, gets the Total_Spent bars by LastName with tooltip FirstName, LastName, Total_Spent |
| `Dashboard.CustomersTotalPurchasesAsWrittenChart` | music_store.py:24-30 | as written (`c.Lastname`), "Customers total purchases" gets no chart |
| `Dashboard.SecondRuleUnreachableAsWritten` | music_store.py:24-30 | as written, no report has both `LastName` and `Total_Spent`, so rule 2 never fires |
| `Dashboard.ArtistsAlbumsChart` | music_store.py:32-38 | "Artist's albums" (`Name`, `Albums_Count`) gets no chart |
| `Dashboard.AnnualSalesVolumeChart` | music_store.py:40-45 | "Annual sales volume" gets a line of Invoice_Count by Year |
| `Dashboard.SalesByGenreChart` | music_store.py:47-54 | "Sales by genre" gets a bar chart of Sold_Track by Genre |
| `Dashboard.FrequentBuyersChart` | music_store.py:56-63 | the more-than-5-purchases report has `LastName` but no Total_Spent, so it gets no chart |
| `Dashboard.CountriesWithFiveCustomersChart` | music_store.py:65-71 | `Customers` is not `Customer_Count`, so this report gets no chart |
| `Dashboard.CountriesOver100Chart` | music_store.py:73-84 | gets a bar chart of Total_Sales by Country (rule 5) |
| `Dashboard.TopThreeCountriesChart` | music_store.py:86-105 | gets a bar chart of Total_Sales by Country (rule 5) |
| `Dashboard.VipCountriesChart` | music_store.py:107-131 | `Customers`/`Sales`/`Categories` name no rule, so this report gets no chart |
| `Dashboard.CountriesWithFiveSalesChart` | music_store.py:133-144 | gets no chart |
| `Dashboard.CountriesWithThreeSalesChart` | music_store.py:146-166 | gets no chart |
| `Dashboard.CustomerCategoriesChart` | music_store.py:168-188 | has Total_Spent, but `Last_name` is not `LastName`, so it gets no chart |
| `Dashboard.EmployeePerformanceChart` | music_store.py:190-207 | has Total_Spent, but `Last_Name` is not `LastName`, so it gets no chart |
| `Dashboard.AlbumRevenueChart` | music_store.py:209-218 | gets the Total_Revenue bars by Artist with tooltip Artist, Album, Total_Revenue |
| `Dashboard.AnnualPurchasesChart` | music_store.py:220-234 | Total_Revenue is there but Invoice_Count is not, so it gets the line of Total_Revenue alone by Year (rule 7) |
| `Dashboard.PicksOneToFour` | music_store.py:17-45 | reports 1 to 4, as written and corrected, get the picks listed for them |
| `Dashboard.PicksFiveToEight` | music_store.py:47-84 | reports 5 to 8 get the picks listed for them |
| `Dashboard.PicksNineToTwelve` | music_store.py:86-166 | reports 9 to 12 get the picks listed for them |
| `Dashboard.PicksThirteenToSixteen` | music_store.py:168-234 | reports 13 to 16 get the picks listed for them |
| `Dashboard.CataloguePicks` | music_store.py:16-272 | every report of either list gets the pick listed for it |
| `Dashboard.AsWrittenDrawable` | music_store.py:16-272 | as written, seven of the sixteen picks are charts, and none is the LastName bars |
| `Dashboard.CorrectedDrawable` | music_store.py:16-272 | corrected, eight picks are charts, and the second is the LastName bars |
| `Dashboard.AsWrittenRun` | music_store.py:16-275 | the dashboard as written, with every query answered by the columns it names: sixteen subheaders in display order, sixteen tables, no error banner, and seven charts in display order, none of them the LastName bars |
| `Dashboard.CorrectedRun` | music_store.py:16-275 | the same run with the surname spelled `LastName`: eight charts, the second of them the LastName bars |

## Left out

- The database connection (music_store.py:6-11) and the SQL text of each query are left out. The model keeps only the column names each query's select list produces. Aggregation, `HAVING`, CTEs, `top 3` and the `case` buckets all run inside the database engine and are not modelled.
- Executing a query (`pd.read_sql_query`) and drawing a chart are an oracle `execute: Report -> Outcome`. The model does not say when a query or a chart call raises, only what the page shows when it does. The oracle is a function, so the model assumes the database does not change during a run.
- Row values are not modelled; a result keeps only its column names and its row count. The chart choice never looks at the row count (`RowCountChangesOnlyTheTable`).
- Page setup and widget options are not modelled: `set_page_config`, `title`, `use_container_width`, `height=400`. Neither are pandas `set_index` or Altair encoding internals. The model keeps which column is the index or x, which columns are plotted or y, the sort order and the tooltip list.
- `st.dataframe` itself raising is not modelled. Only the query and the chart call can fail in the model.
- The Altair encoding types `:N` (nominal) and `:Q` (quantitative) at music_store.py:248-249 and 265-266 are not modelled.
- `AsWrittenRun` and `CorrectedRun` hold for a database that answers every query with the columns its select list names and never makes a chart call raise (`AnswersAsSpelled`). Other answers are covered only by the general lemmas of `ReportLoop`.
- The per-report chart lemmas of `Dashboard` assume the engine names each column as the select list spells it. Under a different naming rule their conclusions differ. In particular, if the engine reported `LastName` for line 25, rule 2 would fire as written.

## Findings

| source | as written | input that shows it | evidently intended | confidence | as-written member | corrected member |
|---|---|---|---|---|---|---|
| music_store.py:25 | the report selects `c.Lastname`, so its result column is `Lastname`, and the rule at line 246 (`"LastName" in df.columns`) never matches. The Altair bar chart at lines 247-252 is then drawn for no report: a full run as written shows seven charts, none of them these bars. | "Customers total purchases", result columns `FirstName`, `Lastname`, `Total_Spent` | this report gets the Total_Spent bars by LastName. Its columns are exactly the rule's tooltip, and its own `group by` (line 28) spells `LastName`. | medium, not executed: it rests on the database naming an unaliased column as the query spells it | `Dashboard.AsWrittenRun` | `Dashboard.CorrectedRun` |
