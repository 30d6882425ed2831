/**
 * The chart selector of the music-store dashboard: after a report's result
 * table is shown, the names of the result's columns decide which chart (if
 * any) follows it.  Seven rules are tried in a fixed order; each asks whether
 * two named columns are both present, and the first rule that holds wins.
 */
module ChartSelector {
  import opened Wrappers

  /** A column name of a result set, compared exactly (case-sensitively). */
  type Column = string

  /**
   * The chart drawn below a result table.
   *  - BarChart / LineChart: the result indexed by `index` (the index column
   *    leaves the frame) and one bar or line per column in `values`.
   *  - AltairBar: a bar chart with `x` on the categorical axis, `y` as the
   *    quantity, a fixed tooltip list, and the x categories sorted by
   *    descending y when `sortDescendingByY` holds.
   *  - NoChart: only the table is shown.
   */
  datatype ChartSpec =
    | NoChart
    | BarChart(index: Column, values: seq<Column>)
    | LineChart(index: Column, values: seq<Column>)
    | AltairBar(x: Column, y: Column, tooltip: seq<Column>, sortDescendingByY: bool)

  /** The columns left after indexing a frame by `index`, in their original order. */
  function Without(columns: seq<Column>, index: Column): seq<Column>
  {
    if columns == [] then []
    else (if columns[0] == index then [] else [columns[0]]) + Without(columns[1..], index)
  }

  /** Indexing by a column removes exactly that column and keeps every other one. */
  lemma {:induction false} WithoutKeepsOtherColumns(columns: seq<Column>, index: Column)
    ensures forall c :: c in Without(columns, index) <==> c in columns && c != index
    ensures |Without(columns, index)| <= |columns|
    ensures index !in columns ==> Without(columns, index) == columns
  {
    if columns != [] {
      WithoutKeepsOtherColumns(columns[1..], index);
      assert columns == [columns[0]] + columns[1..];
    }
  }

  /** The columns a chart plots on its axes (its tooltip aside). */
  predicate DrawnFrom(spec: ChartSpec, columns: seq<Column>)
  {
    match spec
    case NoChart => true
    case BarChart(index, values) => index in columns && forall v :: v in values ==> v in columns
    case LineChart(index, values) => index in columns && forall v :: v in values ==> v in columns
    case AltairBar(x, y, _, _) => x in columns && y in columns
  }

  /**
   * The selector exactly as the dashboard writes it: an if/elif chain of
   * membership tests over the result's column names, with no final else.
   */
  function Select(columns: seq<Column>): ChartSpec
  {
    if "Country" in columns && "Customer_Count" in columns then
      BarChart("Country", Without(columns, "Country"))
    else if "LastName" in columns && "Total_Spent" in columns then
      AltairBar("LastName", "Total_Spent", ["FirstName", "LastName", "Total_Spent"], true)
    else if "Genre" in columns && "Sold_Track" in columns then
      BarChart("Genre", Without(columns, "Genre"))
    else if "Year" in columns && "Invoice_Count" in columns then
      LineChart("Year", Without(columns, "Year"))
    else if "Country" in columns && "Total_Sales" in columns then
      BarChart("Country", Without(columns, "Country"))
    else if "Artist" in columns && "Total_Revenue" in columns then
      AltairBar("Artist", "Total_Revenue", ["Artist", "Album", "Total_Revenue"], true)
    else if "Year" in columns && "Total_Revenue" in columns then
      LineChart("Year", ["Total_Revenue"])
    else
      NoChart
  }

  /**
   * The chart plots only columns of the result: an indexed chart plots every
   * column but its index, except the Total_Revenue line, which plots that one
   * column; the Altair bars are sorted by descending y and name both axes in
   * their tooltip.
   */
  lemma SelectedChartPlotsResultColumns(columns: seq<Column>)
    ensures DrawnFrom(Select(columns), columns)
    ensures Select(columns).BarChart? ==>
      forall c :: c in Select(columns).values <==> c in columns && c != Select(columns).index
    ensures Select(columns).LineChart? ==>
      (Select(columns).values == ["Total_Revenue"] && "Invoice_Count" !in columns) ||
      (forall c :: c in Select(columns).values <==> c in columns && c != Select(columns).index)
    ensures Select(columns).AltairBar? ==>
      Select(columns).sortDescendingByY && Select(columns).x in Select(columns).tooltip &&
      Select(columns).y in Select(columns).tooltip
  {
    if Select(columns).BarChart? || Select(columns).LineChart? {
      WithoutKeepsOtherColumns(columns, Select(columns).index);
    }
  }

  // ---------------------------------------------------------------------
  // The same decision written as an ordered rule table (first match wins).
  // ---------------------------------------------------------------------

  /** How a matching rule lays out its chart. */
  datatype Layout =
    | IndexedBar(index: Column)                     // bar chart of every other column
    | IndexedLine(index: Column)                    // line chart of every other column
    | SeriesLine(index: Column, value: Column)      // line chart of one column
    | SortedBar(x: Column, y: Column, tooltip: seq<Column>)

  /** A rule fires when both `first` and `second` are columns of the result. */
  datatype Rule = Rule(first: Column, second: Column, layout: Layout)

  const Rules: seq<Rule> := [
    Rule("Country", "Customer_Count", IndexedBar("Country")),
    Rule("LastName", "Total_Spent", SortedBar("LastName", "Total_Spent", ["FirstName", "LastName", "Total_Spent"])),
    Rule("Genre", "Sold_Track", IndexedBar("Genre")),
    Rule("Year", "Invoice_Count", IndexedLine("Year")),
    Rule("Country", "Total_Sales", IndexedBar("Country")),
    Rule("Artist", "Total_Revenue", SortedBar("Artist", "Total_Revenue", ["Artist", "Album", "Total_Revenue"])),
    Rule("Year", "Total_Revenue", SeriesLine("Year", "Total_Revenue"))
  ]

  predicate Matches(rule: Rule, columns: seq<Column>)
  {
    rule.first in columns && rule.second in columns
  }

  /** The chart a rule draws for a result with these columns. */
  function Chart(rule: Rule, columns: seq<Column>): (spec: ChartSpec)
    ensures spec != NoChart
  {
    match rule.layout
    case IndexedBar(index) => BarChart(index, Without(columns, index))
    case IndexedLine(index) => LineChart(index, Without(columns, index))
    case SeriesLine(index, value) => LineChart(index, [value])
    case SortedBar(x, y, tooltip) => AltairBar(x, y, tooltip, true)
  }

  /** The position of the first rule at or after `from` that matches. */
  function FirstMatch(columns: seq<Column>, from: nat): (k: Option<nat>)
    decreases |Rules| - from
    ensures k.Some? ==> from <= k.value < |Rules| && Matches(Rules[k.value], columns)
    ensures k.Some? ==> forall j :: from <= j < k.value ==> !Matches(Rules[j], columns)
    ensures k.None? ==> forall j :: from <= j < |Rules| ==> !Matches(Rules[j], columns)
  {
    if from >= |Rules| then None
    else if Matches(Rules[from], columns) then Some(from)
    else FirstMatch(columns, from + 1)
  }

  /** Table-driven dispatch: the chart of the first matching rule, or none. */
  function Dispatch(columns: seq<Column>): ChartSpec
  {
    match FirstMatch(columns, 0)
    case None => NoChart
    case Some(k) => Chart(Rules[k], columns)
  }

  /** The if/elif chain and the rule table make the same choice on every input. */
  lemma SelectIsFirstMatch(columns: seq<Column>)
    ensures Select(columns) == Dispatch(columns)
  {
    match FirstMatch(columns, 0)
    case None =>
    case Some(k) =>
      assert k == 0 || k == 1 || k == 2 || k == 3 || k == 4 || k == 5 || k == 6;
  }

  /** A rule that matches, with no earlier rule matching, decides the chart. */
  lemma FirstMatchWins(columns: seq<Column>, k: nat)
    requires k < |Rules| && Matches(Rules[k], columns)
    requires forall j :: 0 <= j < k ==> !Matches(Rules[j], columns)
    ensures FirstMatch(columns, 0) == Some(k)
    ensures Select(columns) == Chart(Rules[k], columns)
  {
    SelectIsFirstMatch(columns);
  }

  /** No chart is drawn exactly when none of the seven column pairs is present. */
  lemma NoChartIffNoRuleMatches(columns: seq<Column>)
    ensures Select(columns) == NoChart <==> forall k :: 0 <= k < |Rules| ==> !Matches(Rules[k], columns)
  {
    SelectIsFirstMatch(columns);
  }

  /** Extra columns never block a match: the chosen rule can only move earlier. */
  lemma ExtraColumnsNeverBlock(columns: seq<Column>, extra: seq<Column>, k: nat)
    requires FirstMatch(columns, 0) == Some(k)
    ensures FirstMatch(columns + extra, 0).Some?
    ensures FirstMatch(columns + extra, 0).value <= k
  {
    assert Matches(Rules[k], columns + extra);
  }

  /** Adding columns that no rule names leaves the chosen rule unchanged. */
  lemma UnnamedColumnsChangeNothing(columns: seq<Column>, extra: seq<Column>)
    requires forall c, k :: c in extra && 0 <= k < |Rules| ==> c != Rules[k].first && c != Rules[k].second
    ensures FirstMatch(columns + extra, 0) == FirstMatch(columns, 0)
  {
    forall k | 0 <= k < |Rules|
      ensures Matches(Rules[k], columns + extra) == Matches(Rules[k], columns)
    {
    }
    SameMatches(columns, columns + extra, 0);
  }

  /** Two column lists that every rule judges alike get the same first match. */
  lemma {:induction false} SameMatches(c1: seq<Column>, c2: seq<Column>, from: nat)
    requires forall k :: 0 <= k < |Rules| ==> Matches(Rules[k], c1) == Matches(Rules[k], c2)
    decreases |Rules| - from
    ensures FirstMatch(c1, from) == FirstMatch(c2, from)
  {
    if from < |Rules| && !Matches(Rules[from], c1) {
      SameMatches(c1, c2, from + 1);
    }
  }

  /**
   * The selection depends only on the set of column names: reordering or
   * repeating columns picks the same rule and plots the same columns.
   */
  lemma SelectionDependsOnlyOnNames(c1: seq<Column>, c2: seq<Column>)
    requires forall c :: c in c1 <==> c in c2
    ensures FirstMatch(c1, 0) == FirstMatch(c2, 0)
    ensures Select(c1).NoChart? == Select(c2).NoChart?
    ensures (Select(c1).BarChart? || Select(c1).LineChart?) ==>
      Select(c1).index == Select(c2).index &&
      forall c :: c in Select(c1).values <==> c in Select(c2).values
    ensures Select(c1).AltairBar? ==> Select(c1) == Select(c2)
  {
    SameMatches(c1, c2, 0);
    SelectIsFirstMatch(c1);
    SelectIsFirstMatch(c2);
    if Select(c1).BarChart? || Select(c1).LineChart? {
      WithoutKeepsOtherColumns(c1, Select(c1).index);
      WithoutKeepsOtherColumns(c2, Select(c1).index);
    }
  }

  /** Rule 1 outranks rule 5: a country result with both counts is charted by Customer_Count's rule. */
  lemma CustomerCountOutranksTotalSales(columns: seq<Column>)
    requires "Country" in columns && "Customer_Count" in columns && "Total_Sales" in columns
    ensures FirstMatch(columns, 0) == Some(0)
    ensures Select(columns) == BarChart("Country", Without(columns, "Country"))
  {
  }

  /** Rule 4 outranks rule 7: with Invoice_Count present the Total_Revenue-only line is never drawn. */
  lemma InvoiceCountOutranksTotalRevenue(columns: seq<Column>)
    requires "Year" in columns && "Invoice_Count" in columns && "Total_Revenue" in columns
    ensures FirstMatch(columns, 0).Some? && FirstMatch(columns, 0).value <= 3
    ensures Select(columns) != LineChart("Year", ["Total_Revenue"])
  {
    SelectIsFirstMatch(columns);
    WithoutKeepsOtherColumns(columns, "Year");
  }
}
