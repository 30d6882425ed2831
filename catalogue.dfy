/**
 * The dashboard's sixteen reports, each reduced to its title and the column
 * names its select list produces (aliases where the query gives one, the
 * column as spelled in the query otherwise), and the chart each one gets.
 */
module Dashboard {
  import opened Wrappers
  import opened ChartSelector
  import opened ReportLoop

  const CustomersByCountry := Report("Customers by country", ["Country", "Customer_Count"])
  /** As the query spells it: `c.Lastname`. */
  const CustomersTotalPurchasesAsWritten := Report("Customers total purchases", ["FirstName", "Lastname", "Total_Spent"])
  /** With the surname column spelled `LastName`, as its own group-by clause and the second chart rule spell it. */
  const CustomersTotalPurchases := Report("Customers total purchases", ["FirstName", "LastName", "Total_Spent"])
  const ArtistsAlbums := Report("Artist's albums", ["Name", "Albums_Count"])
  const AnnualSalesVolume := Report("Annual sales volume", ["Year", "Invoice_Count"])
  const SalesByGenre := Report("Sales by genre", ["Genre", "Sold_Track"])
  const FrequentBuyers := Report("Customers who have made more than 5 purchases", ["FirstName", "LastName", "NumberOfPurchases"])
  const CountriesWithFiveCustomers := Report("Countries where number of customers 5 or more than", ["Country", "Customers"])
  const CountriesOver100 := Report("Countries where total sales are more than 100", ["Country", "Total_Sales"])
  const TopThreeCountries := Report("The top 3 countries with sales exceeding 100", ["Country", "Total_Sales"])
  const VipCountries := Report("VIP buyers and sales countries", ["Country", "Customers", "Sales", "Categories"])
  const CountriesWithFiveSales := Report("Countries where there were at least 5 sales", ["Country", "Customers", "Sales"])
  const CountriesWithThreeSales := Report("Countries where there were at least 3 sales", ["Country", "Sales", "Customers", "Category"])
  const CustomerCategories := Report("Categorize customers based on purchase", ["First_name", "Last_name", "Total_Order", "Total_Spent", "Category"])
  const EmployeePerformance := Report("Employee performance", ["First_Name", "Last_Name", "Customers_Count", "Total_Spent", "Performance"])
  const AlbumRevenue := Report("Album revenue", ["Album", "Artist", "Track_Count", "Total_Revenue"])
  const AnnualPurchases := Report("Annual purchases", ["Year", "Total_Transactions", "Total_Revenue", "Revenue_Category"])

  /** The reports in display order, with the column names as the queries spell them. */
  const AsWrittenCatalogue: seq<Report> := [
    CustomersByCountry, CustomersTotalPurchasesAsWritten, ArtistsAlbums, AnnualSalesVolume,
    SalesByGenre, FrequentBuyers, CountriesWithFiveCustomers, CountriesOver100,
    TopThreeCountries, VipCountries, CountriesWithFiveSales, CountriesWithThreeSales,
    CustomerCategories, EmployeePerformance, AlbumRevenue, AnnualPurchases
  ]

  /** The same reports with the second one's surname column spelled `LastName`. */
  const Catalogue: seq<Report> := [
    CustomersByCountry, CustomersTotalPurchases, ArtistsAlbums, AnnualSalesVolume,
    SalesByGenre, FrequentBuyers, CountriesWithFiveCustomers, CountriesOver100,
    TopThreeCountries, VipCountries, CountriesWithFiveSales, CountriesWithThreeSales,
    CustomerCategories, EmployeePerformance, AlbumRevenue, AnnualPurchases
  ]

  /** For each rule, in order, the report of `Catalogue` it was written for. */
  const IntendedReport: seq<nat> := [0, 1, 4, 3, 7, 14, 15]

  /** In the corrected catalogue every rule is the first match of the report it was written for. */
  lemma EveryRuleServesItsReport()
    ensures |IntendedReport| == |Rules|
    ensures forall k :: 0 <= k < |Rules| ==>
      IntendedReport[k] < |Catalogue| && FirstMatch(Catalogue[IntendedReport[k]].projection, 0) == Some(k)
  {
    forall k | 0 <= k < |Rules|
      ensures IntendedReport[k] < |Catalogue| && FirstMatch(Catalogue[IntendedReport[k]].projection, 0) == Some(k)
    {
      var columns := Catalogue[IntendedReport[k]].projection;
      assert Matches(Rules[k], columns);
      assert forall j :: 0 <= j < k ==> !Matches(Rules[j], columns);
      FirstMatchWins(columns, k);
    }
  }

  // One lemma per report: the chart the selector picks for its columns. Each
  // proof names, rule by rule, a column the report lacks, up to the rule that
  // fires (where one does), so the solver need not search the whole chain.

  /** a bar chart of Customer_Count by Country (rule 1). */
  lemma CustomersByCountryChart()
    ensures Select(CustomersByCountry.projection) == BarChart("Country", ["Customer_Count"])
  {
    var columns := CustomersByCountry.projection;
    assert "Country" in columns && "Customer_Count" in columns;
  }

  /** the Total_Spent bars by LastName (rule 2), once the surname is spelled `LastName`. */
  lemma CustomersTotalPurchasesChart()
    ensures Select(CustomersTotalPurchases.projection) == AltairBar("LastName", "Total_Spent", ["FirstName", "LastName", "Total_Spent"], true)
  {
    var columns := CustomersTotalPurchases.projection;
    assert "Country" !in columns && "LastName" in columns && "Total_Spent" in columns;
  }

  /** no chart: no rule names `Name` or `Albums_Count`. */
  lemma ArtistsAlbumsChart()
    ensures Select(ArtistsAlbums.projection) == NoChart
  {
    var columns := ArtistsAlbums.projection;
    assert
      && "Country" !in columns
      && "LastName" !in columns
      && "Genre" !in columns
      && "Year" !in columns
      && "Artist" !in columns;
  }

  /** a line of Invoice_Count by Year (rule 4). */
  lemma AnnualSalesVolumeChart()
    ensures Select(AnnualSalesVolume.projection) == LineChart("Year", ["Invoice_Count"])
  {
    var columns := AnnualSalesVolume.projection;
    assert
      && "Country" !in columns
      && "LastName" !in columns
      && "Genre" !in columns
      && "Year" in columns
      && "Invoice_Count" in columns;
  }

  /** a bar chart of Sold_Track by Genre (rule 3). */
  lemma SalesByGenreChart()
    ensures Select(SalesByGenre.projection) == BarChart("Genre", ["Sold_Track"])
  {
    var columns := SalesByGenre.projection;
    assert
      && "Country" !in columns
      && "LastName" !in columns
      && "Genre" in columns
      && "Sold_Track" in columns;
  }

  /** no chart: `LastName` is there but not Total_Spent. */
  lemma FrequentBuyersChart()
    ensures Select(FrequentBuyers.projection) == NoChart
  {
    var columns := FrequentBuyers.projection;
    assert
      && "Country" !in columns
      && "Total_Spent" !in columns
      && "Genre" !in columns
      && "Year" !in columns
      && "Artist" !in columns;
  }

  /** no chart: `Customers` is not Customer_Count. */
  lemma CountriesWithFiveCustomersChart()
    ensures Select(CountriesWithFiveCustomers.projection) == NoChart
  {
    var columns := CountriesWithFiveCustomers.projection;
    assert
      && "Customer_Count" !in columns
      && "LastName" !in columns
      && "Genre" !in columns
      && "Year" !in columns
      && "Total_Sales" !in columns
      && "Artist" !in columns;
  }

  /** a bar chart of Total_Sales by Country (rule 5). */
  lemma CountriesOver100Chart()
    ensures Select(CountriesOver100.projection) == BarChart("Country", ["Total_Sales"])
  {
    var columns := CountriesOver100.projection;
    assert
      && "Customer_Count" !in columns
      && "LastName" !in columns
      && "Genre" !in columns
      && "Year" !in columns
      && "Country" in columns
      && "Total_Sales" in columns;
  }

  /** a bar chart of Total_Sales by Country (rule 5). */
  lemma TopThreeCountriesChart()
    ensures Select(TopThreeCountries.projection) == BarChart("Country", ["Total_Sales"])
  {
    var columns := TopThreeCountries.projection;
    assert
      && "Customer_Count" !in columns
      && "LastName" !in columns
      && "Genre" !in columns
      && "Year" !in columns
      && "Country" in columns
      && "Total_Sales" in columns;
  }

  /** no chart: `Customers` and `Sales` are not the names the country rules ask for. */
  lemma VipCountriesChart()
    ensures Select(VipCountries.projection) == NoChart
  {
    var columns := VipCountries.projection;
    assert
      && "Customer_Count" !in columns
      && "LastName" !in columns
      && "Genre" !in columns
      && "Year" !in columns
      && "Total_Sales" !in columns
      && "Artist" !in columns;
  }

  /** no chart. */
  lemma CountriesWithFiveSalesChart()
    ensures Select(CountriesWithFiveSales.projection) == NoChart
  {
    var columns := CountriesWithFiveSales.projection;
    assert
      && "Customer_Count" !in columns
      && "LastName" !in columns
      && "Genre" !in columns
      && "Year" !in columns
      && "Total_Sales" !in columns
      && "Artist" !in columns;
  }

  /** no chart. */
  lemma CountriesWithThreeSalesChart()
    ensures Select(CountriesWithThreeSales.projection) == NoChart
  {
    var columns := CountriesWithThreeSales.projection;
    assert
      && "Customer_Count" !in columns
      && "LastName" !in columns
      && "Genre" !in columns
      && "Year" !in columns
      && "Total_Sales" !in columns
      && "Artist" !in columns;
  }

  /** no chart: Total_Spent is there, but `Last_name` is not `LastName`. */
  lemma CustomerCategoriesChart()
    ensures Select(CustomerCategories.projection) == NoChart
  {
    var columns := CustomerCategories.projection;
    // the surname column is not `LastName`: the two differ at index 4
    assert columns[1][4] != "LastName"[4];
    assert
      && "Country" !in columns
      && "LastName" !in columns
      && "Genre" !in columns
      && "Year" !in columns
      && "Artist" !in columns;
  }

  /** no chart: Total_Spent is there, but `Last_Name` is not `LastName`. */
  lemma EmployeePerformanceChart()
    ensures Select(EmployeePerformance.projection) == NoChart
  {
    var columns := EmployeePerformance.projection;
    // the surname column is not `LastName`: the two differ at index 4
    assert columns[1][4] != "LastName"[4];
    assert
      && "Country" !in columns
      && "LastName" !in columns
      && "Genre" !in columns
      && "Year" !in columns
      && "Artist" !in columns;
  }

  /** the Total_Revenue bars by Artist (rule 6). */
  lemma AlbumRevenueChart()
    ensures Select(AlbumRevenue.projection) == AltairBar("Artist", "Total_Revenue", ["Artist", "Album", "Total_Revenue"], true)
  {
    var columns := AlbumRevenue.projection;
    assert
      && "Country" !in columns
      && "LastName" !in columns
      && "Genre" !in columns
      && "Year" !in columns
      && "Artist" in columns
      && "Total_Revenue" in columns;
  }

  /** a line of Total_Revenue alone by Year (rule 7). */
  lemma AnnualPurchasesChart()
    ensures Select(AnnualPurchases.projection) == LineChart("Year", ["Total_Revenue"])
  {
    var columns := AnnualPurchases.projection;
    assert
      && "Country" !in columns
      && "LastName" !in columns
      && "Genre" !in columns
      && "Invoice_Count" !in columns
      && "Artist" !in columns
      && "Year" in columns
      && "Total_Revenue" in columns;
  }

  /** As written, the second report gets no chart: `Lastname` is not `LastName`. */
  lemma CustomersTotalPurchasesAsWrittenChart()
    ensures Select(CustomersTotalPurchasesAsWritten.projection) == NoChart
  {
    var columns := CustomersTotalPurchasesAsWritten.projection;
    // the surname column is not `LastName`: the two differ at index 4
    assert columns[1][4] != "LastName"[4];
    assert
      && "Country" !in columns
      && "LastName" !in columns
      && "Genre" !in columns
      && "Year" !in columns
      && "Artist" !in columns;
  }

  /** As written, no report of the catalogue has both columns the second rule asks for, so that rule never fires. */
  lemma SecondRuleUnreachableAsWritten()
    ensures forall i :: 0 <= i < |AsWrittenCatalogue| ==> !Matches(Rules[1], AsWrittenCatalogue[i].projection)
    ensures forall i :: 0 <= i < |AsWrittenCatalogue| ==> FirstMatch(AsWrittenCatalogue[i].projection, 0) != Some(1)
  {
  }

  /** The second rule's chart: the Total_Spent bars by LastName. */
  const LastNameBars := AltairBar("LastName", "Total_Spent", ["FirstName", "LastName", "Total_Spent"], true)

  /** The chart the selector picks for each report as written, in display order. */
  const AsWrittenPicks: seq<ChartSpec> := [
    BarChart("Country", ["Customer_Count"]),
    NoChart,
    NoChart,
    LineChart("Year", ["Invoice_Count"]),
    BarChart("Genre", ["Sold_Track"]),
    NoChart,
    NoChart,
    BarChart("Country", ["Total_Sales"]),
    BarChart("Country", ["Total_Sales"]),
    NoChart,
    NoChart,
    NoChart,
    NoChart,
    NoChart,
    AltairBar("Artist", "Total_Revenue", ["Artist", "Album", "Total_Revenue"], true),
    LineChart("Year", ["Total_Revenue"])
  ]

  /** The picks once the second report's surname is spelled `LastName`. */
  const CorrectedPicks: seq<ChartSpec> := [
    BarChart("Country", ["Customer_Count"]),
    LastNameBars,
    NoChart,
    LineChart("Year", ["Invoice_Count"]),
    BarChart("Genre", ["Sold_Track"]),
    NoChart,
    NoChart,
    BarChart("Country", ["Total_Sales"]),
    BarChart("Country", ["Total_Sales"]),
    NoChart,
    NoChart,
    NoChart,
    NoChart,
    NoChart,
    AltairBar("Artist", "Total_Revenue", ["Artist", "Album", "Total_Revenue"], true),
    LineChart("Year", ["Total_Revenue"])
  ]

  lemma PicksOneToFour()
    ensures forall i :: 0 <= i < 4 ==> Select(AsWrittenCatalogue[i].projection) == AsWrittenPicks[i]
    ensures forall i :: 0 <= i < 4 ==> Select(Catalogue[i].projection) == CorrectedPicks[i]
  {
    forall i | 0 <= i < 4
      ensures Select(AsWrittenCatalogue[i].projection) == AsWrittenPicks[i]
      ensures Select(Catalogue[i].projection) == CorrectedPicks[i]
    {
      if i == 0 {
        assert AsWrittenCatalogue[i] == Catalogue[i] == CustomersByCountry;
        CustomersByCountryChart();
      } else if i == 1 {
        assert AsWrittenCatalogue[i] == CustomersTotalPurchasesAsWritten && Catalogue[i] == CustomersTotalPurchases;
        CustomersTotalPurchasesAsWrittenChart();
        CustomersTotalPurchasesChart();
      } else if i == 2 {
        assert AsWrittenCatalogue[i] == Catalogue[i] == ArtistsAlbums;
        ArtistsAlbumsChart();
      } else {
        assert AsWrittenCatalogue[i] == Catalogue[i] == AnnualSalesVolume;
        AnnualSalesVolumeChart();
      }
    }
  }

  lemma PicksFiveToEight()
    ensures forall i :: 4 <= i < 8 ==> Select(AsWrittenCatalogue[i].projection) == AsWrittenPicks[i]
    ensures forall i :: 4 <= i < 8 ==> Select(Catalogue[i].projection) == CorrectedPicks[i]
  {
    forall i | 4 <= i < 8
      ensures Select(AsWrittenCatalogue[i].projection) == AsWrittenPicks[i]
      ensures Select(Catalogue[i].projection) == CorrectedPicks[i]
    {
      if i == 4 {
        assert AsWrittenCatalogue[i] == Catalogue[i] == SalesByGenre;
        SalesByGenreChart();
      } else if i == 5 {
        assert AsWrittenCatalogue[i] == Catalogue[i] == FrequentBuyers;
        FrequentBuyersChart();
      } else if i == 6 {
        assert AsWrittenCatalogue[i] == Catalogue[i] == CountriesWithFiveCustomers;
        CountriesWithFiveCustomersChart();
      } else {
        assert AsWrittenCatalogue[i] == Catalogue[i] == CountriesOver100;
        CountriesOver100Chart();
      }
    }
  }

  lemma PicksNineToTwelve()
    ensures forall i :: 8 <= i < 12 ==> Select(AsWrittenCatalogue[i].projection) == AsWrittenPicks[i]
    ensures forall i :: 8 <= i < 12 ==> Select(Catalogue[i].projection) == CorrectedPicks[i]
  {
    forall i | 8 <= i < 12
      ensures Select(AsWrittenCatalogue[i].projection) == AsWrittenPicks[i]
      ensures Select(Catalogue[i].projection) == CorrectedPicks[i]
    {
      if i == 8 {
        assert AsWrittenCatalogue[i] == Catalogue[i] == TopThreeCountries;
        TopThreeCountriesChart();
      } else if i == 9 {
        assert AsWrittenCatalogue[i] == Catalogue[i] == VipCountries;
        VipCountriesChart();
      } else if i == 10 {
        assert AsWrittenCatalogue[i] == Catalogue[i] == CountriesWithFiveSales;
        CountriesWithFiveSalesChart();
      } else {
        assert AsWrittenCatalogue[i] == Catalogue[i] == CountriesWithThreeSales;
        CountriesWithThreeSalesChart();
      }
    }
  }

  lemma PicksThirteenToSixteen()
    ensures forall i :: 12 <= i < 16 ==> Select(AsWrittenCatalogue[i].projection) == AsWrittenPicks[i]
    ensures forall i :: 12 <= i < 16 ==> Select(Catalogue[i].projection) == CorrectedPicks[i]
  {
    forall i | 12 <= i < 16
      ensures Select(AsWrittenCatalogue[i].projection) == AsWrittenPicks[i]
      ensures Select(Catalogue[i].projection) == CorrectedPicks[i]
    {
      if i == 12 {
        assert AsWrittenCatalogue[i] == Catalogue[i] == CustomerCategories;
        CustomerCategoriesChart();
      } else if i == 13 {
        assert AsWrittenCatalogue[i] == Catalogue[i] == EmployeePerformance;
        EmployeePerformanceChart();
      } else if i == 14 {
        assert AsWrittenCatalogue[i] == Catalogue[i] == AlbumRevenue;
        AlbumRevenueChart();
      } else {
        assert AsWrittenCatalogue[i] == Catalogue[i] == AnnualPurchases;
        AnnualPurchasesChart();
      }
    }
  }

  /** Report by report, the selector's pick for the catalogue as written, and for the corrected one. */
  lemma CataloguePicks()
    ensures forall i :: 0 <= i < |AsWrittenCatalogue| ==> Select(AsWrittenCatalogue[i].projection) == AsWrittenPicks[i]
    ensures forall i :: 0 <= i < |Catalogue| ==> Select(Catalogue[i].projection) == CorrectedPicks[i]
  {
    PicksOneToFour();
    PicksFiveToEight();
    PicksNineToTwelve();
    PicksThirteenToSixteen();
  }

  /** As written, seven reports get a chart, and none of them the LastName bars; unfolded one pick at a time. */
  lemma AsWrittenDrawable()
    ensures |Drawable(AsWrittenPicks)| == 7
    ensures LastNameBars !in Drawable(AsWrittenPicks)
  {
    var s := AsWrittenPicks;
    assert Drawable(s[..0]) == [];
    assert s[..1][..0] == s[..0]; assert Drawable(s[..1]) == Drawable(s[..0]) + [s[0]];
    assert s[..2][..1] == s[..1]; assert Drawable(s[..2]) == Drawable(s[..1]);
    assert s[..3][..2] == s[..2]; assert Drawable(s[..3]) == Drawable(s[..2]);
    assert s[..4][..3] == s[..3]; assert Drawable(s[..4]) == Drawable(s[..3]) + [s[3]];
    assert s[..5][..4] == s[..4]; assert Drawable(s[..5]) == Drawable(s[..4]) + [s[4]];
    assert s[..6][..5] == s[..5]; assert Drawable(s[..6]) == Drawable(s[..5]);
    assert s[..7][..6] == s[..6]; assert Drawable(s[..7]) == Drawable(s[..6]);
    assert s[..8][..7] == s[..7]; assert Drawable(s[..8]) == Drawable(s[..7]) + [s[7]];
    assert s[..9][..8] == s[..8]; assert Drawable(s[..9]) == Drawable(s[..8]) + [s[8]];
    assert s[..10][..9] == s[..9]; assert Drawable(s[..10]) == Drawable(s[..9]);
    assert s[..11][..10] == s[..10]; assert Drawable(s[..11]) == Drawable(s[..10]);
    assert s[..12][..11] == s[..11]; assert Drawable(s[..12]) == Drawable(s[..11]);
    assert s[..13][..12] == s[..12]; assert Drawable(s[..13]) == Drawable(s[..12]);
    assert s[..14][..13] == s[..13]; assert Drawable(s[..14]) == Drawable(s[..13]);
    assert s[..15][..14] == s[..14]; assert Drawable(s[..15]) == Drawable(s[..14]) + [s[14]];
    assert s[..16][..15] == s[..15]; assert Drawable(s[..16]) == Drawable(s[..15]) + [s[15]];
    assert s[..16] == s;
    if LastNameBars in Drawable(s) {
      DrawableKeepsPicks(s, LastNameBars);
      assert false;
    }
  }

  /** Corrected, eight reports get a chart, the second of them the LastName bars; unfolded one pick at a time. */
  lemma CorrectedDrawable()
    ensures |Drawable(CorrectedPicks)| == 8
    ensures Drawable(CorrectedPicks)[1] == LastNameBars
  {
    var s := CorrectedPicks;
    assert Drawable(s[..0]) == [];
    assert s[..1][..0] == s[..0]; assert Drawable(s[..1]) == Drawable(s[..0]) + [s[0]];
    assert s[..2][..1] == s[..1]; assert Drawable(s[..2]) == Drawable(s[..1]) + [s[1]];
    assert s[..3][..2] == s[..2]; assert Drawable(s[..3]) == Drawable(s[..2]);
    assert s[..4][..3] == s[..3]; assert Drawable(s[..4]) == Drawable(s[..3]) + [s[3]];
    assert s[..5][..4] == s[..4]; assert Drawable(s[..5]) == Drawable(s[..4]) + [s[4]];
    assert s[..6][..5] == s[..5]; assert Drawable(s[..6]) == Drawable(s[..5]);
    assert s[..7][..6] == s[..6]; assert Drawable(s[..7]) == Drawable(s[..6]);
    assert s[..8][..7] == s[..7]; assert Drawable(s[..8]) == Drawable(s[..7]) + [s[7]];
    assert s[..9][..8] == s[..8]; assert Drawable(s[..9]) == Drawable(s[..8]) + [s[8]];
    assert s[..10][..9] == s[..9]; assert Drawable(s[..10]) == Drawable(s[..9]);
    assert s[..11][..10] == s[..10]; assert Drawable(s[..11]) == Drawable(s[..10]);
    assert s[..12][..11] == s[..11]; assert Drawable(s[..12]) == Drawable(s[..11]);
    assert s[..13][..12] == s[..12]; assert Drawable(s[..13]) == Drawable(s[..12]);
    assert s[..14][..13] == s[..13]; assert Drawable(s[..14]) == Drawable(s[..13]);
    assert s[..15][..14] == s[..14]; assert Drawable(s[..15]) == Drawable(s[..14]) + [s[14]];
    assert s[..16][..15] == s[..15]; assert Drawable(s[..16]) == Drawable(s[..15]) + [s[15]];
    assert s[..16] == s;
  }

  /**
   * The dashboard as written, against a database that answers every query
   * with the columns its select list names and draws every chart: sixteen
   * subheaders in display order, sixteen tables, no error, and seven charts,
   * none of them the LastName bars.
   */
  lemma AsWrittenRun(execute: Report -> Outcome)
    requires AnswersAsSpelled(AsWrittenCatalogue, execute)
    ensures SubheaderTitles(RenderAll(AsWrittenCatalogue, execute)) == Titles(AsWrittenCatalogue)
    ensures Count(RenderAll(AsWrittenCatalogue, execute), TableKind) == 16
    ensures Count(RenderAll(AsWrittenCatalogue, execute), ErrorKind) == 0
    ensures ChartsDrawn(RenderAll(AsWrittenCatalogue, execute)) == Drawable(AsWrittenPicks)
    ensures |ChartsDrawn(RenderAll(AsWrittenCatalogue, execute))| == 7
    ensures LastNameBars !in ChartsDrawn(RenderAll(AsWrittenCatalogue, execute))
  {
    SubheadersInListOrder(AsWrittenCatalogue, execute);
    EventCounts(AsWrittenCatalogue, execute);
    AllFetched(AsWrittenCatalogue, execute);
    ChartsFollowProjections(AsWrittenCatalogue, execute);
    CataloguePicks();
    SelectedChartsByPicks(AsWrittenCatalogue, AsWrittenPicks);
    AsWrittenDrawable();
  }

  /**
   * The corrected dashboard under the same database: the same subheaders,
   * tables and absence of errors, and eight charts, the LastName bars second.
   */
  lemma CorrectedRun(execute: Report -> Outcome)
    requires AnswersAsSpelled(Catalogue, execute)
    ensures SubheaderTitles(RenderAll(Catalogue, execute)) == Titles(Catalogue)
    ensures Count(RenderAll(Catalogue, execute), TableKind) == 16
    ensures Count(RenderAll(Catalogue, execute), ErrorKind) == 0
    ensures ChartsDrawn(RenderAll(Catalogue, execute)) == Drawable(CorrectedPicks)
    ensures |ChartsDrawn(RenderAll(Catalogue, execute))| == 8
    ensures ChartsDrawn(RenderAll(Catalogue, execute))[1] == LastNameBars
  {
    SubheadersInListOrder(Catalogue, execute);
    EventCounts(Catalogue, execute);
    AllFetched(Catalogue, execute);
    ChartsFollowProjections(Catalogue, execute);
    CataloguePicks();
    SelectedChartsByPicks(Catalogue, CorrectedPicks);
    CorrectedDrawable();
  }
}
