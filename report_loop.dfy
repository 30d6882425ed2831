/**
 * The dashboard's report loop: for every (title, query) pair, in list order,
 * show the title as a subheader, run the query, show the result table and the
 * chart the selector picks; an exception anywhere after the subheader is
 * caught, shown as an error banner for that report, and the loop goes on.
 * Rendering is modelled as an append-only log of page events.
 */
module ReportLoop {
  import opened Wrappers
  import opened ChartSelector

  /** A report definition: its title and its query, reduced to the column names its select list produces. */
  datatype Report = Report(title: string, projection: seq<Column>)

  /** A fetched result: its column names and how many rows it has (values are never inspected). */
  datatype ResultSet = ResultSet(columns: seq<Column>, rowCount: nat)

  /**
   * What happens when a report's query is run: either the query raises with a
   * message, or it returns a result; in the latter case drawing the selected
   * chart may still raise (`chartFailure`), which only matters when a chart
   * is selected at all.
   */
  datatype Outcome =
    | QueryFailed(message: string)
    | Fetched(result: ResultSet, chartFailure: Option<string>)

  /** One write to the page. */
  datatype Event =
    | Subheader(title: string)
    | Table(result: ResultSet)
    | Chart(spec: ChartSpec)
    | Error(text: string)

  /** The text of the error banner for a report. */
  function ErrorText(title: string, message: string): string
  {
    "Error in '" + title + "'\n" + message
  }

  /** A report fails when its query raises, or when the chart it selected raises. */
  predicate Fails(o: Outcome)
  {
    o.QueryFailed? || (o.chartFailure.Some? && Select(o.result.columns) != NoChart)
  }

  /** The message of whichever call raised in a failing report: the query's, or the chart's. */
  function FailureMessage(o: Outcome): string
    requires Fails(o)
  {
    if o.QueryFailed? then o.message else o.chartFailure.value
  }

  /** The events one report writes, given the outcome of its query. */
  function ReportEvents(r: Report, o: Outcome): seq<Event>
  {
    [Subheader(r.title)] +
    match o
    case QueryFailed(message) => [Error(ErrorText(r.title, message))]
    case Fetched(result, chartFailure) =>
      [Table(result)] +
      var spec := Select(result.columns);
      if spec == NoChart then []
      else if chartFailure.None? then [Chart(spec)]
      else [Error(ErrorText(r.title, chartFailure.value))]
  }

  /** The log after the loop has processed `reports`, one after another. */
  function RenderAll(reports: seq<Report>, execute: Report -> Outcome): seq<Event>
  {
    if reports == [] then []
    else
      var last := reports[|reports| - 1];
      RenderAll(reports[..|reports| - 1], execute) + ReportEvents(last, execute(last))
  }

  // ---------------------------------------------------------------------
  // Counting and projecting the log.
  // ---------------------------------------------------------------------

  datatype Kind = SubheaderKind | TableKind | ChartKind | ErrorKind

  function KindOf(e: Event): Kind
  {
    match e
    case Subheader(_) => SubheaderKind
    case Table(_) => TableKind
    case Chart(_) => ChartKind
    case Error(_) => ErrorKind
  }

  /** The number of events of kind `k` in `log`. */
  function Count(log: seq<Event>, k: Kind): nat
  {
    if log == [] then 0
    else Count(log[..|log| - 1], k) + (if KindOf(log[|log| - 1]) == k then 1 else 0)
  }

  /** The titles of the subheaders in `log`, in order. */
  function SubheaderTitles(log: seq<Event>): seq<string>
  {
    if log == [] then []
    else SubheaderTitles(log[..|log| - 1]) + (if log[|log| - 1].Subheader? then [log[|log| - 1].title] else [])
  }

  /** The charts drawn in `log`, in order. */
  function ChartsDrawn(log: seq<Event>): seq<ChartSpec>
  {
    if log == [] then []
    else ChartsDrawn(log[..|log| - 1]) + (if log[|log| - 1].Chart? then [log[|log| - 1].spec] else [])
  }

  /**
   * The title of the last subheader in `log`, if any: the report the page is
   * showing at that point.
   */
  function CurrentTitle(log: seq<Event>): Option<string>
  {
    if log == [] then None
    else if log[|log| - 1].Subheader? then Some(log[|log| - 1].title)
    else CurrentTitle(log[..|log| - 1])
  }

  function Titles(reports: seq<Report>): seq<string>
  {
    if reports == [] then [] else Titles(reports[..|reports| - 1]) + [reports[|reports| - 1].title]
  }

  /** The number of reports whose query returned a result. */
  function Successes(reports: seq<Report>, execute: Report -> Outcome): nat
  {
    if reports == [] then 0
    else Successes(reports[..|reports| - 1], execute) + (if execute(reports[|reports| - 1]).Fetched? then 1 else 0)
  }

  /** The number of reports that fail. */
  function Failures(reports: seq<Report>, execute: Report -> Outcome): nat
  {
    if reports == [] then 0
    else Failures(reports[..|reports| - 1], execute) + (if Fails(execute(reports[|reports| - 1])) then 1 else 0)
  }

  lemma {:induction false} CountAppend(a: seq<Event>, b: seq<Event>, k: Kind)
    decreases |b|
    ensures Count(a + b, k) == Count(a, k) + Count(b, k)
  {
    if b != [] {
      assert (a + b)[..|a + b| - 1] == a + b[..|b| - 1];
      CountAppend(a, b[..|b| - 1], k);
    } else {
      assert a + b == a;
    }
  }

  lemma {:induction false} SubheaderTitlesAppend(a: seq<Event>, b: seq<Event>)
    decreases |b|
    ensures SubheaderTitles(a + b) == SubheaderTitles(a) + SubheaderTitles(b)
  {
    if b != [] {
      assert (a + b)[..|a + b| - 1] == a + b[..|b| - 1];
      SubheaderTitlesAppend(a, b[..|b| - 1]);
    } else {
      assert a + b == a;
    }
  }

  lemma {:induction false} ChartsDrawnAppend(a: seq<Event>, b: seq<Event>)
    decreases |b|
    ensures ChartsDrawn(a + b) == ChartsDrawn(a) + ChartsDrawn(b)
  {
    if b != [] {
      assert (a + b)[..|a + b| - 1] == a + b[..|b| - 1];
      ChartsDrawnAppend(a, b[..|b| - 1]);
    } else {
      assert a + b == a;
    }
  }

  /** Once `b` has shown a subheader, what came before it no longer decides the current report. */
  lemma {:induction false} CurrentTitleAppend(a: seq<Event>, b: seq<Event>)
    requires CurrentTitle(b).Some?
    decreases |b|
    ensures CurrentTitle(a + b) == CurrentTitle(b)
  {
    assert (a + b)[..|a + b| - 1] == a + b[..|b| - 1];
    if !b[|b| - 1].Subheader? {
      CurrentTitleAppend(a, b[..|b| - 1]);
    }
  }

  // ---------------------------------------------------------------------
  // What one report writes.
  // ---------------------------------------------------------------------

  /**
   * Every report opens with its own subheader; a failed query writes exactly
   * one error, with the report's title and the message; a successful query
   * writes its table right after the subheader, and a chart can only come
   * third, and only the selector's chart.
   */
  lemma ReportBlockShape(r: Report, o: Outcome)
    ensures 2 <= |ReportEvents(r, o)| <= 3
    ensures ReportEvents(r, o)[0] == Subheader(r.title)
    ensures o.QueryFailed? ==> ReportEvents(r, o) == [Subheader(r.title), Error(ErrorText(r.title, o.message))]
    ensures o.Fetched? ==> ReportEvents(r, o)[1] == Table(o.result)
    ensures forall j :: 0 <= j < |ReportEvents(r, o)| && ReportEvents(r, o)[j].Chart? ==>
      j == 2 && ReportEvents(r, o)[j].spec == Select(o.result.columns)
  {
  }

  /**
   * Per report: one subheader, one table when the query succeeds, one error
   * when the report fails, and one chart when it succeeds with a chart selected.
   */
  lemma ReportBlockCounts(r: Report, o: Outcome)
    ensures Count(ReportEvents(r, o), SubheaderKind) == 1
    ensures Count(ReportEvents(r, o), TableKind) == (if o.Fetched? then 1 else 0)
    ensures Count(ReportEvents(r, o), ErrorKind) == (if Fails(o) then 1 else 0)
    ensures Count(ReportEvents(r, o), ChartKind) ==
      (if o.Fetched? && !Fails(o) && Select(o.result.columns) != NoChart then 1 else 0)
  {
    var events := ReportEvents(r, o);
    ReportBlockShape(r, o);
    forall k: Kind ensures Count(events[..1], k) == (if k == SubheaderKind then 1 else 0) {
      assert events[..1][..0] == [];
    }
    forall k: Kind ensures Count(events[..2], k) == Count(events[..1], k) + (if KindOf(events[1]) == k then 1 else 0) {
      assert events[..2][..1] == events[..1];
    }
    if |events| == 3 {
      forall k: Kind ensures Count(events, k) == Count(events[..2], k) + (if KindOf(events[2]) == k then 1 else 0) {
        assert events[..|events| - 1] == events[..2];
      }
    } else {
      assert events[..2] == events;
    }
  }

  /** Per report: the only subheader is the report's own title. */
  lemma ReportSubheaders(r: Report, o: Outcome)
    ensures SubheaderTitles(ReportEvents(r, o)) == [r.title]
  {
    var events := ReportEvents(r, o);
    ReportBlockShape(r, o);
    assert SubheaderTitles(events[..1]) == [r.title] by {
      assert events[..1][..0] == [];
    }
    assert SubheaderTitles(events[..2]) == [r.title] by {
      assert events[..2][..1] == events[..1];
    }
    if |events| == 3 {
      assert events[..|events| - 1] == events[..2];
    } else {
      assert events[..2] == events;
    }
  }

  /** A report draws the selector's chart, and only when its query succeeds, a chart is selected and drawing it does not raise. */
  lemma ReportCharts(r: Report, o: Outcome)
    ensures ChartsDrawn(ReportEvents(r, o)) ==
      (if o.Fetched? && !Fails(o) && Select(o.result.columns) != NoChart then [Select(o.result.columns)] else [])
  {
    var events := ReportEvents(r, o);
    assert ChartsDrawn(events[..1]) == [] by {
      assert events[..1][..0] == [];
    }
    if |events| == 3 {
      assert events[..2][..1] == events[..1];
      assert events[..3] == events;
    } else {
      assert events[..2] == events;
    }
  }

  /**
   * A report writes an error banner exactly when it fails, and then only one,
   * as its last event; the banner names the report's own title and carries
   * the message of whichever call raised, the query or the chart.
   */
  lemma ReportErrors(r: Report, o: Outcome)
    ensures forall j :: 0 <= j < |ReportEvents(r, o)| && ReportEvents(r, o)[j].Error? ==>
      Fails(o) && j == |ReportEvents(r, o)| - 1
    ensures Fails(o) ==> ReportEvents(r, o)[|ReportEvents(r, o)| - 1] == Error(ErrorText(r.title, FailureMessage(o)))
  {
  }

  /** Every error banner in `log` names the report whose subheader it follows. */
  ghost predicate BannersNameTheirReport(log: seq<Event>)
  {
    forall j :: 0 <= j < |log| && log[j].Error? ==>
      CurrentTitle(log[..j]).Some? && exists message :: log[j].text == ErrorText(CurrentTitle(log[..j]).value, message)
  }

  lemma ReportBanners(r: Report, o: Outcome)
    ensures BannersNameTheirReport(ReportEvents(r, o))
  {
    var events := ReportEvents(r, o);
    ReportErrors(r, o);
    ReportBlockShape(r, o);
    forall j | 0 <= j < |events| && events[j].Error?
      ensures CurrentTitle(events[..j]).Some? && exists message :: events[j].text == ErrorText(CurrentTitle(events[..j]).value, message)
    {
      assert events[..j] == [events[0]] + events[1..j];
      assert CurrentTitle([events[0]]) == Some(r.title);
      if j == 2 {
        assert events[1].Table?;
        assert events[..j][..1] == [events[0]];
      }
      assert CurrentTitle(events[..j]) == Some(r.title);
      assert events[j].text == ErrorText(r.title, FailureMessage(o));
    }
  }

  lemma BannersAppend(a: seq<Event>, b: seq<Event>)
    requires BannersNameTheirReport(a) && BannersNameTheirReport(b)
    ensures BannersNameTheirReport(a + b)
  {
    forall j | 0 <= j < |a + b| && (a + b)[j].Error?
      ensures CurrentTitle((a + b)[..j]).Some? && exists message :: (a + b)[j].text == ErrorText(CurrentTitle((a + b)[..j]).value, message)
    {
      if j < |a| {
        assert (a + b)[..j] == a[..j];
        assert (a + b)[j] == a[j];
      } else {
        var i := j - |a|;
        assert (a + b)[..j] == a + b[..i];
        assert (a + b)[j] == b[i];
        CurrentTitleAppend(a, b[..i]);
      }
    }
  }

  /**
   * The chart and any error banner depend on the result's columns only: a
   * result with no rows writes the same events as one with rows, apart from
   * the table itself, which is still shown.
   */
  lemma RowCountChangesOnlyTheTable(r: Report, columns: seq<Column>, rows: nat, chartFailure: Option<string>)
    ensures var empty := ReportEvents(r, Fetched(ResultSet(columns, 0), chartFailure));
      var full := ReportEvents(r, Fetched(ResultSet(columns, rows), chartFailure));
      && |empty| == |full|
      && empty[1] == Table(ResultSet(columns, 0))
      && forall j :: 0 <= j < |full| && j != 1 ==> empty[j] == full[j]
  {
  }

  // ---------------------------------------------------------------------
  // What the whole loop writes.
  // ---------------------------------------------------------------------

  /** Processing two lists in turn writes the first list's log, then the second's. */
  lemma {:induction false} RenderAllAppend(a: seq<Report>, b: seq<Report>, execute: Report -> Outcome)
    decreases |b|
    ensures RenderAll(a + b, execute) == RenderAll(a, execute) + RenderAll(b, execute)
  {
    if b != [] {
      assert (a + b)[..|a + b| - 1] == a + b[..|b| - 1];
      RenderAllAppend(a, b[..|b| - 1], execute);
    } else {
      assert a + b == a;
    }
  }

  /**
   * Failure isolation: report k's events sit between those of the reports
   * before it and those after it, and the latter are what those reports
   * would write on their own, whatever report k's outcome was.
   */
  lemma IsolatedReport(reports: seq<Report>, k: nat, execute: Report -> Outcome)
    requires k < |reports|
    ensures RenderAll(reports, execute) ==
      RenderAll(reports[..k], execute) + ReportEvents(reports[k], execute(reports[k])) + RenderAll(reports[k + 1..], execute)
  {
    SplitAfter(reports, k, execute);
    RenderPrefixStep(reports, k, execute);
  }

  lemma SplitAfter(reports: seq<Report>, k: nat, execute: Report -> Outcome)
    requires k < |reports|
    ensures RenderAll(reports, execute) == RenderAll(reports[..k + 1], execute) + RenderAll(reports[k + 1..], execute)
  {
    assert reports == reports[..k + 1] + reports[k + 1..];
    RenderAllAppend(reports[..k + 1], reports[k + 1..], execute);
  }

  /** Processing one more report appends that report's events to the log. */
  lemma RenderPrefixStep(reports: seq<Report>, k: nat, execute: Report -> Outcome)
    requires k < |reports|
    ensures RenderAll(reports[..k + 1], execute) == RenderAll(reports[..k], execute) + ReportEvents(reports[k], execute(reports[k]))
  {
    assert reports[..k + 1][..k] == reports[..k];
  }

  /** The log's subheaders are the reports' titles, in list order, each once. */
  lemma {:induction false} SubheadersInListOrder(reports: seq<Report>, execute: Report -> Outcome)
    ensures SubheaderTitles(RenderAll(reports, execute)) == Titles(reports)
  {
    if reports != [] {
      var last := reports[|reports| - 1];
      SubheadersInListOrder(reports[..|reports| - 1], execute);
      SubheaderTitlesAppend(RenderAll(reports[..|reports| - 1], execute), ReportEvents(last, execute(last)));
      ReportSubheaders(last, execute(last));
    }
  }

  /**
   * One table per successful query, one error per failing report, and no
   * more charts than successful queries.
   */
  lemma {:induction false} EventCounts(reports: seq<Report>, execute: Report -> Outcome)
    ensures Count(RenderAll(reports, execute), TableKind) == Successes(reports, execute)
    ensures Count(RenderAll(reports, execute), ErrorKind) == Failures(reports, execute)
    ensures Count(RenderAll(reports, execute), SubheaderKind) == |reports|
    ensures Count(RenderAll(reports, execute), ChartKind) <= Successes(reports, execute)
  {
    if reports != [] {
      var init, last := reports[..|reports| - 1], reports[|reports| - 1];
      EventCounts(init, execute);
      ReportBlockCounts(last, execute(last));
      forall k: Kind
        ensures Count(RenderAll(reports, execute), k) == Count(RenderAll(init, execute), k) + Count(ReportEvents(last, execute(last)), k)
      {
        CountAppend(RenderAll(init, execute), ReportEvents(last, execute(last)), k);
      }
    }
  }

  /** In the whole log, every error banner names the report whose subheader comes last before it. */
  lemma {:induction false} BannersFollowTheirSubheader(reports: seq<Report>, execute: Report -> Outcome)
    ensures BannersNameTheirReport(RenderAll(reports, execute))
  {
    if reports != [] {
      var last := reports[|reports| - 1];
      BannersFollowTheirSubheader(reports[..|reports| - 1], execute);
      ReportBanners(last, execute(last));
      BannersAppend(RenderAll(reports[..|reports| - 1], execute), ReportEvents(last, execute(last)));
    }
  }

  /** The charts the selector picks for the reports' own column lists, in list order. */
  function SelectedCharts(reports: seq<Report>): seq<ChartSpec>
  {
    if reports == [] then []
    else
      var spec := Select(reports[|reports| - 1].projection);
      SelectedCharts(reports[..|reports| - 1]) + (if spec == NoChart then [] else [spec])
  }

  /** `specs` without its `NoChart` entries, in order. */
  function Drawable(specs: seq<ChartSpec>): seq<ChartSpec>
  {
    if specs == [] then []
    else Drawable(specs[..|specs| - 1]) + (if specs[|specs| - 1].NoChart? then [] else [specs[|specs| - 1]])
  }

  /** A filtered list keeps only entries of the list it filters. */
  lemma {:induction false} DrawableKeepsPicks(specs: seq<ChartSpec>, spec: ChartSpec)
    requires spec in Drawable(specs)
    ensures spec in specs && !spec.NoChart?
  {
    var n := |specs| - 1;
    if spec in Drawable(specs[..n]) {
      DrawableKeepsPicks(specs[..n], spec);
    }
  }

  /** Given the chart the selector picks for each report, the selected charts are those picks without the empty ones. */
  lemma {:induction false} SelectedChartsByPicks(reports: seq<Report>, specs: seq<ChartSpec>)
    requires |specs| == |reports|
    requires forall i :: 0 <= i < |reports| ==> Select(reports[i].projection) == specs[i]
    ensures SelectedCharts(reports) == Drawable(specs)
  {
    if reports != [] {
      var n := |reports| - 1;
      assert forall i :: 0 <= i < n ==> reports[..n][i] == reports[i] && specs[..n][i] == specs[i];
      SelectedChartsByPicks(reports[..n], specs[..n]);
    }
  }

  /**
   * Every query returns a result whose columns are the ones its select list
   * names, and no chart call raises.
   */
  predicate AnswersAsSpelled(reports: seq<Report>, execute: Report -> Outcome)
  {
    forall i :: 0 <= i < |reports| ==>
      && execute(reports[i]).Fetched?
      && execute(reports[i]).result.columns == reports[i].projection
      && execute(reports[i]).chartFailure.None?
  }

  /** When every query answers with its own columns and no chart raises, the log draws exactly the selected charts, with no error. */
  lemma {:induction false} ChartsFollowProjections(reports: seq<Report>, execute: Report -> Outcome)
    requires AnswersAsSpelled(reports, execute)
    ensures ChartsDrawn(RenderAll(reports, execute)) == SelectedCharts(reports)
    ensures Failures(reports, execute) == 0
  {
    if reports != [] {
      var init, last := reports[..|reports| - 1], reports[|reports| - 1];
      assert AnswersAsSpelled(init, execute) by {
        forall i | 0 <= i < |init| ensures init[i] == reports[i] { }
      }
      ChartsFollowProjections(init, execute);
      ReportCharts(last, execute(last));
      ChartsDrawnAppend(RenderAll(init, execute), ReportEvents(last, execute(last)));
    }
  }

  /** When every query returns a result, every report is a success. */
  lemma {:induction false} AllFetched(reports: seq<Report>, execute: Report -> Outcome)
    requires forall i :: 0 <= i < |reports| ==> execute(reports[i]).Fetched?
    ensures Successes(reports, execute) == |reports|
  {
    if reports != [] {
      AllFetched(reports[..|reports| - 1], execute);
    }
  }

  /**
   * The loop itself: writes, report by report, the subheader, then the table
   * and chart or the error banner.
   */
  method RunReports(reports: seq<Report>, execute: Report -> Outcome) returns (log: seq<Event>)
    ensures log == RenderAll(reports, execute)
    ensures SubheaderTitles(log) == Titles(reports)
    ensures Count(log, TableKind) == Successes(reports, execute)
    ensures Count(log, ErrorKind) == Failures(reports, execute)
    ensures Count(log, ChartKind) <= Successes(reports, execute)
  {
    log := [];
    for i := 0 to |reports|
      invariant log == RenderAll(reports[..i], execute)
    {
      var report := reports[i];
      ghost var before := log;
      log := log + [Subheader(report.title)];
      match execute(report) {
        case QueryFailed(message) =>
          log := log + [Error(ErrorText(report.title, message))];
        case Fetched(result, chartFailure) =>
          log := log + [Table(result)];
          var spec := Select(result.columns);
          if spec != NoChart {
            match chartFailure {
              case None =>
                log := log + [Chart(spec)];
              case Some(message) =>
                log := log + [Error(ErrorText(report.title, message))];
            }
          }
      }
      assert log == before + ReportEvents(report, execute(report));
      RenderPrefixStep(reports, i, execute);
    }
    assert reports[..|reports|] == reports;
    SubheadersInListOrder(reports, execute);
    EventCounts(reports, execute);
  }
}
