/** The dashboard page: how the one fetch ends, the page state it updates,
    and what each render shows. */
module Page {
  import opened Esg
  import Decimal

  // ---------------------------------------------------------------------------
  // The fetch outcome (App.js lines 34-38, 46)
  // ---------------------------------------------------------------------------

  /** How the single request for the records ended. `Response` is an answer
      from the server with its status and, when that parses, its JSON array of
      records; `Rejected` is a request that never got an answer or whose body
      did not parse, with the thrown error's message. */
  datatype FetchOutcome =
    | Response(status: nat, body: seq<Record>)
    | Rejected(message: string)

  /** Whether the response is ok (App.js line 35): the Fetch Standard calls a
      status in 200 to 299 ok, that is, every status of the 2xx class. */
  predicate IsOk(status: nat)
    ensures IsOk(status) <==> status / 100 == 2
  {
    200 <= status <= 299
  }

  predicate Succeeded(outcome: FetchOutcome)
  {
    outcome.Response? && IsOk(outcome.status)
  }

  const HttpErrorPrefix := "HTTP error! status: "

  /** The message of the error thrown for a non-ok response (App.js line 36):
      the fixed prefix followed by the status written in decimal. */
  function HttpErrorMessage(status: nat): (m: string)
    ensures |m| > |HttpErrorPrefix| && m[..|HttpErrorPrefix|] == HttpErrorPrefix
    ensures Decimal.AllDigits(m[|HttpErrorPrefix|..])
    ensures Decimal.DecimalValue(m[|HttpErrorPrefix|..]) == status
    ensures m[|HttpErrorPrefix|] == '0' <==> status == 0
    ensures status == 0 ==> m == HttpErrorPrefix + "0"
  {
    var digits := Decimal.DecimalString(status);
    var m := HttpErrorPrefix + digits;
    assert m[|HttpErrorPrefix|..] == digits;
    m
  }

  /** The message of the error the fetch handler catches. */
  function FailureMessage(outcome: FetchOutcome): string
    requires !Succeeded(outcome)
  {
    match outcome
    case Response(status, _) => HttpErrorMessage(status)
    case Rejected(message) => message
  }

  /** The division selected once the records arrive (App.js lines 40-44):
      the division of the first record, or none for an empty collection. */
  function DefaultSelection(data: seq<Record>): (d: string)
    ensures data == [] ==> d == ""
    ensures data != [] ==> d == UniqueDivisions(data)[0]
    ensures d == "" || d in UniqueDivisions(data)
  {
    if data == [] then "" else data[0].division
  }

  // ---------------------------------------------------------------------------
  // What a render shows (App.js lines 57-63, 72-78, 82-169, 172-273)
  // ---------------------------------------------------------------------------

  datatype DisplayMode = Loading | Failed | Ready

  /** The render checks `loading` first and `error` second (App.js lines 57-63). */
  function ModeOf(loading: bool, error: Option<string>): (m: DisplayMode)
    ensures m == Loading <==> loading
    ensures m == Failed <==> !loading && error.Some?
    ensures m == Ready <==> !loading && error.None?
  {
    if loading then Loading else if error.Some? then Failed else Ready
  }

  const BackendHint := ". Make sure your backend API is running at http://127.0.0.1:8000"

  const ErrorLead := "Error: "

  /** The text of the error screen (App.js line 62): the lead, the caught
      error's message verbatim, then the hint to check the backend. */
  function ErrorText(message: string): (t: string)
    ensures |t| == |ErrorLead| + |message| + |BackendHint|
    ensures t[..|ErrorLead|] == ErrorLead
    ensures t[|ErrorLead|..|ErrorLead| + |message|] == message
    ensures t[|ErrorLead| + |message|..] == BackendHint
  {
    ErrorLead + message + BackendHint
  }

  function MetricName(f: Field): string
  {
    match f
    case CarbonEmissions => "Carbon Emissions"
    case WaterUsage => "Water Usage"
    case EmployeeDiversity => "Employee Diversity"
  }

  /** The division named in headings and titles (App.js lines 103, 133, 163,
      251, 257, 263): the selection, or 'All Divisions' when it is empty. */
  function DivisionLabel(selected: string): (name: string)
    ensures name != ""
    ensures selected != "" ==> name == selected
    ensures selected == "" ==> name == "All Divisions"
  {
    if selected != "" then selected else "All Divisions"
  }

  /** One summary card: the metric, the year in its heading and the figure. */
  datatype Card = Card(metric: Field, year: int, figure: Shown)

  /** One chart section: its heading, the chart title, the x-axis labels and
      the data points. */
  datatype Chart = Chart(metric: Field, heading: string, title: string, labels: seq<int>, points: seq<Measure>)

  /** Below the selector: the cards and charts, or the no-data message. */
  datatype Body =
    | NoData
    | Charts(cards: Option<seq<Card>>, carbon: Chart, water: Chart, diversity: Chart)

  /** The whole page. `options` are the values of the selector's options,
      the placeholder "" first. */
  datatype View =
    | LoadingScreen
    | ErrorScreen(text: string)
    | DashboardScreen(options: seq<string>, selected: string, body: Body)

  /** The chart of one metric (App.js lines 82-109, 112-139, 142-169, 250-265):
      one point per filtered record in record order, no sorting or merging of
      years, titled after the selected division. */
  function ChartFor(filtered: seq<Record>, selected: string, f: Field): (c: Chart)
    ensures c.metric == f
    ensures |c.labels| == |filtered| && |c.points| == |filtered|
    ensures forall i :: 0 <= i < |filtered| ==>
              c.labels[i] == filtered[i].year && c.points[i] == FieldValue(filtered[i], f)
    ensures c.heading == MetricName(f) + " (" + DivisionLabel(selected) + ")"
    ensures c.title == DivisionLabel(selected) + " " + MetricName(f) + " Over Time"
  {
    var division := DivisionLabel(selected);
    Chart(f, MetricName(f) + " (" + division + ")", division + " " + MetricName(f) + " Over Time",
          Years(filtered), Values(filtered, f))
  }

  /** The summary cards section (App.js lines 201-246), present when
      `latestYearData` is not null: each card shows the latest record's year
      and that record's figure for its metric. */
  function SummaryCards(filtered: seq<Record>): (cards: Option<seq<Card>>)
    ensures cards.None? <==> filtered == []
    ensures cards.Some? ==>
              |cards.value| == 3 &&
              cards.value[0].metric == CarbonEmissions &&
              cards.value[1].metric == WaterUsage &&
              cards.value[2].metric == EmployeeDiversity
    ensures cards.Some? ==> forall c :: c in cards.value ==>
              c.figure.Value? &&
              c.figure == Value(FieldValue(Latest(filtered).value, c.metric)) &&
              c.year == Latest(filtered).value.year &&
              forall i :: 0 <= i < |filtered| ==> filtered[i].year <= c.year
  {
    var latest := Latest(filtered);
    if latest.Some? then
      Some([Card(CarbonEmissions, latest.value.year, LatestFigure(filtered, CarbonEmissions)),
            Card(WaterUsage, latest.value.year, LatestFigure(filtered, WaterUsage)),
            Card(EmployeeDiversity, latest.value.year, LatestFigure(filtered, EmployeeDiversity))])
    else None
  }

  /** Cards and charts only for a non-empty filter result (App.js lines 198-270). */
  function RenderBody(filtered: seq<Record>, selected: string): (b: Body)
    ensures b.NoData? <==> filtered == []
    ensures b.Charts? ==> b.cards.Some?
    ensures b.Charts? ==>
              b.carbon.metric == CarbonEmissions && b.water.metric == WaterUsage &&
              b.diversity.metric == EmployeeDiversity &&
              b.carbon.labels == b.water.labels == b.diversity.labels == Years(filtered)
    ensures b.Charts? ==>
              b.cards == SummaryCards(filtered) &&
              b.carbon == ChartFor(filtered, selected, CarbonEmissions) &&
              b.water == ChartFor(filtered, selected, WaterUsage) &&
              b.diversity == ChartFor(filtered, selected, EmployeeDiversity)
  {
    if |filtered| > 0 then
      Charts(SummaryCards(filtered),
             ChartFor(filtered, selected, CarbonEmissions),
             ChartFor(filtered, selected, WaterUsage),
             ChartFor(filtered, selected, EmployeeDiversity))
    else NoData
  }

  /** A render of the page state: Loading while loading, else Error when an
      error was caught, else the dashboard for the selected division. */
  function Render(data: seq<Record>, loading: bool, error: Option<string>, selected: string): (v: View)
    ensures v.LoadingScreen? <==> loading
    ensures v.ErrorScreen? <==> !loading && error.Some?
    ensures v.ErrorScreen? ==> v.text == ErrorText(error.value)
    ensures v.DashboardScreen? ==>
              v.options == [""] + UniqueDivisions(data) && v.selected == selected &&
              v.body == RenderBody(Filter(data, selected), selected)
  {
    match ModeOf(loading, error)
    case Loading => LoadingScreen
    case Failed => ErrorScreen(ErrorText(error.value))
    case Ready => DashboardScreen([""] + UniqueDivisions(data), selected,
                                  RenderBody(Filter(data, selected), selected))
  }

  /** With the placeholder selected, every record is charted. */
  lemma UnfilteredDashboardShowsAll(data: seq<Record>)
    ensures Render(data, false, None, "").body == RenderBody(data, "")
    ensures data != [] ==> Render(data, false, None, "").body.carbon.labels == Years(data)
  {
    FilterWithoutSelection(data);
  }

  /** The cards show the last of the filtered records with the greatest year. */
  lemma SummaryShowsLastLatestRecord(filtered: seq<Record>, selected: string, k: nat)
    requires k < |filtered|
    requires forall i :: 0 <= i < |filtered| ==> filtered[i].year <= filtered[k].year
    requires forall j :: k < j < |filtered| ==> filtered[j].year < filtered[k].year
    ensures RenderBody(filtered, selected).cards ==
              Some([Card(CarbonEmissions, filtered[k].year, Value(filtered[k].carbonEmissionsTons)),
                    Card(WaterUsage, filtered[k].year, Value(filtered[k].waterUsageKL)),
                    Card(EmployeeDiversity, filtered[k].year, Value(filtered[k].employeeDiversityPercentage))])
  {
    LatestPicksLastMaximal(filtered, k);
  }

  // ---------------------------------------------------------------------------
  // Page state (App.js lines 26-29) and its two handlers
  // ---------------------------------------------------------------------------

  /** The four state variables of the page. `error` holds the message of the
      caught error, or None for null. */
  class Dashboard {
    var esgData: seq<Record>
    var loading: bool
    var error: Option<string>
    var selectedDivision: string

    /** While loading nothing has arrived; after a failure nothing was stored;
        the selection is always the placeholder or a division of the data. */
    ghost predicate Valid()
      reads this
    {
      (loading ==> esgData == [] && error.None? && selectedDivision == "") &&
      (error.Some? ==> !loading && esgData == [] && selectedDivision == "") &&
      (selectedDivision == "" || selectedDivision in UniqueDivisions(esgData))
    }

    /** The initial state of the four `useState` calls. */
    constructor ()
      ensures Valid()
      ensures esgData == [] && loading && error == None && selectedDivision == ""
      ensures Mode() == Loading
    {
      esgData := [];
      loading := true;
      error := None;
      selectedDivision := "";
    }

    function Mode(): DisplayMode
      reads this
    {
      ModeOf(loading, error)
    }

    /** The values of the selector's options (App.js lines 188-193). */
    function SelectorOptions(): (options: seq<string>)
      reads this
      ensures |options| >= 1 && options[0] == ""
      ensures options[1..] == UniqueDivisions(esgData)
      ensures forall d :: d in options <==>
                d == "" || exists i :: 0 <= i < |esgData| && esgData[i].division == d
    {
      [""] + UniqueDivisions(esgData)
    }

    function CurrentView(): View
      reads this
    {
      Render(esgData, loading, error, selectedDivision)
    }

    /** The fetch handler after the request ends (App.js lines 35-50). It runs
        once, at mount, while the page is loading. */
    method OnFetchResult(outcome: FetchOutcome)
      requires Valid() && loading
      modifies this
      ensures Valid() && !loading
      ensures Succeeded(outcome) ==>
                esgData == outcome.body && error == None &&
                selectedDivision == DefaultSelection(outcome.body) &&
                Mode() == Ready
      ensures !Succeeded(outcome) ==>
                error == Some(FailureMessage(outcome)) &&
                esgData == old(esgData) && selectedDivision == old(selectedDivision) &&
                Mode() == Failed
    {
      match outcome {
        case Response(status, body) =>
          if !IsOk(status) {
            error := Some(HttpErrorMessage(status));
          } else {
            esgData := body;
            if |body| > 0 {
              var uniqueDivs := UniqueDivisions(body);
              if |uniqueDivs| > 0 {
                selectedDivision := uniqueDivs[0];
              }
            }
          }
        case Rejected(message) =>
          error := Some(message);
      }
      loading := false;
    }

    /** The selector's change handler (App.js line 185). The selector exists
        only on the dashboard, and its value is one of its options. */
    method SelectDivision(value: string)
      requires Valid() && Mode() == Ready && value in SelectorOptions()
      modifies this`selectedDivision
      ensures Valid() && Mode() == Ready
      ensures selectedDivision == value
    {
      selectedDivision := value;
    }
  }

  /** Three records over two divisions have the division index ["A", "B"]. */
  lemma DivisionIndexOfExample(a: Record, b: Record, c: Record)
    requires a.division == "A" && b.division == "A" && c.division == "B"
    ensures UniqueDivisions([a, b, c]) == ["A", "B"]
  {
    var column: seq<string> := ["A", "A", "B"];
    assert DivisionColumn([a, b, c]) == column;
    assert column[..2] == ["A", "A"] && column[..2][..1] == ["A"] && column[..2][..1][..0] == [];
    assert InsertionOrder(column[..2]) == ["A"];
  }

  /** A session with three records over two divisions; division A's 2022
      record is the latest. */
  method ExampleSession()
  {
    var a := Record("A", 2021, 100, 1000, 40);
    var b := Record("A", 2022, 90, 900, 42);
    var c := Record("B", 2022, 50, 500, 45);
    var page := new Dashboard();
    assert page.CurrentView() == LoadingScreen;
    page.OnFetchResult(Response(200, [a, b, c]));
    assert page.selectedDivision == "A";
    DivisionIndexOfExample(a, b, c);
    assert [a, b, c][1..] == [b, c] && [b, c][1..] == [c] && [c][1..] == [];
    assert Filter([c], "A") == [];
    assert Filter([b, c], "A") == [b];
    assert Filter([a, b, c], "A") == [a, b];
    LatestPicksLastMaximal([a, b], 1);
    assert page.CurrentView().body.cards.value[0].figure == Value(90);
    assert page.CurrentView().options == ["", "A", "B"];
  }

  /** A session whose request is answered with status 500. */
  method ExampleFailedSession()
  {
    var broken := new Dashboard();
    broken.OnFetchResult(Response(500, []));
    assert broken.Mode() == Failed;
    assert Decimal.DecimalString(500) == "500";
    assert broken.CurrentView() == ErrorScreen(ErrorText("HTTP error! status: 500"));
  }
}
