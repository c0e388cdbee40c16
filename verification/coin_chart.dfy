/** The price chart of the detail view (`CoinChart`): the selectable
    time window, the projection of the provider's price history into chart
    series, and the fetch that replaces the chart. */
module CoinChart {
  import opened Common

  /** The windows offered, in button order, in days. */
  const DayOptions: seq<int> := [1, 7, 30, 90, 365]

  /** The window on mount. */
  const InitialDays := 7

  /** One sample of the price history: `[timestamp in ms, price in USD]`. */
  type Sample = (int, real)

  /** One line of the chart, with its fixed styling. */
  datatype Dataset = Dataset(
    seriesLabel: string,
    data: seq<real>,
    borderColor: string,
    backgroundColor: string,
    tension: real,
    fill: bool,
    pointRadius: int)

  /** The data handed to the line chart. */
  datatype ChartData = ChartData(labels: seq<string>, datasets: seq<Dataset>)

  /** The date format of the x-axis labels: hour and minute for the
      one-day window, day and month otherwise. */
  function LabelFormat(days: int): (f: string)
    ensures f == "HH:mm" <==> days == 1
    ensures f == "dd/MM" <==> days != 1
  {
    if days == 1 then "HH:mm" else "dd/MM"
  }

  /** `prices.map(p => p[1])`. */
  function PriceValues(prices: seq<Sample>): (r: seq<real>)
    ensures |r| == |prices|
    ensures forall i :: 0 <= i < |prices| ==> r[i] == prices[i].1
  {
    if prices == [] then [] else [prices[0].1] + PriceValues(prices[1..])
  }

  /** `prices.map(p => format(new Date(p[0]), fmt))`, with the date
      formatter taken as given. */
  function TimeLabels(prices: seq<Sample>, fmt: string, format: (int, string) -> string): (r: seq<string>)
    ensures |r| == |prices|
    ensures forall i :: 0 <= i < |prices| ==> r[i] == format(prices[i].0, fmt)
  {
    if prices == [] then [] else [format(prices[0].0, fmt)] + TimeLabels(prices[1..], fmt, format)
  }

  /** `formattedData`: one label per sample in the window's date format and
      a single dataset whose values are the samples' prices, in order. */
  function Project(prices: seq<Sample>, days: int, format: (int, string) -> string): (c: ChartData)
    ensures |c.datasets| == 1
    ensures |c.labels| == |prices| && |c.datasets[0].data| == |prices|
    ensures forall i :: 0 <= i < |prices| ==>
      c.datasets[0].data[i] == prices[i].1 && c.labels[i] == format(prices[i].0, LabelFormat(days))
    ensures c.datasets[0].seriesLabel == "Price (USD)"
  {
    ChartData(
      TimeLabels(prices, LabelFormat(days), format),
      [Dataset("Price (USD)", PriceValues(prices), "#D4AF37", "rgba(212, 175, 55, 0.2)", 0.4, true, 0)])
  }

  /* ---------------------------------------------------------------------
     State and events
     --------------------------------------------------------------------- */

  /** The chart's state hooks, and the history requests the effect has
      sent that have not settled yet, by the window each was sent for. */
  datatype ChartState = ChartState(days: int, chartData: Option<ChartData>, pending: multiset<int>)

  /** The state on mount: the 7-day window, no chart yet, and the request
      the mount effect sent for the 7-day window in flight. */
  const Initial := ChartState(InitialDays, None, multiset{InitialDays})

  /** A click on the window button at position `button`, or the settling of
      a history request sent for window `requestedDays` (the history on
      success, `None` when the request or the projection failed). */
  datatype Event =
    | Press(button: nat)
    | Settled(requestedDays: int, prices: Option<seq<Sample>>)

  /** The skeleton replaces the chart, and its buttons, while no chart
      data is held. */
  predicate ShowSkeleton(s: ChartState)
  {
    s.chartData.None?
  }

  /** Whether `e` can happen in state `s`: a button can be clicked only
      when the buttons are rendered, which is not while the skeleton shows;
      a request can settle only when it is in flight. */
  predicate Enabled(s: ChartState, e: Event)
  {
    match e
    case Press(button) => button < |DayOptions| && !ShowSkeleton(s)
    case Settled(requestedDays, _) => requestedDays in s.pending
  }

  /** Apply one event. A click selects its button's window, and when the
      window changes the effect sends a request for the new one. A settled
      request leaves flight; on success it replaces the chart with the
      projection of its history in its own window's format, and on failure
      nothing else changes. */
  function Step(s: ChartState, e: Event, format: (int, string) -> string): (t: ChartState)
    requires Enabled(s, e)
    ensures e.Press? ==> t.days == DayOptions[e.button] && t.chartData == s.chartData
    ensures e.Press? ==> t.pending == if t.days == s.days then s.pending else s.pending + multiset{t.days}
    ensures e.Settled? ==> t.days == s.days && t.pending == s.pending - multiset{e.requestedDays}
    ensures e.Settled? && e.prices.Some? ==> t.chartData == Some(Project(e.prices.value, e.requestedDays, format))
    ensures e.Settled? && e.prices.None? ==> t.chartData == s.chartData
  {
    match e
    case Press(button) =>
      var d := DayOptions[button];
      if d == s.days then s.(days := d) else s.(days := d, pending := s.pending + multiset{d})
    case Settled(requestedDays, prices) =>
      var s' := s.(pending := s.pending - multiset{requestedDays});
      if prices.Some? then s'.(chartData := Some(Project(prices.value, requestedDays, format))) else s'
  }

  /** Whether the events `es` can happen one after another from `s`. */
  predicate Possible(s: ChartState, es: seq<Event>, format: (int, string) -> string)
    decreases |es|
  {
    es == [] || (Enabled(s, es[0]) && Possible(Step(s, es[0], format), es[1..], format))
  }

  /** Apply events in the order they happen. */
  function Run(s: ChartState, es: seq<Event>, format: (int, string) -> string): ChartState
    requires Possible(s, es, format)
    decreases |es|
  {
    if es == [] then s else Run(Step(s, es[0], format), es[1..], format)
  }

  /** The window, and the window of every request in flight, is one of
      the five offered. */
  ghost predicate Offered(s: ChartState)
  {
    s.days in DayOptions && forall d :: d in s.pending ==> d in DayOptions
  }

  /** The window always lies among the five offered, and so does the window
      of every request in flight. */
  lemma {:induction false} RunDaysOffered(s: ChartState, es: seq<Event>, format: (int, string) -> string)
    requires Possible(s, es, format) && Offered(s)
    ensures Offered(Run(s, es, format))
    decreases |es|
  {
    if es != [] {
      var t := Step(s, es[0], format);
      assert Offered(t);
      RunDaysOffered(t, es[1..], format);
    }
  }

  /** Every request that settles was sent for one of the five offered
      windows. */
  lemma {:induction false} SettledWindowsOffered(s: ChartState, es: seq<Event>, format: (int, string) -> string)
    requires Possible(s, es, format) && Offered(s)
    ensures forall i :: 0 <= i < |es| && es[i].Settled? ==> es[i].requestedDays in DayOptions
    decreases |es|
  {
    if es != [] {
      var t := Step(s, es[0], format);
      assert Offered(t);
      SettledWindowsOffered(t, es[1..], format);
      assert forall i :: 0 < i < |es| ==> es[i] == es[1..][i - 1];
    }
  }

  /** Event `i` is the last successful request of `es`. */
  ghost predicate LastLoadedAt(es: seq<Event>, i: int)
  {
    0 <= i < |es| && es[i].Settled? && es[i].prices.Some?
    && forall j :: i < j < |es| ==> !(es[j].Settled? && es[j].prices.Some?)
  }

  /** The chart shown is the projection of the last successful request, in
      the window that request was sent for; failures and clicks never
      change it, so with no success it is the chart held before. */
  lemma {:induction false} RunChart(s: ChartState, es: seq<Event>, format: (int, string) -> string)
    requires Possible(s, es, format)
    ensures (forall i :: 0 <= i < |es| ==> !(es[i].Settled? && es[i].prices.Some?)) ==>
      Run(s, es, format).chartData == s.chartData
    ensures forall i :: LastLoadedAt(es, i) ==>
      Run(s, es, format).chartData == Some(Project(es[i].prices.value, es[i].requestedDays, format))
    decreases |es|
  {
    if es != [] {
      var s' := Step(s, es[0], format);
      assert forall j :: 0 <= j < |es[1..]| ==> es[1..][j] == es[j + 1];
      RunChart(s', es[1..], format);
      forall i | LastLoadedAt(es, i)
        ensures Run(s, es, format).chartData == Some(Project(es[i].prices.value, es[i].requestedDays, format))
      {
        if i > 0 {
          assert LastLoadedAt(es[1..], i - 1);
        }
      }
    }
  }

  /** Once a chart is shown the skeleton never comes back. */
  lemma {:induction false} SkeletonNeverReturns(s: ChartState, es: seq<Event>, format: (int, string) -> string)
    requires Possible(s, es, format) && !ShowSkeleton(s)
    ensures !ShowSkeleton(Run(s, es, format))
    decreases |es|
  {
    if es != [] {
      SkeletonNeverReturns(Step(s, es[0], format), es[1..], format);
    }
  }

  /** While the skeleton shows, nothing but the mount request can have
      been sent: the window is still the initial one and at most the
      mount request is in flight. */
  ghost predicate MountOnly(s: ChartState)
  {
    ShowSkeleton(s) ==> s.days == InitialDays && s.pending <= multiset{InitialDays}
  }

  /** From mount, for as long as the skeleton shows the chart stays on the
      7-day window with no request but the mount one. */
  lemma {:induction false} SkeletonKeepsInitialWindow(s: ChartState, es: seq<Event>, format: (int, string) -> string)
    requires Possible(s, es, format) && MountOnly(s)
    ensures MountOnly(Run(s, es, format))
    decreases |es|
  {
    if es != [] {
      var t := Step(s, es[0], format);
      assert MountOnly(t);
      SkeletonKeepsInitialWindow(t, es[1..], format);
    }
  }

  /** When the mount request fails, the skeleton stays forever: no button
      is shown and no request is in flight, so no event can happen. */
  lemma FailedMountFetchStaysSkeleton(format: (int, string) -> string)
    ensures Enabled(Initial, Settled(InitialDays, None))
    ensures ShowSkeleton(Step(Initial, Settled(InitialDays, None), format))
    ensures forall e :: !Enabled(Step(Initial, Settled(InitialDays, None), format), e)
  {
  }

  /* ---------------------------------------------------------------------
     Window buttons
     --------------------------------------------------------------------- */

  /** The decimal digit `d`. */
  function Digit(d: nat): (c: char)
    requires d < 10
    ensures '0' <= c <= '9' && c as int - '0' as int == d
  {
    ('0' as int + d) as char
  }

  /** The number a string of decimal digits denotes. */
  function DigitsValue(s: string): nat
    requires forall i :: 0 <= i < |s| ==> '0' <= s[i] <= '9'
  {
    if s == [] then 0
    else DigitsValue(s[..|s| - 1]) * 10 + (s[|s| - 1] as int - '0' as int)
  }

  /** The decimal text of `n`, as a number is rendered: digits only,
      denoting `n`, with no leading zero. */
  function Decimal(n: nat): (r: string)
    ensures |r| >= 1
    ensures forall i :: 0 <= i < |r| ==> '0' <= r[i] <= '9'
    ensures DigitsValue(r) == n
    ensures r[0] == '0' ==> r == "0"
  {
    if n < 10 then [Digit(n)]
    else
      var p := Decimal(n / 10);
      assert (p + [Digit(n % 10)])[..|p|] == p;
      p + [Digit(n % 10)]
  }

  /** The caption of the button for `num` days: the number, then `D` (both
      branches of the source's conditional give `D`). */
  function ButtonLabel(num: nat): (r: string)
    ensures |r| == |Decimal(num)| + 1
    ensures r[..|r| - 1] == Decimal(num) && r[|r| - 1] == 'D'
  {
    Decimal(num) + (if num == 1 then "D" else "D")
  }

  /** The five captions, in button order. */
  lemma ButtonLabels()
    ensures ButtonLabel(1) == "1D" && ButtonLabel(7) == "7D" && ButtonLabel(30) == "30D"
    ensures ButtonLabel(90) == "90D" && ButtonLabel(365) == "365D"
  {
  }

  /** The button for `num` is highlighted when it is the current window. */
  predicate ButtonActive(days: int, num: int)
  {
    days == num
  }

  /** When the window is one of the offered ones, exactly one button is
      highlighted. */
  lemma ExactlyOneButtonActive(days: int)
    requires days in DayOptions
    ensures exists i :: 0 <= i < |DayOptions| && ButtonActive(days, DayOptions[i])
    ensures forall i, j :: 0 <= i < j < |DayOptions| ==>
      !(ButtonActive(days, DayOptions[i]) && ButtonActive(days, DayOptions[j]))
  {
  }

  /** The mounted chart: the coin it charts and its state hooks. */
  class CoinChartView {
    const coinId: string
    var days: int
    var chartData: Option<ChartData>
    var pending: multiset<int>

    /** The window and the windows of the requests in flight are offered
        ones, and while the skeleton shows only the mount request exists. */
    ghost predicate Valid()
      reads this
    {
      Offered(State()) && MountOnly(State())
    }

    /** The view's state. */
    function State(): ChartState
      reads this
    {
      ChartState(days, chartData, pending)
    }

    /** Mounting: the initial hooks, and the mount effect's request. */
    constructor (coinId: string)
      ensures Valid() && this.coinId == coinId && State() == Initial
    {
      this.coinId := coinId;
      days := InitialDays;
      chartData := None;
      pending := multiset{InitialDays};
    }

    /** The click handler of window button `button`, `setDays(num)`, and
        the effect's request for a window that changed. The buttons exist
        only once a chart is shown. */
    method Press(button: nat)
      requires Valid() && button < |DayOptions| && !ShowSkeleton(State())
      modifies this
      ensures Valid()
      ensures days == DayOptions[button] && chartData == old(chartData)
      ensures pending == if days == old(days) then old(pending) else old(pending) + multiset{days}
    {
      var d := DayOptions[button];
      if d != days {
        days := d;
        pending := pending + multiset{d};
      }
    }

    /** The end of `fetchChartData` for a request in flight for
        `requestedDays`: on success the projected chart is stored; on
        failure the error is swallowed and the previous chart stays. */
    method OnChartResponse(requestedDays: int, prices: Option<seq<Sample>>, format: (int, string) -> string)
      requires Valid() && requestedDays in pending
      modifies this
      ensures Valid() && State() == Step(old(State()), Settled(requestedDays, prices), format)
    {
      pending := pending - multiset{requestedDays};
      if prices.Some? {
        var formattedData := Project(prices.value, requestedDays, format);
        chartData := Some(formattedData);
      }
    }
  }
}
