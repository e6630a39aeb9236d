/** covid_stats_plotter.py: the 7-day case/death averages that feed the
    chart (plotData) and the Today/Total summary of the latest informative
    day (getSummary). The history of a country or province is a sequence of
    daily records, oldest first, as the covid API returns it. */
module CovidStats {
  import opened Common
  import opened Window

  /** One entry of the API's "history": cumulative counts and the change
      fields, which the API reports as "na" (None here) when unknown. */
  datatype DayRecord = DayRecord(
    date: int,
    confirmed: int,
    deaths: int,
    changeConfirmed: Option<int>,
    changeDeaths: Option<int>)

  /** What getSummary returns: the table it formats, the literal message of
      the failed search, or the exception it lets escape. */
  datatype SummaryResult =
    | Report(title: string, date: int, table: seq<Row>)
    | Message(text: string)
    | Raised(error: PyError)

  const NO_VALID_DATA: string := "Couldn't find valid data."

  function Confirmed(history: seq<DayRecord>): seq<int> {
    seq(|history|, i requires 0 <= i < |history| => history[i].confirmed)
  }

  function Deaths(history: seq<DayRecord>): seq<int> {
    seq(|history|, i requires 0 <= i < |history| => history[i].deaths)
  }

  /** The chart series of plotData: one date, one case average and one death
      average per history entry, in history order. Each average is the sum of
      its seven-slot window divided by seven, the window holding the
      day-over-day differences of the cumulative counts, the first of which
      is the first cumulative count itself (`last` starts at 0). */
  method PlotData(history: seq<DayRecord>) returns (days: seq<int>, yData: seq<real>, y2Data: seq<real>)
    ensures |days| == |history| && forall k :: 0 <= k < |history| ==> days[k] == history[k].date
    ensures yData == Averages(Deltas(Confirmed(history)), |history|)
    ensures y2Data == Averages(Deltas(Deaths(history)), |history|)
  {
    days, yData, y2Data := [], [], [];
    var index := 0;
    var movingWindow := NewWindow();
    var movingWindow2 := NewWindow();
    var last, last2 := 0, 0;
    for n := 0 to |history|
      invariant PlotDataState(history, n, days, yData, y2Data, index, last, last2, movingWindow, movingWindow2)
    {
      days, yData, y2Data, index, last, last2 :=
        PlotDay(history, n, days, yData, y2Data, index, last, last2, movingWindow, movingWindow2);
    }
  }

  /** plotData's state after the first n history entries: one date and one
      average per entry so far, the window index and the slots after n
      writes, and the last cumulative counts seen. */
  ghost predicate PlotDataState(history: seq<DayRecord>, n: nat, days: seq<int>, yData: seq<real>, y2Data: seq<real>,
                                index: nat, last: int, last2: int, movingWindow: array<int>, movingWindow2: array<int>)
    reads movingWindow, movingWindow2
  {
    && n <= |history| && movingWindow != movingWindow2
    && |days| == n && (forall k {:trigger days[k]} :: 0 <= k < n ==> days[k] == history[k].date)
    && index == Index(n)
    && last == (if n == 0 then 0 else history[n - 1].confirmed)
    && last2 == (if n == 0 then 0 else history[n - 1].deaths)
    && movingWindow[..] == Slots(Deltas(Confirmed(history)), n)
    && movingWindow2[..] == Slots(Deltas(Deaths(history)), n)
    && yData == Averages(Deltas(Confirmed(history)), n)
    && y2Data == Averages(Deltas(Deaths(history)), n)
  }

  /** One pass of plotData's loop: the date is appended, `confirmed - last`
      and `deaths - last2` overwrite the slots at index, both windows are
      averaged, `last`/`last2` take the cumulative counts and the index
      advances. */
  method PlotDay(history: seq<DayRecord>, n: nat, days: seq<int>, yData: seq<real>, y2Data: seq<real>,
                 index: nat, last: int, last2: int, movingWindow: array<int>, movingWindow2: array<int>)
    returns (days': seq<int>, yData': seq<real>, y2Data': seq<real>, index': nat, last': int, last2': int)
    requires n < |history|
    requires PlotDataState(history, n, days, yData, y2Data, index, last, last2, movingWindow, movingWindow2)
    modifies movingWindow, movingWindow2
    ensures PlotDataState(history, n + 1, days', yData', y2Data', index', last', last2', movingWindow, movingWindow2)
  {
    var data := history[n];
    days' := days + [data.date];
    var average := WriteSlot(movingWindow, index, data.confirmed - last, Deltas(Confirmed(history)), n);
    var average2 := WriteSlot(movingWindow2, index, data.deaths - last2, Deltas(Deaths(history)), n);
    last', last2' := data.confirmed, data.deaths;
    yData', y2Data' := yData + [average], y2Data + [average2];
    index' := NextIndex(index);
  }

  /** The loop condition of getSummary, negated: both change fields are
      reported and they are not both zero. */
  predicate Informative(d: DayRecord) {
    d.changeConfirmed.Some? && d.changeDeaths.Some?
    && !(d.changeConfirmed.value == 0 && d.changeDeaths.value == 0)
  }

  /** int(confirmed / (population / 1e6)), in exact arithmetic: the cases
      per million inhabitants, truncated toward zero. */
  function CasesPerMillion(confirmed: int, population: int): (r: int)
    requires population != 0
    ensures population > 0 && confirmed >= 0 ==> r * population <= confirmed * 1000000 < (r + 1) * population
  {
    TruncDiv(confirmed * 1000000, population)
  }

  /** getSummary: walks back from the newest record to the latest informative
      one and reports its Today (difference to the record before it) and
      Total rows; "- Cases/mil" follows the Total cases row when a population
      is known. The empty history and an informative first record (whose
      predecessor does not exist) raise IndexError; a history without an
      informative record gives the NO_VALID_DATA message. */
  method GetSummary(history: seq<DayRecord>, title: string, population: Option<int>) returns (r: SummaryResult)
    ensures |history| == 0 ==> r == Raised(IndexError)
    ensures |history| > 0 && LastWhere(history, Informative).None? ==> r == Message(NO_VALID_DATA)
    ensures LastWhere(history, Informative) == Some(0) ==> r == Raised(IndexError)
    ensures r.Report? ==>
      var p := LastWhere(history, Informative).value;
      var cur, prev := history[p], history[p - 1];
      && p > 0 && r.title == title && r.date == cur.date
      && population != Some(0)
      && r.table == [("Today", Blank),
                     ("- Cases", Count(cur.confirmed - prev.confirmed)),
                     ("- Deaths", Count(cur.deaths - prev.deaths)),
                     ("Total", Blank),
                     ("- Cases", Count(cur.confirmed))]
                    + (if population.Some?
                       then [("- Cases/mil", Count(CasesPerMillion(cur.confirmed, population.value)))]
                       else [])
                    + [("- Deaths", Count(cur.deaths))]
    ensures r.Raised? && r.error == ZeroDivisionError <==>
      LastWhere(history, Informative).Some? && LastWhere(history, Informative).value > 0
      && population.Some? && population.value == 0
    ensures (LastWhere(history, Informative).Some? && LastWhere(history, Informative).value > 0
             && population != Some(0)) ==> r.Report?
  {
    if |history| == 0 {
      return Raised(IndexError);
    }
    var current := |history| - 1;
    while !Informative(history[current])
      invariant 0 <= current < |history|
      invariant forall q :: current < q < |history| ==> !Informative(history[q])
      decreases current
    {
      if current == 0 {
        return Message(NO_VALID_DATA);
      }
      current := current - 1;
    }
    assert LastWhere(history, Informative) == Some(current);
    if current == 0 {
      return Raised(IndexError);
    }
    var currentData, secondLastData := history[current], history[current - 1];
    var table: seq<Row> := [("Today", Blank)];
    table := table + [("- Cases", Count(currentData.confirmed - secondLastData.confirmed))];
    table := table + [("- Deaths", Count(currentData.deaths - secondLastData.deaths))];
    table := table + [("Total", Blank)];
    table := table + [("- Cases", Count(currentData.confirmed))];
    if population.Some? {
      if population.value == 0 {
        return Raised(ZeroDivisionError);
      }
      // Python computes this with an inexact float reciprocal (population / 1e6)
      var casesPerMil := CasesPerMillion(currentData.confirmed, population.value);
      table := table + [("- Cases/mil", Count(casesPerMil))];
    }
    table := table + [("- Deaths", Count(currentData.deaths))];
    r := Report(title, currentData.date, table);
  }
}
