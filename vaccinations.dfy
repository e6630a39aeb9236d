/** vaccinations.py: the per-day loop of plotVaccinationsForURL (three
    7-day windows over the change fields and two percentage series over the
    totals), the province lookup of plotVaccinations, and the rows that
    tableAddSection and getSummaryData put into the summary table. Dates are
    integers yyyymmdd, so "after 2020-12-15" is "greater than 20201215". */
module Vaccinations {
  import opened Common
  import opened Text
  import opened Window

  /** One element of the report's "data" list; every count may be null. */
  datatype VaxRecord = VaxRecord(
    date: int,
    changeVaccinations: Option<int>,
    changeVaccinated: Option<int>,
    changeBoosters: Option<int>,
    totalVaccinations: Option<int>,
    totalVaccinated: Option<int>,
    totalBoosters: Option<int>)

  /** The series plotVaccinationsForURL builds before handing them to the
      chart: dates, the 1-shot and 2-shot percentages, and the three 7-day
      averages (new_boosters_1 is computed although the chart omits it). */
  datatype VaxSeries = VaxSeries(
    dates: seq<int>,
    oneShot: seq<real>,
    twoShot: seq<real>,
    newVaccinations: seq<real>,
    newVaccinated: seq<real>,
    newBoosters: seq<real>)

  /** pd.Timestamp(2020, 12, 15) */
  const VAX_START: int := 20201215

  /** Records dated on or before the start of the campaign are skipped. */
  predicate Plotted(d: VaxRecord) {
    d.date > VAX_START
  }

  /** The records among the first n whose date passes the cutoff, in order. */
  function Kept(data: seq<VaxRecord>, n: nat): (k: seq<VaxRecord>)
    requires n <= |data|
    ensures |k| <= n
  {
    if n == 0 then []
    else Kept(data, n - 1) + (if Plotted(data[n - 1]) then [data[n - 1]] else [])
  }

  /** Kept is the filter of the first n records by the cutoff: a record is
      kept exactly when it is one of them and dated after the cutoff. */
  lemma {:induction false} KeptIsFilter(data: seq<VaxRecord>, n: nat)
    requires n <= |data|
    ensures forall d :: d in Kept(data, n) <==> Plotted(d) && exists i :: 0 <= i < n && data[i] == d
  {
    if n > 0 {
      KeptIsFilter(data, n - 1);
      forall d | Plotted(d) && (exists i :: 0 <= i < n && data[i] == d)
        ensures d in Kept(data, n)
      {
        var i :| 0 <= i < n && data[i] == d;
        if i < n - 1 {
          assert d in Kept(data, n - 1);
        }
      }
    }
  }

  /** Processing more records only appends to the kept ones. */
  lemma {:induction false} KeptPrefix(data: seq<VaxRecord>, m: nat, n: nat)
    requires m <= n <= |data|
    ensures |Kept(data, m)| <= |Kept(data, n)|
    ensures forall i :: 0 <= i < |Kept(data, m)| ==> Kept(data, n)[i] == Kept(data, m)[i]
    decreases n - m
  {
    if m < n {
      KeptPrefix(data, m, n - 1);
    }
  }

  /** The record at position n, when kept, is the next kept record. */
  lemma KeptAt(data: seq<VaxRecord>, n: nat)
    requires n < |data| && Plotted(data[n])
    ensures |Kept(data, n)| < |Kept(data, |data|)|
    ensures Kept(data, |data|)[|Kept(data, n)|] == data[n]
  {
    KeptPrefix(data, n + 1, |data|);
    assert Kept(data, n + 1)[|Kept(data, n)|] == data[n];
  }

  /** `total * 100.0 / population`, or 0 for a null total. */
  function TotalPercent(total: Option<int>, population: int): real
    requires total.Some? ==> population != 0
  {
    if total.None? then 0.0 else total.value as real * 100.0 / population as real
  }

  /** What stops the loop at a kept record: dividing a total by a zero
      population, or summing the window that received a null
      change_vaccinations. */
  function DayError(d: VaxRecord, population: int): Option<PyError> {
    if population == 0 && (d.totalVaccinations.Some? || d.totalVaccinated.Some? || d.totalBoosters.Some?)
    then Some(ZeroDivisionError)
    else if d.changeVaccinations.None? then Some(TypeError)
    else None
  }

  /** Only ZeroDivisionError and TypeError stop the loop, and a null
      change_vaccinated or change_boosters_1 never does: those two are read
      as 0. */
  lemma NullSecondaryChangesNeverStop(d: VaxRecord, population: int)
    ensures DayError(d.(changeVaccinated := None, changeBoosters := None), population) == DayError(d, population)
    ensures DayError(d, population).Some? ==>
      DayError(d, population).value == ZeroDivisionError || DayError(d, population).value == TypeError
  {
  }

  /** No kept record among the first k fails. */
  predicate AllPass(kept: seq<VaxRecord>, population: int, k: nat)
    requires k <= |kept|
  {
    k == 0 || (AllPass(kept, population, k - 1) && DayError(kept[k - 1], population).None?)
  }

  lemma {:induction false} AllPassMeans(kept: seq<VaxRecord>, population: int, k: nat)
    requires k <= |kept|
    ensures AllPass(kept, population, k) <==> forall i :: 0 <= i < k ==> DayError(kept[i], population).None?
  {
    if k > 0 {
      AllPassMeans(kept, population, k - 1);
    }
  }

  /** The position of the first kept record the loop fails on. */
  function FirstFailing(kept: seq<VaxRecord>, population: int, k: nat): (f: Option<nat>)
    requires k <= |kept|
    ensures f.Some? ==> f.value < k && AllPass(kept, population, f.value) && DayError(kept[f.value], population).Some?
    ensures f.None? <==> AllPass(kept, population, k)
  {
    if k == 0 then None
    else match FirstFailing(kept, population, k - 1)
      case Some(f) => Some(f)
      case None => if DayError(kept[k - 1], population).Some? then Some(k - 1) else None
  }

  /** A failing record after a passing prefix is the first failing one. */
  lemma {:induction false} FailsAt(kept: seq<VaxRecord>, population: int, f: nat, k: nat)
    requires f < k <= |kept| && AllPass(kept, population, f) && DayError(kept[f], population).Some?
    ensures FirstFailing(kept, population, k) == Some(f)
  {
    if k > f + 1 {
      FailsAt(kept, population, f, k - 1);
    }
  }

  /** The 1-shot percentage of a day: total% minus fully% minus booster%. */
  function OneShotPercent(d: VaxRecord, population: int): real
    requires DayError(d, population).None?
  {
    TotalPercent(d.totalVaccinations, population) - TotalPercent(d.totalVaccinated, population)
      - TotalPercent(d.totalBoosters, population)
  }

  /** The values written into the three windows, one per kept record:
      change_vaccinations, and change_vaccinated and change_boosters_1 with
      null written as 0. */
  function VaccinationChanges(kept: seq<VaxRecord>): seq<int> {
    seq(|kept|, i requires 0 <= i < |kept| => kept[i].changeVaccinations.GetOr(0))
  }

  function VaccinatedChanges(kept: seq<VaxRecord>): seq<int> {
    seq(|kept|, i requires 0 <= i < |kept| => kept[i].changeVaccinated.GetOr(0))
  }

  function BoosterChanges(kept: seq<VaxRecord>): seq<int> {
    seq(|kept|, i requires 0 <= i < |kept| => kept[i].changeBoosters.GetOr(0))
  }

  /** The three percentages of one kept day, computed in the order
      total_vaccinations, total_vaccinated, total_boosters_1; a null total
      counts as 0 and a non-null one divided by a zero population raises. */
  method DayTotals(d: VaxRecord, population: int) returns (r: Result<(real, real, real)>)
    ensures r.Err? <==> population == 0 && (d.totalVaccinations.Some? || d.totalVaccinated.Some? || d.totalBoosters.Some?)
    ensures r.Err? ==> r.error == ZeroDivisionError
    ensures r.Ok? ==> r.value == (TotalPercent(d.totalVaccinations, population), TotalPercent(d.totalVaccinated, population),
                                  TotalPercent(d.totalBoosters, population))
  {
    var totalVax := 0.0;
    if d.totalVaccinations.Some? {
      if population == 0 {
        return Err(ZeroDivisionError);
      }
      totalVax := d.totalVaccinations.value as real * 100.0 / population as real;
    }
    var totalFullVax := 0.0;
    if d.totalVaccinated.Some? {
      if population == 0 {
        return Err(ZeroDivisionError);
      }
      totalFullVax := d.totalVaccinated.value as real * 100.0 / population as real;
    }
    var totalBoosters := 0.0;
    if d.totalBoosters.Some? {
      if population == 0 {
        return Err(ZeroDivisionError);
      }
      totalBoosters := d.totalBoosters.value as real * 100.0 / population as real;
    }
    r := Ok((totalVax, totalFullVax, totalBoosters));
  }

  /** The series after the first k kept records, each contributing its
      date, its 1-shot and 2-shot percentages and the three averages of the
      windows once its changes are written. */
  function Series(kept: seq<VaxRecord>, population: int, k: nat): (s: VaxSeries)
    requires k <= |kept| && AllPass(kept, population, k)
  {
    if k == 0 then VaxSeries([], [], [], [], [], [])
    else
      var s, d := Series(kept, population, k - 1), kept[k - 1];
      VaxSeries(s.dates + [d.date],
                s.oneShot + [OneShotPercent(d, population)],
                s.twoShot + [TotalPercent(d.totalVaccinated, population)],
                s.newVaccinations + [Average(VaccinationChanges(kept), k)],
                s.newVaccinated + [Average(VaccinatedChanges(kept), k)],
                s.newBoosters + [Average(BoosterChanges(kept), k)])
  }

  /** One more kept record appends one entry to every series. */
  lemma SeriesStep(kept: seq<VaxRecord>, population: int, k: nat)
    requires k < |kept| && AllPass(kept, population, k) && DayError(kept[k], population).None?
    ensures AllPass(kept, population, k + 1)
    ensures var s, s', d := Series(kept, population, k), Series(kept, population, k + 1), kept[k];
      && s'.dates == s.dates + [d.date]
      && s'.oneShot == s.oneShot + [OneShotPercent(d, population)]
      && s'.twoShot == s.twoShot + [TotalPercent(d.totalVaccinated, population)]
      && s'.newVaccinations == s.newVaccinations + [Average(VaccinationChanges(kept), k + 1)]
      && s'.newVaccinated == s.newVaccinated + [Average(VaccinatedChanges(kept), k + 1)]
      && s'.newBoosters == s.newBoosters + [Average(BoosterChanges(kept), k + 1)]
  {
  }

  /** What the series hold: one entry per kept record, in order; each
      average series is the trailing 7-day averages of its changes. */
  lemma {:induction false} SeriesMeaning(kept: seq<VaxRecord>, population: int, k: nat)
    requires k <= |kept| && AllPass(kept, population, k)
    ensures var s := Series(kept, population, k);
      && |s.dates| == k && |s.oneShot| == k && |s.twoShot| == k
      && (forall i :: 0 <= i < k ==> s.dates[i] == kept[i].date)
      && (forall i :: 0 <= i < k ==> DayError(kept[i], population).None?)
      && (forall i :: 0 <= i < k ==> s.twoShot[i] == TotalPercent(kept[i].totalVaccinated, population))
      && (forall i :: 0 <= i < k ==> s.oneShot[i] == OneShotPercent(kept[i], population))
      && s.newVaccinations == Averages(VaccinationChanges(kept), k)
      && s.newVaccinated == Averages(VaccinatedChanges(kept), k)
      && s.newBoosters == Averages(BoosterChanges(kept), k)
  {
    if k > 0 {
      SeriesMeaning(kept, population, k - 1);
    }
  }

  /** The state of plotVaccinationsForURL after the first k kept records:
      the series hold their entries, the three windows their changes, and
      index is the slot the next change goes to. */
  ghost predicate PlotState(kept: seq<VaxRecord>, population: int, k: nat, series: VaxSeries, index: nat,
                            movingWindow: array<int>, movingWindow2: array<int>, movingWindow3: array<int>)
    reads movingWindow, movingWindow2, movingWindow3
  {
    && movingWindow != movingWindow2 && movingWindow != movingWindow3 && movingWindow2 != movingWindow3
    && k <= |kept| && AllPass(kept, population, k) && series == Series(kept, population, k)
    && index == Index(k)
    && movingWindow[..] == Slots(VaccinationChanges(kept), k)
    && movingWindow2[..] == Slots(VaccinatedChanges(kept), k)
    && movingWindow3[..] == Slots(BoosterChanges(kept), k)
  }

  /** The body of the data loop for a kept record, the k-th: the date and
      both percentages are appended, the three slots at index are written,
      the three averages appended and the index advanced, unless a total
      divided by a zero population or the null change_vaccinations reaching
      sum() raises. */
  method KeptDay(movingWindow: array<int>, movingWindow2: array<int>, movingWindow3: array<int>,
                 index: nat, d: VaxRecord, population: int, series: VaxSeries,
                 ghost kept: seq<VaxRecord>, ghost k: nat)
    returns (r: Result<VaxSeries>, next: nat)
    requires k < |kept| && d == kept[k]
    requires PlotState(kept, population, k, series, index, movingWindow, movingWindow2, movingWindow3)
    modifies movingWindow, movingWindow2, movingWindow3
    ensures r.Err? <==> DayError(d, population).Some?
    ensures r.Err? ==> r.error == DayError(d, population).value
    ensures r.Ok? ==> PlotState(kept, population, k + 1, r.value, next, movingWindow, movingWindow2, movingWindow3)
  {
    next := index;
    var dates := series.dates + [d.date];
    var totals := DayTotals(d, population);
    if totals.Err? {
      return Err(totals.error), next;
    }
    var (totalVax, totalFullVax, totalBoosters) := totals.value;
    var twoShot := series.twoShot + [totalFullVax];
    var oneShot := series.oneShot + [totalVax - totalFullVax - totalBoosters];
    // The null is stored in the first window and sum() then raises.
    if d.changeVaccinations.None? {
      return Err(TypeError), next;
    }
    var x2 := if d.changeVaccinated.Some? then d.changeVaccinated.value else 0;
    var x3 := if d.changeBoosters.None? then 0 else d.changeBoosters.value;
    var a1 := WriteSlot(movingWindow, index, d.changeVaccinations.value, VaccinationChanges(kept), k);
    var a2 := WriteSlot(movingWindow2, index, x2, VaccinatedChanges(kept), k);
    var a3 := WriteSlot(movingWindow3, index, x3, BoosterChanges(kept), k);
    SeriesStep(kept, population, k);
    r := Ok(VaxSeries(dates, oneShot, twoShot, series.newVaccinations + [a1],
                      series.newVaccinated + [a2], series.newBoosters + [a3]));
    next := NextIndex(index);
  }

  /** The data loop of plotVaccinationsForURL, over the records of the
      report. A missing population raises ValueError before any record is
      looked at. Otherwise the kept records are processed in order, and the
      first that divides a total by a zero population or writes a null
      change_vaccinations into the first window raises; without such a
      record the result is the Series of all kept records. */
  method PlotVaccinationsForUrl(data: seq<VaxRecord>, population: Option<int>) returns (r: Result<VaxSeries>)
    ensures population.None? ==> r == Err(ValueError)
    ensures population.Some? ==>
      var kept, pop := Kept(data, |data|), population.value;
      match FirstFailing(kept, pop, |kept|)
      case Some(f) => r == Err(DayError(kept[f], pop).value)
      case None => r == Ok(Series(kept, pop, |kept|))
  {
    if population.None? {
      return Err(ValueError);
    }
    var pop := population.value;
    ghost var kept := Kept(data, |data|);
    ghost var k := 0;
    var series := VaxSeries([], [], [], [], [], []);
    var movingWindow := NewWindow();
    var movingWindow2 := NewWindow();
    var movingWindow3 := NewWindow();
    var index := 0;
    for n := 0 to |data|
      invariant k == |Kept(data, n)|
      invariant PlotState(kept, pop, k, series, index, movingWindow, movingWindow2, movingWindow3)
    {
      var d := data[n];
      if d.date > VAX_START {
        KeptAt(data, n);
        var step;
        step, index := KeptDay(movingWindow, movingWindow2, movingWindow3, index, d, pop, series, kept, k);
        if step.Err? {
          FailsAt(kept, pop, k, |kept|);
          return Err(step.error);
        }
        series := step.value;
        k := k + 1;
      }
    }
    r := Ok(series);
  }

  /** urlSuffix: province names and abbreviations to the two-letter code
      of the API's per-province report. */
  const URL_SUFFIX: map<string, string> := map[
    "Alberta" := "AB", "British Columbia" := "BC", "Manitoba" := "MB",
    "New Brunswick" := "NB", "Newfoundland and Labrador" := "NL",
    "Northwest Territories" := "NT", "Nova Scotia" := "NS", "Nunavut" := "NU",
    "Ontario" := "ON", "Prince Edward Island" := "PE", "Quebec" := "QC",
    "Saskatchewan" := "SK", "Yukon" := "YT",
    "AB" := "AB", "BC" := "BC", "MB" := "MB", "NB" := "NB", "NL" := "NL",
    "NT" := "NT", "NS" := "NS", "NU" := "NU", "ON" := "ON", "PE" := "PE",
    "PEI" := "PE", "QC" := "QC", "SK" := "SK", "YT" := "YT"]

  /** populationData: the population of each province, by code. */
  const POPULATION_DATA: map<string, int> := map[
    "AB" := 4428112, "BC" := 5145851, "MB" := 1379584, "NB" := 781315,
    "NL" := 520998, "NS" := 979115, "NT" := 45074, "NU" := 39285,
    "ON" := 14733119, "PE" := 159713, "QC" := 8575779, "SK" := 1177884,
    "YT" := 42176]

  /** The keys of URL_SUFFIX that are codes or the PEI abbreviation. */
  const ABBREVIATIONS: seq<string> :=
    ["AB", "BC", "MB", "NB", "NL", "NT", "NS", "NU", "ON", "PE", "PEI", "QC", "SK", "YT"]

  const URL_PROVINCE: string := "https://api.covid19tracker.ca/reports/province/"

  /** canadaPopulation = sum(populationData.values()) */
  function CanadaPopulation(): (p: int)
    ensures p == 38008005
  {
    POPULATION_DATA["AB"] + POPULATION_DATA["BC"] + POPULATION_DATA["MB"] + POPULATION_DATA["NB"]
    + POPULATION_DATA["NL"] + POPULATION_DATA["NS"] + POPULATION_DATA["NT"] + POPULATION_DATA["NU"]
    + POPULATION_DATA["ON"] + POPULATION_DATA["PE"] + POPULATION_DATA["QC"] + POPULATION_DATA["SK"]
    + POPULATION_DATA["YT"]
  }

  /** Every code urlSuffix produces has a population, and it is positive, so
      `populationData[urlSuffix[province]]` never raises KeyError and the
      percentages never divide by zero. */
  lemma SuffixesHavePopulation()
    ensures forall name :: name in URL_SUFFIX ==> URL_SUFFIX[name] in POPULATION_DATA
    ensures forall code :: code in POPULATION_DATA ==> POPULATION_DATA[code] > 0
    ensures forall name :: name in URL_SUFFIX ==> |URL_SUFFIX[name]| == 2
  {
  }

  /** The one full name whose key title() does not reproduce. */
  const NEWFOUNDLAND: string := "Newfoundland and Labrador"

  /** The keys of URL_SUFFIX that title() reproduces: the full names other
      than NEWFOUNDLAND. */
  const FULL_NAMES: set<string> := {
    "Alberta", "British Columbia", "Manitoba", "New Brunswick",
    "Northwest Territories", "Nova Scotia", "Nunavut", "Ontario",
    "Prince Edward Island", "Quebec", "Saskatchewan", "Yukon"}

  /** A key that title() would change is never the result of title(), so no
      input reaches it. */
  lemma {:induction false} UnreachableKey(key: string)
    requires TitleCase(key) != key
    ensures forall province :: TitleCase(province) != key
  {
    forall province
      ensures TitleCase(province) != key
    {
      TitleCaseIdempotent(province);
    }
  }

  /** As written, none of the abbreviations (PEI included) can be looked
      up: title() turns "ON" into "On" and "PEI" into "Pei". */
  lemma AbbreviationsUnreachable(a: string)
    requires a in ABBREVIATIONS
    ensures forall province :: TitleCase(province) != a
  {
    assert TitleCase(a)[1] != a[1];
    UnreachableKey(a);
  }

  /** Nor can the full name "Newfoundland and Labrador": title() capitalises
      its "and". */
  lemma NewfoundlandUnreachable()
    ensures forall province :: TitleCase(province) != NEWFOUNDLAND
  {
    assert TitleCase(NEWFOUNDLAND)[13] != NEWFOUNDLAND[13];
    UnreachableKey(NEWFOUNDLAND);
  }

  /** The keys title() can reach are the full names other than NEWFOUNDLAND. */
  lemma ReachableKeys(province: string)
    ensures TitleCase(province) !in URL_SUFFIX.Keys - FULL_NAMES
  {
    NewfoundlandUnreachable();
    forall a | a in ABBREVIATIONS
      ensures TitleCase(province) != a
    {
      AbbreviationsUnreachable(a);
    }
    assert URL_SUFFIX.Keys == FULL_NAMES + {NEWFOUNDLAND} + set a | a in ABBREVIATIONS;
  }

  /** The lookup as written: `province.title()` must be a key of urlSuffix,
      so a code is found exactly for the twelve full names that title()
      reproduces, and never for an abbreviation or for Newfoundland. */
  function ProvinceCode(province: string): (code: Option<string>)
    ensures code.Some? <==> TitleCase(province) in FULL_NAMES
    ensures code.Some? ==> code.value == URL_SUFFIX[TitleCase(province)]
    ensures code.Some? ==> code.value in POPULATION_DATA
  {
    ReachableKeys(province);
    SuffixesHavePopulation();
    var name := TitleCase(province);
    if name in URL_SUFFIX then Some(URL_SUFFIX[name]) else None
  }

  /** The lookup as evidently intended: a name the lookup as written finds
      gives the same code, "Newfoundland and Labrador" is recognised after
      title() as well, and otherwise the upper-cased input is tried, so that
      abbreviations are accepted in any case. */
  function ProvinceCodeIntended(province: string): (code: Option<string>)
    ensures ProvinceCode(province).Some? ==> code == ProvinceCode(province)
    ensures code.Some? ==> code.value in POPULATION_DATA
  {
    SuffixesHavePopulation();
    match ProvinceCode(province)
    case Some(code) => Some(code)
    case None =>
      if TitleCase(province) == TitleCase(NEWFOUNDLAND) then Some(URL_SUFFIX[NEWFOUNDLAND])
      else if Upper(province) in URL_SUFFIX then Some(URL_SUFFIX[Upper(province)])
      else None
  }

  /** "Newfoundland and Labrador", in any capitalisation, gives its code. */
  lemma NewfoundlandAccepted(province: string)
    requires TitleCase(province) == TitleCase(NEWFOUNDLAND)
    ensures ProvinceCodeIntended(province) == Some("NL")
  {
    assert TitleCase(province) !in FULL_NAMES by {
      assert |TitleCase(province)| == 25;
    }
  }

  /** Every abbreviation, written in any case, is found and gives its code. */
  lemma AbbreviationsAccepted(province: string)
    requires Upper(province) in ABBREVIATIONS
    ensures ProvinceCodeIntended(province) == Some(URL_SUFFIX[Upper(province)])
  {
    assert |TitleCase(province)| <= 3;
    assert TitleCase(province) !in FULL_NAMES;
    assert TitleCase(province) != TitleCase(NEWFOUNDLAND);
  }

  /** The report a province name leads to: its url, the title it is
      presented under and the population its percentages divide by. */
  datatype Request = Request(url: string, title: string, population: int)

  /** plotVaccinations: None for an unknown name (the function then returns
      False), otherwise the arguments it passes to plotVaccinationsForURL
      before returning True. The lookup is ProvinceCodeIntended. */
  function PlotVaccinations(province: string): (r: Option<Request>)
    ensures r.None? <==> ProvinceCodeIntended(province).None?
    ensures r.Some? ==> var code := ProvinceCodeIntended(province).value;
      && r.value.url == URL_PROVINCE + code
      && r.value.title == "Vaccinations for " + TitleCase(province)
      && r.value.population == POPULATION_DATA[code] > 0
  {
    SuffixesHavePopulation();
    match ProvinceCodeIntended(province)
    case None => None
    case Some(code) => Some(Request(URL_PROVINCE + code, "Vaccinations for " + TitleCase(province), POPULATION_DATA[code]))
  }

  /** getSummary(province): None for an unknown name (the function then
      returns the empty string), otherwise the arguments it passes to
      getSummaryData. */
  function SummaryFor(province: string): (r: Option<Request>)
    ensures r.None? <==> ProvinceCodeIntended(province).None?
    ensures r.Some? ==> var code := ProvinceCodeIntended(province).value;
      && r.value.url == URL_PROVINCE + code
      && r.value.title == TitleCase(province) + " Vaccinations"
      && r.value.population == POPULATION_DATA[code] > 0
  {
    SuffixesHavePopulation();
    match ProvinceCodeIntended(province)
    case None => None
    case Some(code) => Some(Request(URL_PROVINCE + code, TitleCase(province) + " Vaccinations", POPULATION_DATA[code]))
  }

  /** min(100, 100.0 * value / population) */
  function VaxPercent(value: int, population: int): (p: real)
    requires population != 0
    ensures p <= 100.0
    ensures p == 100.0 || p == 100.0 * value as real / population as real
    ensures p <= 100.0 * value as real / population as real
    ensures population > 0 && value <= population ==> p == value as real * 100.0 / population as real
  {
    var x := 100.0 * value as real / population as real;
    if 100.0 <= x then 100.0 else x
  }

  /** The rows tableAddSection adds for the entries of summary, in order:
      `format(value, ",d")` raises TypeError on a null value, and a "- Total"
      row is followed by its capped "- Vax %" row, whose division raises
      ZeroDivisionError on a zero population. */
  function SectionRows(summary: seq<(string, Option<int>)>, population: int): (r: Result<seq<Row>>)
    ensures r.Err? ==> r.error == TypeError || r.error == ZeroDivisionError
    ensures r.Ok? ==> |summary| <= |r.value| <= 2 * |summary|
  {
    if summary == [] then Ok([])
    else
      var (key, value) := summary[0];
      if value.None? then Err(TypeError)
      else if key == "- Total" && population == 0 then Err(ZeroDivisionError)
      else
        var rows := [(key, Count(value.value))]
          + (if key == "- Total" then [("- Vax %", Percent(VaxPercent(value.value, population)))] else []);
        match SectionRows(summary[1..], population)
        case Err(e) => Err(e)
        case Ok(rest) => Ok(rows + rest)
  }

  /** The number of "- Total" entries of a summary. */
  function TotalKeys(summary: seq<(string, Option<int>)>): nat {
    if summary == [] then 0 else (if summary[0].0 == "- Total" then 1 else 0) + TotalKeys(summary[1..])
  }

  /** When no entry raises: one row per entry plus one "- Vax %" row per
      "- Total" entry, each Vax % row right after its Total row, holding
      that Total's percentage of the population capped at 100. */
  lemma {:induction false} SectionRowsShape(summary: seq<(string, Option<int>)>, population: int)
    requires SectionRows(summary, population).Ok?
    ensures var rows := SectionRows(summary, population).value;
      && |rows| == |summary| + TotalKeys(summary)
      && (forall i :: 0 <= i < |rows| && rows[i].0 == "- Total" && rows[i].1.Count? ==>
            i + 1 < |rows| && rows[i + 1].0 == "- Vax %")
      && (forall i :: population != 0 && 0 <= i < |rows| && rows[i].0 == "- Total" && rows[i].1.Count? ==>
            i + 1 < |rows| && rows[i + 1] == ("- Vax %", Percent(VaxPercent(rows[i].1.n, population))))
      && (forall i :: 0 <= i < |rows| && rows[i].0 == "- Vax %" && rows[i].1.Percent? ==> rows[i].1.x <= 100.0)
  {
    if summary != [] {
      SectionRowsShape(summary[1..], population);
    }
  }

  /** The errors of a section: a null value raises TypeError, a "- Total"
      with a zero population ZeroDivisionError, whichever entry comes first. */
  lemma {:induction false} SectionRowsErrors(summary: seq<(string, Option<int>)>, population: int)
    ensures SectionRows(summary, population).Ok? <==>
      (forall i :: 0 <= i < |summary| ==> summary[i].1.Some?)
      && (population == 0 ==> forall i :: 0 <= i < |summary| ==> summary[i].0 != "- Total")
  {
    if summary != [] {
      SectionRowsErrors(summary[1..], population);
      assert forall i :: 1 <= i < |summary| ==> summary[i] == summary[1..][i - 1];
    }
  }

  /** tableAddSection: the section header, then the rows of the summary
      entries, appended to the table's rows. */
  method TableAddSection(title: string, summary: seq<(string, Option<int>)>, table: seq<Row>, population: int)
    returns (r: Result<seq<Row>>)
    ensures match SectionRows(summary, population)
      case Err(e) => r == Err(e)
      case Ok(rows) => r == Ok(table + [(title, Blank)] + rows)
  {
    var rows := table + [(title, Blank)];
    for i := 0 to |summary|
      invariant match SectionRows(summary, population)
        case Err(e) => SectionRows(summary[i..], population) == Err(e)
        case Ok(all) => SectionRows(summary[i..], population).Ok? && rows + SectionRows(summary[i..], population).value == table + [(title, Blank)] + all
    {
      var (key, value) := summary[i];
      assert summary[i..][0] == summary[i] && summary[i..][1..] == summary[i + 1..];
      if value.None? {
        assert SectionRows(summary[i..], population) == Err(TypeError);
        return Err(TypeError);
      }
      rows := rows + [(key, Count(value.value))];
      if key == "- Total" {
        if population == 0 {
          assert SectionRows(summary[i..], population) == Err(ZeroDivisionError);
          return Err(ZeroDivisionError);
        }
        rows := rows + [("- Vax %", Percent(VaxPercent(value.value, population)))];
      }
    }
    assert summary[|summary|..] == [];
    assert SectionRows(summary, population).Ok?;
    assert rows == table + [(title, Blank)] + SectionRows(summary, population).value;
    r := Ok(rows);
  }

  /** What getSummaryData reports: its title, the date of the newest record
      and the rows of its table. */
  datatype VaxSummary = VaxSummary(title: string, date: int, table: seq<Row>)

  /** The rows of one section whose Today and Total values are known: its
      title row followed by what SectionRows makes of the two entries. */
  function SectionOf(title: string, today: int, total: int, population: int): (rows: seq<Row>)
    requires population != 0
    ensures |rows| == 4 && rows[0] == (title, Blank)
    ensures SectionRows([("- Today", Some(today)), ("- Total", Some(total))], population) == Ok(rows[1..])
  {
    var summary := [("- Today", Some(today)), ("- Total", Some(total))];
    assert "- Today" != "- Total" by { assert "- Today"[4] != "- Total"[4]; }
    assert summary[1..][1..] == [] && summary[1..][0] == ("- Total", Some(total));
    assert SectionRows(summary[1..][1..], population) == Ok([]);
    var totalRows := [("- Total", Count(total)), ("- Vax %", Percent(VaxPercent(total, population)))];
    var t := summary[1..];
    assert t[0].0 == "- Total" && t[0].1 == Some(total);
    assert [("- Total", Count(total))] + [("- Vax %", Percent(VaxPercent(total, population)))] + [] == totalRows;
    assert SectionRows(summary[1..], population) == Ok(totalRows);
    assert summary[0].0 == "- Today" && summary[0].1 == Some(today);
    var rows := [(title, Blank), ("- Today", Count(today))] + totalRows;
    assert rows[1..] == [("- Today", Count(today))] + [] + totalRows;
    assert SectionRows(summary, population) == Ok(rows[1..]);
    rows
  }

  /** getSummaryData, on the records of the report: the newest record's
      change and total fields, the 1-shot values being the differences that
      leave out the fully vaccinated and the boosted. The empty report
      raises IndexError, a null among the six fields TypeError (the
      subtractions come first), and a zero population ZeroDivisionError. */
  method GetSummaryData(data: seq<VaxRecord>, title: string, population: int) returns (r: Result<VaxSummary>)
    ensures data == [] ==> r == Err(IndexError)
    ensures data != [] ==> var d := data[|data| - 1];
      if d.changeVaccinations.None? || d.changeVaccinated.None? || d.changeBoosters.None?
         || d.totalVaccinations.None? || d.totalVaccinated.None? || d.totalBoosters.None?
      then r == Err(TypeError)
      else if population == 0 then r == Err(ZeroDivisionError)
      else r == Ok(VaxSummary(title, d.date,
        SectionOf("1-shot", d.changeVaccinations.value - d.changeVaccinated.value - d.changeBoosters.value,
                  d.totalVaccinations.value - d.totalVaccinated.value - d.totalBoosters.value, population)
        + SectionOf("2-shot", d.changeVaccinated.value, d.totalVaccinated.value, population)
        + SectionOf("Booster 1", d.changeBoosters.value, d.totalBoosters.value, population)))
  {
    if data == [] {
      return Err(IndexError);
    }
    var d := data[|data| - 1];
    if d.changeVaccinations.None? || d.changeVaccinated.None? || d.changeBoosters.None? {
      return Err(TypeError);
    }
    var today := d.changeVaccinations.value - d.changeVaccinated.value - d.changeBoosters.value;
    if d.totalVaccinations.None? || d.totalVaccinated.None? || d.totalBoosters.None? {
      return Err(TypeError);
    }
    var total := d.totalVaccinations.value - d.totalVaccinated.value - d.totalBoosters.value;
    var summary := [("- Today", Some(today)), ("- Total", Some(total))];
    var table: seq<Row> := [];
    var section := TableAddSection("1-shot", summary, table, population);
    if population == 0 {
      // The first "- Total" row divides by the population.
      assert summary[1..][0] == ("- Total", Some(total));
      assert SectionRows(summary, population) == Err(ZeroDivisionError);
      return Err(section.error);
    }
    ghost var rows1 := SectionOf("1-shot", today, total, population);
    ghost var rows2 := SectionOf("2-shot", d.changeVaccinated.value, d.totalVaccinated.value, population);
    ghost var rows3 := SectionOf("Booster 1", d.changeBoosters.value, d.totalBoosters.value, population);
    table := section.value;
    assert table == rows1;
    section := TableAddSection("2-shot", [("- Today", d.changeVaccinated), ("- Total", d.totalVaccinated)], table, population);
    table := section.value;
    assert table == rows1 + rows2;
    section := TableAddSection("Booster 1", [("- Today", d.changeBoosters), ("- Total", d.totalBoosters)], table, population);
    table := section.value;
    assert table == rows1 + rows2 + rows3;
    r := Ok(VaxSummary(title, d.date, table));
  }

  /** The three Today rows split the day's doses: 1-shot, 2-shot and booster
      add up to change_vaccinations, and likewise the three Totals add up to
      total_vaccinations. */
  lemma SectionsPartitionDoses(d: VaxRecord, population: int)
    requires population != 0
    requires d.changeVaccinations.Some? && d.changeVaccinated.Some? && d.changeBoosters.Some?
    requires d.totalVaccinations.Some? && d.totalVaccinated.Some? && d.totalBoosters.Some?
    ensures var table :=
        SectionOf("1-shot", d.changeVaccinations.value - d.changeVaccinated.value - d.changeBoosters.value,
                  d.totalVaccinations.value - d.totalVaccinated.value - d.totalBoosters.value, population)
        + SectionOf("2-shot", d.changeVaccinated.value, d.totalVaccinated.value, population)
        + SectionOf("Booster 1", d.changeBoosters.value, d.totalBoosters.value, population);
      && |table| == 12
      && table[0].0 == "1-shot" && table[4].0 == "2-shot" && table[8].0 == "Booster 1"
      && table[1].1.n + table[5].1.n + table[9].1.n == d.changeVaccinations.value
      && table[2].1.n + table[6].1.n + table[10].1.n == d.totalVaccinations.value
      && table[3].1.x <= 100.0 && table[7].1.x <= 100.0 && table[11].1.x <= 100.0
  {
  }
}
