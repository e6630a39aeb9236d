/** global_vaccinations.py: getCountrySummary, the vaccination summary of one
    country from the Our World in Data table. The name the user typed is
    title-cased and a few aliases are remapped; the newest row of the
    country that holds any value is turned into a table with a "1-shot"
    section and, from the first column about the fully vaccinated on, a
    "2-shot" section. */
module GlobalVaccinations {
  import opened Common
  import opened Text

  /** The aliases countryRemap resolves, keyed by the upper-cased name. */
  const COUNTRY_REMAP: map<string, string> := map[
    "USA" := "United States",
    "US" := "United States",
    "UK" := "United Kingdom",
    "UAE" := "United Arab Emirates"]

  /** `country.title()`, then the alias of `country.upper()` if it has one. */
  function RemapCountry(country: string): (name: string)
    ensures Upper(country) in COUNTRY_REMAP ==> name == COUNTRY_REMAP[Upper(country)]
    ensures Upper(country) !in COUNTRY_REMAP ==> name == TitleCase(country)
  {
    var titled := TitleCase(country);
    UpperOfTitleCase(country);
    if Upper(titled) in COUNTRY_REMAP then COUNTRY_REMAP[Upper(titled)] else titled
  }

  /** The country looked up does not depend on how the name was capitalised:
      "us", "Us" and "US" all select "United States". */
  lemma RemapIgnoresCase(country: string)
    ensures RemapCountry(Upper(country)) == RemapCountry(country)
  {
    UpperIdempotent(country);
    TitleCaseIgnoresCase(country);
  }

  /** A remapped name is never title-cased again: the full names are what
      the data table's location column holds. */
  lemma AliasesResolved()
    ensures RemapCountry("us") == "United States" && RemapCountry("Usa") == "United States"
    ensures RemapCountry("uk") == "United Kingdom" && RemapCountry("uae") == "United Arab Emirates"
  {
    assert Upper("us") == "US";
    assert Upper("Usa") == "USA";
    assert Upper("uk") == "UK";
    assert Upper("uae") == "UAE";
  }

  /** One line of owid-covid-data.csv, reduced to the location, the date and
      the five columns getCountrySummary selects; a NaN is None. */
  datatype OwidRecord = OwidRecord(
    location: string,
    date: int,
    newVaccinations: Option<real>,
    peopleVaccinated: Option<real>,
    peopleVaccinatedPerHundred: Option<real>,
    peopleFullyVaccinated: Option<real>,
    peopleFullyVaccinatedPerHundred: Option<real>)

  /** The selected columns, in the order of the selection. */
  const COLUMNS: seq<string> := [
    "new_vaccinations",
    "people_vaccinated",
    "people_vaccinated_per_hundred",
    "people_fully_vaccinated",
    "people_fully_vaccinated_per_hundred"]

  /** The row label of each column. */
  const TITLE_MAPPING: map<string, string> := map[
    "new_vaccinations" := "Today",
    "people_vaccinated" := "Total",
    "people_vaccinated_per_hundred" := "Vax %",
    "people_fully_vaccinated" := "Total",
    "people_fully_vaccinated_per_hundred" := "Vax %"]

  /** `most_recent.iteritems()`: the (column name, value) pairs of a row. */
  function Columns(d: OwidRecord): (columns: seq<(string, Option<real>)>)
    ensures |columns| == |COLUMNS| && forall i :: 0 <= i < |COLUMNS| ==> columns[i].0 == COLUMNS[i]
  {
    [(COLUMNS[0], d.newVaccinations),
     (COLUMNS[1], d.peopleVaccinated),
     (COLUMNS[2], d.peopleVaccinatedPerHundred),
     (COLUMNS[3], d.peopleFullyVaccinated),
     (COLUMNS[4], d.peopleFullyVaccinatedPerHundred)]
  }

  /** A row last_valid_index can stop at: one of its columns is not NaN. */
  predicate HasValidValue(d: OwidRecord) {
    exists i :: 0 <= i < |Columns(d)| && Columns(d)[i].1.Some?
  }

  /** getCountryData: the rows of the country, in file order. */
  function CountryFrame(data: seq<OwidRecord>, country: string): (rows: seq<OwidRecord>)
    ensures |rows| <= |data|
    ensures forall d :: d in rows ==> d in data && d.location == country
    ensures forall d :: d in data && d.location == country ==> d in rows
  {
    if data == [] then []
    else
      var rest := CountryFrame(data[1..], country);
      if data[0].location == country then [data[0]] + rest else rest
  }

  /** The frame grows with the file: a row read after the others is appended
      when it belongs to the country and ignored otherwise, so the frame keeps
      the file's order and each row's multiplicity. */
  lemma {:induction false} CountryFrameAppend(data: seq<OwidRecord>, d: OwidRecord, country: string)
    ensures CountryFrame(data + [d], country)
      == CountryFrame(data, country) + (if d.location == country then [d] else [])
  {
    if data == [] {
      assert [] + [d] == [d] && [d][1..] == [];
    } else {
      assert (data + [d])[0] == data[0] && (data + [d])[1..] == data[1..] + [d];
      CountryFrameAppend(data[1..], d, country);
    }
  }

  /** int(x) on a float: truncation toward zero. */
  function TruncReal(x: real): (n: int)
    ensures x >= 0.0 ==> n as real <= x < n as real + 1.0
    ensures x < 0.0 ==> n as real - 1.0 < x <= n as real
  {
    if x >= 0.0 then x.Floor else -((-x).Floor)
  }

  /** `"{:.2f}".format(cData) + " %"`: the percentage, or "nan %". */
  function PercentCell(value: Option<real>): Cell {
    if value.Some? then Percent(value.value) else NaNPercent
  }

  /** The row one column adds: its label from title_mapping (KeyError for
      any other column), then a percentage for a "per_hundred" column (NaN
      prints as "nan %") or the integer count, where int() of a NaN raises
      ValueError. */
  function ColumnRow(name: string, value: Option<real>): Result<Row> {
    if name !in TITLE_MAPPING then Err(KeyError)
    else if Contains(name, "per_hundred") then
      Ok(("- " + TITLE_MAPPING[name], PercentCell(value)))
    else if value.None? then Err(ValueError)
    else Ok(("- " + TITLE_MAPPING[name], Count(TruncReal(value.value))))
  }

  /** A column about the fully vaccinated: `cName.find("fully") >= 0`. */
  predicate IsFully(column: (string, Option<real>)) {
    Contains(column.0, "fully")
  }

  /** What one column contributes to the table: whether it is about the
      fully vaccinated, and its row or the exception it raises. */
  datatype Outcome = Outcome(fully: bool, row: Result<Row>)

  function Outcomes(columns: seq<(string, Option<real>)>): (outcomes: seq<Outcome>)
    ensures |outcomes| == |columns|
    ensures forall i :: 0 <= i < |columns| ==>
      outcomes[i] == Outcome(IsFully(columns[i]), ColumnRow(columns[i].0, columns[i].1))
  {
    seq(|columns|, i requires 0 <= i < |columns| => Outcome(IsFully(columns[i]), ColumnRow(columns[i].0, columns[i].1)))
  }

  /** The position of the first column about the fully vaccinated. */
  function FirstFully(outcomes: seq<Outcome>): (f: Option<nat>)
    ensures f.Some? ==> f.value < |outcomes| && outcomes[f.value].fully
    ensures f.Some? ==> forall i :: 0 <= i < f.value ==> !outcomes[i].fully
    ensures f.None? ==> forall i :: 0 <= i < |outcomes| ==> !outcomes[i].fully
  {
    if outcomes == [] then None
    else if outcomes[0].fully then Some(0)
    else match FirstFully(outcomes[1..])
      case None => None
      case Some(j) => Some(j + 1)
  }

  /** The rows the column loop adds after "1-shot", given whether the
      "2-shot" header is already in the table: each column's row, preceded
      by the "2-shot" header when the column is the first about the fully
      vaccinated. The first column that raises ends the table. */
  function Assemble(outcomes: seq<Outcome>, secondTitleAdded: bool): (r: Result<seq<Row>>)
    ensures r.Err? ==> exists i :: 0 <= i < |outcomes| && outcomes[i].row == Err(r.error)
  {
    if outcomes == [] then Ok([])
    else
      var header := if !secondTitleAdded && outcomes[0].fully then [("2-shot", Blank)] else [];
      match outcomes[0].row
      case Err(e) => Err(e)
      case Ok(row) =>
        match Assemble(outcomes[1..], secondTitleAdded || outcomes[0].fully)
        case Err(e) => Err(e)
        case Ok(rest) => Ok(header + [row] + rest)
  }

  /** The table fails exactly when one of its columns does. */
  lemma {:induction false} AssembleErrors(outcomes: seq<Outcome>, secondTitleAdded: bool)
    ensures Assemble(outcomes, secondTitleAdded).Ok? <==> forall i :: 0 <= i < |outcomes| ==> outcomes[i].row.Ok?
    decreases |outcomes|
  {
    if outcomes != [] {
      AssembleErrors(outcomes[1..], secondTitleAdded || outcomes[0].fully);
      assert forall i :: 1 <= i < |outcomes| ==> outcomes[1..][i - 1] == outcomes[i];
    }
  }

  /** Once the "2-shot" header is in the table, each column adds its own
      row and nothing else: one row per column, in column order. */
  lemma {:induction false} AssembleAfterHeader(outcomes: seq<Outcome>)
    requires Assemble(outcomes, true).Ok?
    ensures var rows := Assemble(outcomes, true).value;
      |rows| == |outcomes| && forall i :: 0 <= i < |outcomes| ==> outcomes[i].row.Ok? && rows[i] == outcomes[i].row.value
    decreases |outcomes|
  {
    if outcomes != [] {
      AssembleAfterHeader(outcomes[1..]);
      assert forall i :: 1 <= i < |outcomes| ==> outcomes[1..][i - 1] == outcomes[i];
    }
  }

  /** One step of Assemble on a table that does not raise. */
  lemma AssembleCons(outcomes: seq<Outcome>, secondTitleAdded: bool)
    requires outcomes != [] && Assemble(outcomes, secondTitleAdded).Ok?
    ensures outcomes[0].row.Ok? && Assemble(outcomes[1..], secondTitleAdded || outcomes[0].fully).Ok?
    ensures Assemble(outcomes, secondTitleAdded).value
      == (if !secondTitleAdded && outcomes[0].fully then [("2-shot", Blank)] else [])
         + [outcomes[0].row.value] + Assemble(outcomes[1..], secondTitleAdded || outcomes[0].fully).value
  {
  }

  /** The converse step: a column that does not raise, in front of rows
      that do not raise. */
  lemma AssembleConsOk(outcomes: seq<Outcome>, secondTitleAdded: bool)
    requires outcomes != [] && outcomes[0].row.Ok?
    requires Assemble(outcomes[1..], secondTitleAdded || outcomes[0].fully).Ok?
    ensures Assemble(outcomes, secondTitleAdded)
      == Ok((if !secondTitleAdded && outcomes[0].fully then [("2-shot", Blank)] else [])
            + [outcomes[0].row.value] + Assemble(outcomes[1..], secondTitleAdded || outcomes[0].fully).value)
  {
  }

  /** Before the header is added, the rows are those of the columns with the
      "2-shot" header inserted right before the first column about the fully
      vaccinated, if there is one. */
  lemma {:induction false} AssembleLayout(outcomes: seq<Outcome>)
    requires Assemble(outcomes, false).Ok?
    ensures FirstFully(outcomes).None? ==> Assemble(outcomes, false) == Assemble(outcomes, true)
    ensures FirstFully(outcomes).Some? ==> var j := FirstFully(outcomes).value;
      && Assemble(outcomes[..j], true).Ok? && Assemble(outcomes[j..], true).Ok?
      && Assemble(outcomes, false).value
         == Assemble(outcomes[..j], true).value + [("2-shot", Blank)] + Assemble(outcomes[j..], true).value
    decreases |outcomes|
  {
    if outcomes != [] {
      AssembleCons(outcomes, false);
      var row := outcomes[0].row.value;
      var tail := outcomes[1..];
      if outcomes[0].fully {
        AssembleConsOk(outcomes, true);
        assert outcomes[..0] == [] && outcomes[0..] == outcomes;
      } else {
        AssembleLayout(tail);
        if FirstFully(outcomes).Some? {
          var j := FirstFully(outcomes).value;
          assert FirstFully(tail) == Some(j - 1);
          var prefix := outcomes[..j];
          assert prefix[0] == outcomes[0];
          assert prefix[1..] == tail[..j - 1];
          AssembleConsOk(prefix, true);
          assert outcomes[j..] == tail[j - 1..];
        } else {
          AssembleConsOk(outcomes, true);
        }
      }
    }
  }

  /** Column rows are labelled "- ...", so the header is the only "2-shot"
      row of the table, and it sits right before the first column about the
      fully vaccinated. */
  lemma SecondTitleOnce(columns: seq<(string, Option<real>)>)
    requires Assemble(Outcomes(columns), false).Ok? && FirstFully(Outcomes(columns)).Some?
    ensures var j := FirstFully(Outcomes(columns)).value;
      && IsFully(columns[j]) && (forall i :: 0 <= i < j ==> !IsFully(columns[i]))
      && var rows := Assemble(Outcomes(columns), false).value;
         forall i :: 0 <= i < |rows| ==> (rows[i].0 == "2-shot" <==> i == j)
  {
    var outcomes := Outcomes(columns);
    AssembleLayout(outcomes);
    var j := FirstFully(outcomes).value;
    AssembleAfterHeader(outcomes[..j]);
    AssembleAfterHeader(outcomes[j..]);
    var rows := Assemble(outcomes, false).value;
    var before, after := Assemble(outcomes[..j], true).value, Assemble(outcomes[j..], true).value;
    forall i | 0 <= i < |rows| && i != j
      ensures rows[i].0 != "2-shot"
    {
      var k := if i < j then i else i - 1;
      if i < j {
        assert rows[i] == before[i] && outcomes[..j][i] == outcomes[k];
      } else {
        assert rows[i] == after[i - j - 1] && outcomes[j..][i - j - 1] == outcomes[k];
      }
      var rowLabel := ColumnRow(columns[k].0, columns[k].1).value.0;
      assert rows[i].0 == rowLabel && rowLabel[0] == '-';
    }
  }

  /** Without a column about the fully vaccinated the table has no "2-shot"
      section: one row per column. */
  lemma NoSecondTitle(columns: seq<(string, Option<real>)>)
    requires Assemble(Outcomes(columns), false).Ok? && forall i :: 0 <= i < |columns| ==> !IsFully(columns[i])
    ensures var rows := Assemble(Outcomes(columns), false).value;
      |rows| == |columns| && forall i :: 0 <= i < |rows| ==>
        ColumnRow(columns[i].0, columns[i].1).Ok? && rows[i] == ColumnRow(columns[i].0, columns[i].1).value
  {
    var outcomes := Outcomes(columns);
    AssembleLayout(outcomes);
    AssembleAfterHeader(outcomes);
  }

  /** One pass of the column loop: `isTotal` turns on at a "fully" column,
      the "2-shot" header is appended the first time it is on, then the
      column's row, or the column's exception is raised. */
  method AddColumn(table: seq<Row>, isTotal: bool, secondTitleAdded: bool, name: string, value: Option<real>)
    returns (r: Result<seq<Row>>, isTotal': bool, secondTitleAdded': bool)
    requires isTotal == secondTitleAdded
    ensures isTotal' == secondTitleAdded' == (isTotal || IsFully((name, value)))
    ensures match ColumnRow(name, value)
      case Err(e) => r == Err(e)
      case Ok(row) => r == Ok(table + (if !secondTitleAdded && IsFully((name, value)) then [("2-shot", Blank)] else []) + [row])
  {
    var rows := table;
    var isPercent := Contains(name, "per_hundred");
    isTotal' := isTotal || Contains(name, "fully");
    secondTitleAdded' := secondTitleAdded;
    if isTotal' && !secondTitleAdded' {
      rows := rows + [("2-shot", Blank)];
      secondTitleAdded' := true;
    }
    if name !in TITLE_MAPPING {
      return Err(KeyError), isTotal', secondTitleAdded';
    }
    var rowLabel := "- " + TITLE_MAPPING[name];
    var cell;
    if isPercent {
      cell := PercentCell(value);
    } else {
      if value.None? {
        return Err(ValueError), isTotal', secondTitleAdded';
      }
      cell := Count(TruncReal(value.value));
    }
    assert ColumnRow(name, value) == Ok((rowLabel, cell));
    assert rows == table + (if !secondTitleAdded && IsFully((name, value)) then [("2-shot", Blank)] else []);
    r := Ok(rows + [(rowLabel, cell)]);
  }

  /** The state of the column loop after i columns: `isTotal` and
      `second_title_added` agree and say whether a column about the fully
      vaccinated was seen, and the table built so far followed by what the
      remaining columns add is the whole table (or the remaining columns
      raise the exception the whole table raises). */
  ghost predicate TableState(outcomes: seq<Outcome>, i: nat, table: seq<Row>, isTotal: bool, secondTitleAdded: bool) {
    && i <= |outcomes|
    && isTotal == secondTitleAdded
    && (isTotal <==> exists k :: 0 <= k < i && outcomes[k].fully)
    && match Assemble(outcomes, false)
       case Err(e) => Assemble(outcomes[i..], secondTitleAdded) == Err(e)
       case Ok(all) => Assemble(outcomes[i..], secondTitleAdded).Ok?
                       && table + Assemble(outcomes[i..], secondTitleAdded).value == [("1-shot", Blank)] + all
  }

  /** One pass of the loop keeps TableState, or raises what the whole table
      raises. */
  lemma TableStep(outcomes: seq<Outcome>, i: nat, table: seq<Row>, seen: bool, r: Result<seq<Row>>, seen': bool)
    requires i < |outcomes| && TableState(outcomes, i, table, seen, seen)
    requires seen' == (seen || outcomes[i].fully)
    requires match outcomes[i].row
      case Err(e) => r == Err(e)
      case Ok(row) => r == Ok(table + (if !seen && outcomes[i].fully then [("2-shot", Blank)] else []) + [row])
    ensures r.Err? ==> Assemble(outcomes, false) == Err(r.error)
    ensures r.Ok? ==> TableState(outcomes, i + 1, r.value, seen', seen')
  {
    assert seen' <==> exists k :: 0 <= k < i + 1 && outcomes[k].fully by {
      if outcomes[i].fully {
        assert 0 <= i < i + 1 && outcomes[i].fully;
      }
    }
    var rest := outcomes[i..];
    assert rest[0] == outcomes[i] && rest[1..] == outcomes[i + 1..];
    match Assemble(outcomes, false)
    case Err(e) =>
    case Ok(all) =>
      AssembleCons(rest, seen);
      var header := if !seen && outcomes[i].fully then [("2-shot", Blank)] else [];
      var tail := Assemble(outcomes[i + 1..], seen').value;
      assert Assemble(rest, seen).value == header + [outcomes[i].row.value] + tail;
      var row := outcomes[i].row.value;
      assert r.value == table + header + [row];
      ConcatAssoc(table, header, [row]);
      ConcatAssoc(table, header + [row], tail);
  }

  lemma ConcatAssoc<T>(a: seq<T>, b: seq<T>, c: seq<T>)
    ensures (a + b) + c == a + (b + c)
  {
  }

  /** The row-building loop of getCountrySummary: the "1-shot" header, then
      one pass of AddColumn per column, in column order. */
  method BuildCountryTable(columns: seq<(string, Option<real>)>) returns (r: Result<seq<Row>>)
    ensures match Assemble(Outcomes(columns), false)
      case Err(e) => r == Err(e)
      case Ok(rows) => r == Ok([("1-shot", Blank)] + rows)
  {
    var table: seq<Row> := [("1-shot", Blank)];
    var isTotal := false;
    var secondTitleAdded := false;
    ghost var outcomes := Outcomes(columns);
    for i := 0 to |columns|
      invariant TableState(outcomes, i, table, isTotal, secondTitleAdded)
    {
      var (name, value) := columns[i];
      assert outcomes[i] == Outcome(IsFully((name, value)), ColumnRow(name, value));
      ghost var seen := secondTitleAdded;
      var step;
      step, isTotal, secondTitleAdded := AddColumn(table, isTotal, secondTitleAdded, name, value);
      TableStep(outcomes, i, table, seen, step, secondTitleAdded);
      if step.Err? {
        return Err(step.error);
      }
      table := step.value;
    }
    assert Assemble(outcomes[|columns|..], secondTitleAdded) == Ok([]);
    assert table == [("1-shot", Blank)] + Assemble(outcomes, false).value;
    r := Ok(table);
  }

  /** A name without a character of t does not contain t. */
  lemma {:induction false} MissingChar(s: string, t: string, k: nat)
    requires k < |t| && forall i :: 0 <= i < |s| ==> s[i] != t[k]
    ensures !Contains(s, t)
  {
    forall i | 0 <= i <= |s| - |t|
      ensures !OccursAt(s, t, i)
    {
      assert s[i..i + |t|][k] == s[i + k];
    }
  }

  /** t matched character by character at position i of s. */
  lemma {:induction false} FoundAt(s: string, t: string, i: nat)
    requires i + |t| <= |s| && forall j :: 0 <= j < |t| ==> s[i + j] == t[j]
    ensures Contains(s, t)
  {
    assert s[i..i + |t|] == t;
    assert OccursAt(s, t, i);
  }

  /** The selected columns that are percentages: those with "per_hundred"
      in their name. */
  lemma PercentColumns()
    ensures !Contains(COLUMNS[0], "per_hundred") && !Contains(COLUMNS[1], "per_hundred")
    ensures Contains(COLUMNS[2], "per_hundred") && !Contains(COLUMNS[3], "per_hundred")
    ensures Contains(COLUMNS[4], "per_hundred")
  {
    MissingChar(COLUMNS[0], "per_hundred", 4);
    MissingChar(COLUMNS[1], "per_hundred", 4);
    MissingChar(COLUMNS[3], "per_hundred", 4);
    FoundAt(COLUMNS[2], "per_hundred", 18);
    FoundAt(COLUMNS[4], "per_hundred", 24);
  }

  /** The selected columns about the fully vaccinated: the last two. */
  lemma FullyColumns()
    ensures !Contains(COLUMNS[0], "fully") && !Contains(COLUMNS[1], "fully") && !Contains(COLUMNS[2], "fully")
    ensures Contains(COLUMNS[3], "fully") && Contains(COLUMNS[4], "fully")
  {
    MissingChar(COLUMNS[0], "fully", 0);
    MissingChar(COLUMNS[1], "fully", 0);
    MissingChar(COLUMNS[2], "fully", 0);
    FoundAt(COLUMNS[3], "fully", 7);
    FoundAt(COLUMNS[4], "fully", 7);
  }

  /** The table of a row of the data file: with the three counts present,
      "1-shot" is followed by Today, Total and Vax %, then "2-shot" by Total
      and Vax % of the fully vaccinated. */
  lemma OwidTable(d: OwidRecord)
    requires d.newVaccinations.Some? && d.peopleVaccinated.Some? && d.peopleFullyVaccinated.Some?
    ensures Assemble(Outcomes(Columns(d)), false) == Ok([
      ("- Today", Count(TruncReal(d.newVaccinations.value))),
      ("- Total", Count(TruncReal(d.peopleVaccinated.value))),
      ("- Vax %", PercentCell(d.peopleVaccinatedPerHundred)),
      ("2-shot", Blank),
      ("- Total", Count(TruncReal(d.peopleFullyVaccinated.value))),
      ("- Vax %", PercentCell(d.peopleFullyVaccinatedPerHundred))])
  {
    PercentColumns();
    FullyColumns();
    var columns := Columns(d);
    var outcomes := Outcomes(columns);
    assert "- " + "Today" == "- Today" && "- " + "Total" == "- Total" && "- " + "Vax %" == "- Vax %";
    assert outcomes[0] == Outcome(false, Ok(("- Today", Count(TruncReal(d.newVaccinations.value)))));
    assert outcomes[1] == Outcome(false, Ok(("- Total", Count(TruncReal(d.peopleVaccinated.value)))));
    assert outcomes[2] == Outcome(false, Ok(("- Vax %", PercentCell(d.peopleVaccinatedPerHundred))));
    assert outcomes[3] == Outcome(true, Ok(("- Total", Count(TruncReal(d.peopleFullyVaccinated.value)))));
    assert outcomes[4] == Outcome(true, Ok(("- Vax %", PercentCell(d.peopleFullyVaccinatedPerHundred))));
    AssembleErrors(outcomes, false);
    assert FirstFully(outcomes) == Some(3);
    AssembleLayout(outcomes);
    AssembleAfterHeader(outcomes[..3]);
    AssembleAfterHeader(outcomes[3..]);
    var before, after := Assemble(outcomes[..3], true).value, Assemble(outcomes[3..], true).value;
    assert before == [outcomes[0].row.value, outcomes[1].row.value, outcomes[2].row.value];
    assert after == [outcomes[3].row.value, outcomes[4].row.value];
    assert before + [("2-shot", Blank)] + after
      == [before[0], before[1], before[2], ("2-shot", Blank), after[0], after[1]];
  }

  /** With one of the three counts missing the table raises ValueError: the
      counts go through int(), which a NaN does not survive. */
  lemma OwidTableErrors(d: OwidRecord)
    ensures Assemble(Outcomes(Columns(d)), false).Err? <==>
      d.newVaccinations.None? || d.peopleVaccinated.None? || d.peopleFullyVaccinated.None?
    ensures Assemble(Outcomes(Columns(d)), false).Err? ==> Assemble(Outcomes(Columns(d)), false).error == ValueError
  {
    PercentColumns();
    FullyColumns();
    var outcomes := Outcomes(Columns(d));
    AssembleErrors(outcomes, false);
    assert outcomes[2].row.Ok? && outcomes[4].row.Ok?;
    if d.newVaccinations.None? {
      assert Assemble(outcomes, false) == Err(ValueError);
    } else if d.peopleVaccinated.None? {
      assert outcomes[1..][1..] == outcomes[2..];
      assert Assemble(outcomes, false) == Err(ValueError);
    } else if d.peopleFullyVaccinated.None? {
      assert outcomes[3..][0] == outcomes[3];
      assert Assemble(outcomes[3..], false) == Err(ValueError);
      assert outcomes[2..][0] == outcomes[2] && outcomes[2..][1..] == outcomes[3..];
      assert Assemble(outcomes[2..], false) == Err(ValueError);
      assert outcomes[1..][0] == outcomes[1] && outcomes[1..][1..] == outcomes[2..];
      assert Assemble(outcomes[1..], false) == Err(ValueError);
    }
  }

  /** What getCountrySummary reports: the looked-up name, the date of the
      row summarised and the table. */
  datatype CountrySummary = CountrySummary(country: string, date: int, table: seq<Row>)

  /** getCountrySummary over the rows of the data file: the remapped name
      selects the country's rows, the last row holding any value is
      summarised, and IndexError is raised when there is none. */
  method GetCountrySummary(country: string, data: seq<OwidRecord>) returns (r: Result<CountrySummary>)
    ensures var name := RemapCountry(country);
      var frame := CountryFrame(data, name);
      match LastWhere(frame, HasValidValue)
      case None => r == Err(IndexError)
      case Some(p) =>
        match Assemble(Outcomes(Columns(frame[p])), false)
        case Err(e) => r == Err(e)
        case Ok(rows) => r == Ok(CountrySummary(name, frame[p].date, [("1-shot", Blank)] + rows))
  {
    var name := RemapCountry(country);
    var frame := CountryFrame(data, name);
    var current := LastWhere(frame, HasValidValue);
    if current.None? {
      return Err(IndexError);
    }
    var mostRecent := frame[current.value];
    var table := BuildCountryTable(Columns(mostRecent));
    if table.Err? {
      return Err(table.error);
    }
    r := Ok(CountrySummary(name, mostRecent.date, table.value));
  }
}
