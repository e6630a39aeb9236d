# COVID statistics bots: a Dafny model of the series and summary builders

The Telegram bots in this repository answer with charts and summary tables
built from daily COVID records. This project models the computations
between the downloaded records and the rendered output:

- `covid_stats_plotter.py`:
  - `plotData` turns a country's or province's cumulative case and death
    counts into two 7-day moving averages. It uses two seven-slot circular
    buffers and a rotating index.
  - `getSummary` walks back from the newest record to the latest record
    whose two change fields are both reported and not both zero. It then builds the Today / Total table,
    including the optional cases-per-million row.
- `vaccinations.py`:
  - the per-day loop of `plotVaccinationsForURL`: three 7-day windows over
    the change fields, plus the 1-shot and 2-shot percentage series, for
    days after 2020-12-15;
  - the province lookup of `plotVaccinations` and `getSummary`;
  - `tableAddSection`;
  - the 1-shot / 2-shot / booster arithmetic of `getSummaryData`.
- `global_vaccinations.py`: `getCountrySummary`. It remaps the country
  aliases, picks the last row of the country that holds a value, and runs
  the column loop. That loop uses the `isTotal` / `second_title_added` flags
  to insert the "2-shot" header once.

Modules:

- `Common` (common.dfy): Python's exceptions as a `Result`; the table
  cells; truncating division; "the last index where p holds".
- `Text` (text.dfy): `str.upper()`, `str.title()` and `str.find(t) >= 0`,
  on ASCII.
- `Window` (window.dfy): the seven-slot moving window shared by both
  plotting loops. `Slots(s, n)` and `Index(n)` give the slots and the index
  after n writes. They are proved against `Trailing(s, n)`, the last seven
  values written, zero-padded during warm-up.
- `CovidStats` (covid_stats.dfy), `Vaccinations` (vaccinations.dfy) and
  `GlobalVaccinations` (global_vaccinations.dfy): one module per script.

Modelling choices:

- Records are datatypes. Dates are integers: yyyymmdd in the vaccination
  data, so "after 2020-12-15" is `date > 20201215`.
- `None` stands for a JSON `null` in the vaccination records, for the
  covid API's `"na"` in `DayRecord` (a `null` change field, on which
  `float(None)` would raise TypeError, is not modelled), and for a pandas NaN
  in the data file rows.
- Divisions are exact (`real`). Truncating `int()` conversions are written
  out.
- A table is a sequence of (label, cell) rows. A cell is blank, an integer
  count, a percentage, or the "nan %" of a NaN percentage.
- An exception that escapes a function becomes `Err(e)` with the Python
  exception class: IndexError, TypeError, ValueError, KeyError or
  ZeroDivisionError.

## Model

| member | source | states |
|---|---|---|
| CovidStats.PlotData | covid_stats_plotter.py:139-164 | One date and one average of each kind per history entry, in history order. The k-th case/death average is the 7-slot window after the k-th daily change, divided by 7. |
| CovidStats.PlotDay | covid_stats_plotter.py:152-164 | One loop pass keeps the loop state. The window holds `confirmed - last` at the old index, `last` becomes `confirmed`, one average is appended and the index advances cyclically. |
| CovidStats.CasesPerMillion | covid_stats_plotter.py:55-58 | For a positive population and non-negative count, the result is the largest integer r with `r * population <= confirmed * 10^6`. |
| CovidStats.GetSummary | covid_stats_plotter.py:14-62 | The result is either: IndexError for an empty history; "Couldn't find valid data." when no record is informative (`Informative` is the negation of the loop condition at covid_stats_plotter.py:25-30: neither change is `"na"` and they are not both zero); IndexError when the newest informative record is the first one; ZeroDivisionError exactly when it has a predecessor and the population is 0. Otherwise it is a report on the newest informative record (every later record is uninformative). The report has Today rows equal to that record minus its predecessor, and Total rows equal to its counts. "- Cases/mil" comes right after the Total cases row exactly when a population is given. |
| Window.Index | covid_stats_plotter.py:143-164 | The index after n writes, starting at 0 and advanced by the wrap-around rule after each write, always stays in [0, 7). |
| Window.Slots | covid_stats_plotter.py:146-161 | The seven slots after n writes, each write overwriting the slot at the then current index, starting from `7 * [0]`. |
| Window.NextIndex | covid_stats_plotter.py:164 | The successor index stays in [0, 7) and is `(index + 1) mod 7`. |
| Window.IndexIsCount | covid_stats_plotter.py:143-146 | After n writes the index is n mod 7. |
| Window.NewWindow | covid_stats_plotter.py:146-147 | `7 * [0]` is the window state before any value is written. |
| Window.WriteSlot | covid_stats_plotter.py:156-161 | Writing the n-th value at the current index gives the slots after n+1 writes. The emitted `sum(window) / len(window)` is the average of the last seven values written. |
| Window.SlotsRotated | covid_stats_plotter.py:156-164 | Read from the current index round to the slot before it, the circular buffer holds exactly the last seven values written, oldest first. |
| Window.SumSlots | covid_stats_plotter.py:160-161 | The sum of the seven slots is the sum of the last seven values written, whatever slots they sit in. |
| Window.SumTrailing | covid_stats_plotter.py:160-161 | The trailing window sums the last seven values, or all values written while fewer than seven were. |
| Window.AveragesAt | covid_stats_plotter.py:160-161 | The k-th emitted average is the average of the window right after the k-th write. |
| Window.DeltasRecover | covid_stats_plotter.py:156-159 | Running sums invert the day-over-day changes: the first k+1 changes add up to the k-th cumulative value. |
| Window.SumDeltasRange | covid_stats_plotter.py:156-159 | The changes of days lo..hi-1 add up to the growth of the cumulative value over those days. |
| Window.WindowTelescopes | covid_stats_plotter.py:156-161 | After day k the window sum is `cum[k] - cum[k-7]` for k >= 7, and `cum[k]` before that. |
| Window.AverageOfCumulative | covid_stats_plotter.py:145-147 | The emitted average is `cum[k] / 7` during the first seven days, divided by 7 and not by the number of days seen. From then on it is `(cum[k] - cum[k-7]) / 7`. |
| Window.WarmUpAverage | vaccinations.py:122-124 | During warm-up, an average over change values is the sum of the changes so far divided by 7. |
| Vaccinations.KeptIsFilter | vaccinations.py:96-98 | A record is processed exactly when it is in the report and dated strictly after 2020-12-15. |
| Vaccinations.KeptPrefix | vaccinations.py:95-98 | Reading further records only appends to the processed ones, preserving order. |
| Vaccinations.KeptAt | vaccinations.py:97-98 | A record dated after the cutoff is the next processed record. |
| Vaccinations.NullSecondaryChangesNeverStop | vaccinations.py:99-124 | A null `change_vaccinated` or `change_boosters_1` never stops the loop: nulling both leaves the day's outcome unchanged. The only errors a processed day raises are ZeroDivisionError and TypeError. |
| Vaccinations.AllPassMeans | vaccinations.py:95-126 | The loop gets past the first k processed days exactly when none of them raises. |
| Vaccinations.FirstFailing | vaccinations.py:95-126 | Finds the first processed day that raises, if any. All days before it pass. |
| Vaccinations.FailsAt | vaccinations.py:95-126 | A raising day after a passing prefix is the first failing day. |
| Vaccinations.DayTotals | vaccinations.py:99-110 | The three percentages are `total * 100 / population`, with a null total as 0. ZeroDivisionError is raised exactly when the population is 0 and some total is non-null. |
| Vaccinations.SeriesMeaning | vaccinations.py:97-126 | One entry per processed day, in order. The date is the record's. 2-shot is the fully-vaccinated %. 1-shot is total% minus fully% minus booster%, with null totals as 0%. Each average series is the trailing 7-day averages of its change field, with a null `change_vaccinated`/`change_boosters_1` counted as 0. |
| Vaccinations.KeptDay | vaccinations.py:96-126 | One pass for a processed record. It raises exactly what DayError says: ZeroDivisionError when a non-null total meets a zero population, otherwise TypeError when `change_vaccinations` is null (sum() of the window then fails). Otherwise it keeps the loop state: three windows, series, and an index in [0, 7). |
| Vaccinations.PlotVaccinationsForUrl | vaccinations.py:71-126 | A missing population raises ValueError before any record is read. Otherwise the result is the error of the first processed day that raises, or the series of all processed days. |
| Vaccinations.CanadaPopulation | vaccinations.py:68 | The sum of the provincial populations is 38008005. |
| Vaccinations.SuffixesHavePopulation | vaccinations.py:22-66 | Every code in the lookup table has a positive population, so the `populationData[urlSuffix[...]]` lookup neither raises KeyError nor leads to a division by zero. |
| Vaccinations.ProvinceCode | vaccinations.py:167-168 | As written, a code is found exactly for the twelve full names that title() reproduces (`FULL_NAMES`: not the abbreviations, not "Newfoundland and Labrador"). The code found is urlSuffix's entry for `province.title()`, and it has a population. |
| Vaccinations.UnreachableKey | vaccinations.py:167-168 | A key that title() would change is never produced by title(). |
| Vaccinations.AbbreviationsUnreachable | vaccinations.py:36-49 | As written, no input reaches any abbreviation key, PEI included. |
| Vaccinations.NewfoundlandUnreachable | vaccinations.py:27 | As written, no input reaches the key "Newfoundland and Labrador". |
| Vaccinations.ProvinceCodeIntended | vaccinations.py:166-178 | The corrected lookup agrees with the as-written one wherever that finds a code, and only ever yields codes that have a population. |
| Vaccinations.AbbreviationsAccepted | vaccinations.py:36-49 | With the corrected lookup, every abbreviation in any case gives its code. |
| Vaccinations.NewfoundlandAccepted | vaccinations.py:27 | With the corrected lookup, "Newfoundland and Labrador" in any capitalisation gives NL. |
| Vaccinations.PlotVaccinations | vaccinations.py:166-178 | Returns False exactly when the name is unknown. Otherwise it plots the province's url, under "Vaccinations for " + the title-cased name, with the province's positive population. |
| Vaccinations.SummaryFor | vaccinations.py:233-242 | Returns "" exactly when the name is unknown. Otherwise getSummaryData gets the province's url, the title "<Name> Vaccinations" and its positive population. |
| Vaccinations.VaxPercent | vaccinations.py:187 | `min(100, 100 * value / population)`: the result is 100 or the plain percentage, and is at most both of them. It is the plain percentage when the value does not exceed a positive population. |
| Vaccinations.SectionRows | vaccinations.py:183-189 | The rows the entry loop of tableAddSection adds. It raises only TypeError or ZeroDivisionError. Without an error there is at least one row and at most two rows per entry. |
| Vaccinations.SectionRowsShape | vaccinations.py:181-189 | One row per entry plus one "- Vax %" row per "- Total" entry. That row comes right after its Total row, holds `min(100, total * 100 / population)` of that Total's value, and is capped at 100. |
| Vaccinations.SectionRowsErrors | vaccinations.py:184-187 | A section fails exactly when a value is null (TypeError from format) or, with a zero population, when it has a "- Total" entry (ZeroDivisionError). |
| Vaccinations.TableAddSection | vaccinations.py:181-189 | The table gains the title row followed by the section's rows, or the section's exception is raised. |
| Vaccinations.SectionOf | vaccinations.py:203-221 | A Today/Total section is four rows: its title, then what tableAddSection makes of the two values. |
| Vaccinations.GetSummaryData | vaccinations.py:192-226 | Outcomes: IndexError on an empty report; TypeError when one of the newest record's six fields is null; ZeroDivisionError for population 0. Otherwise there are three sections: 1-shot (change and total minus fully-vaccinated minus boosters), 2-shot and Booster 1. |
| Vaccinations.SectionsPartitionDoses | vaccinations.py:203-221 | The three Today rows add up to `change_vaccinations` and the three Total rows to `total_vaccinations`. Every Vax % is at most 100. |
| GlobalVaccinations.RemapCountry | global_vaccinations.py:54-62 | An alias (US, USA, UK, UAE, in any case) gives its full country name. Any other name is title-cased. |
| GlobalVaccinations.RemapIgnoresCase | global_vaccinations.py:54-62 | The country looked up does not depend on how the name was capitalised. |
| GlobalVaccinations.AliasesResolved | global_vaccinations.py:55-60 | "us", "Usa", "uk" and "uae" give United States, United States, United Kingdom and United Arab Emirates. |
| GlobalVaccinations.CountryFrame | global_vaccinations.py:47-50 | The frame holds only rows of the file whose location is the name, and every such row. |
| GlobalVaccinations.CountryFrameAppend | global_vaccinations.py:47-50 | A row read after the others is appended to the frame when its location is the name and ignored otherwise, so the frame keeps the file's order and each row's multiplicity. |
| GlobalVaccinations.Columns | global_vaccinations.py:64-72 | A row is read as the five selected columns, in selection order. |
| GlobalVaccinations.TruncReal | global_vaccinations.py:103 | `int()` truncates toward zero. |
| GlobalVaccinations.Assemble | global_vaccinations.py:92-103 | The rows the column loop adds after "1-shot", or the exception of a column: any error it raises is the error of one of the columns. |
| GlobalVaccinations.AssembleErrors | global_vaccinations.py:92-103 | The table fails exactly when one of its columns does. |
| GlobalVaccinations.AssembleAfterHeader | global_vaccinations.py:92-103 | Once the "2-shot" header is in, each column adds exactly its own row, in column order. |
| GlobalVaccinations.AssembleLayout | global_vaccinations.py:94-97 | The rows are the column rows with the "2-shot" header inserted right before the first "fully" column, or with no header when there is none. |
| GlobalVaccinations.SecondTitleOnce | global_vaccinations.py:82-99 | When a "fully" column exists, exactly one row is labelled "2-shot", and it sits right before the first such column. |
| GlobalVaccinations.NoSecondTitle | global_vaccinations.py:92-103 | Without a "fully" column, the rows are one per column with no "2-shot" header. |
| GlobalVaccinations.AddColumn | global_vaccinations.py:93-103 | One pass: both flags become `isTotal or "fully" in name`, so they stay equal and `isTotal` never turns off. The header is appended only when the flags first turn on. Then comes the column's row (ColumnRow: labelled "- " + its title_mapping value, a percentage for a "per_hundred" column with NaN shown as nan, otherwise the truncated count), or the column's exception is raised (KeyError for an unmapped name, ValueError for a NaN count). |
| GlobalVaccinations.TableStep | global_vaccinations.py:92-103 | One pass keeps the loop state: the table so far plus what the remaining columns add is the whole table. |
| GlobalVaccinations.BuildCountryTable | global_vaccinations.py:82-103 | The table starts with "1-shot" followed by the assembled rows, or raises what the first failing column raises. |
| GlobalVaccinations.PercentColumns | global_vaccinations.py:93 | Of the five selected columns, exactly the two "per_hundred" ones are rendered as percentages. |
| GlobalVaccinations.FullyColumns | global_vaccinations.py:94 | Of the five selected columns, exactly the last two are about the fully vaccinated. |
| GlobalVaccinations.OwidTable | global_vaccinations.py:84-103 | With the three counts present, the table after "1-shot" is Today, Total, Vax %, then "2-shot", Total, Vax %. |
| GlobalVaccinations.OwidTableErrors | global_vaccinations.py:100-103 | A row fails exactly when one of its three counts is NaN, and the error is ValueError. |
| GlobalVaccinations.GetCountrySummary | global_vaccinations.py:53-109 | The remapped name selects the country's rows, and IndexError is raised when none of them holds a value. Otherwise the table of the last row holding a value is reported under the remapped name and that row's date. |
| Common.LastWhere | global_vaccinations.py:73 | Finds the last index whose element satisfies the predicate, with every later element failing it, or None when no element does. |
| Common.TruncDiv | covid_stats_plotter.py:57 | Division truncated toward zero, as `int()` of a quotient: its magnitude is the quotient of the magnitudes, with the sign of the quotient. |
| Text.Upper | global_vaccinations.py:61 | `str.upper()`: same length, each letter is the same letter with no lower case left, and every other character is unchanged. |
| Text.TitleCase | vaccinations.py:167 | `str.title()`: same length, non-letters unchanged, each letter stays the same letter, and it is upper case exactly when it starts a word (no letter before it). |
| Text.Contains | global_vaccinations.py:93-94 | `name.find(t) >= 0`: t occurs in the name at some position. A found t is no longer than the name, and the empty string is always found. |
| Text.TitleCaseIdempotent | vaccinations.py:167 | Title-casing twice is title-casing once. |
| Text.TitleCaseIgnoresCase | global_vaccinations.py:54 | title() of the upper-cased name is title() of the name. |
| Text.UpperOfTitleCase | global_vaccinations.py:61 | upper() after title() is upper() of the original name. |

## Left out

- Network and file access are not modelled: `urlopen`/`json.loads`,
  `CovId19Data`, and `pd.read_csv` with the dataset download. The records
  are parameters.
- Not modelled: the matplotlib charts (`plottingfunction` and the
  plotting tail of `plotVaccinationsForURL`), the PrettyTable text, the
  HTML wrapping of the summaries, and the `print` calls.
- Number formatting is left out: `format(n, ",d")` and
  `"{:.2f}".format(x)`. Cells hold the numbers they format.
- `.title()` applied to the finished summary strings
  (vaccinations.py:230, 242) is left out: it only changes the rendered text.
- The `CountryInfo` population lookup and the `getListOfCountries` /
  `getListOfRegions` helpers are foreign calls. The population is a
  parameter of `GetSummary`.
- The `main` functions and the bot glue are not modelled.
- `plotCanadaVaccinations` and `getCanadaSummary` are not separate
  members. They call the modelled functions with the Canada url and
  `CanadaPopulation`.
- `dbKey` (`key.lower().replace(" ", "_")`) and the `res[dbKey]["history"]`
  lookup in `plotData` are left out: `PlotData` takes the history itself.
- pandas is abstracted:
  - `pd.to_datetime` becomes integer dates;
  - `last_valid_index` becomes `LastWhere` with "some selected column is
    not NaN";
  - `iteritems` becomes the five selected columns in order;
  - a date shared by two rows (where `.loc` would return a frame) is not
    modelled.
- In `getSummary`, the `if value in currentData` guards are taken to hold:
  the API always returns both counts.
- The chart never uses the `total_boosters_1` list, which the loop variable
  of the same name shadows, so it is not modelled.
- CovidStats.CasesPerMillion: exact arithmetic instead of the float
  `int(confirmed / (population / 1e6))`. The float may land one below the
  exact quotient near an integer boundary.
- Vaccinations.VaxPercent and Vaccinations.DayTotals: exact rational
  arithmetic instead of binary floating point.
- Vaccinations.PlotVaccinations and Vaccinations.SummaryFor use the
  corrected lookup `ProvinceCodeIntended`, not the title()-only lookup as
  written (see Findings; `ProvinceCode` models the code as written).
- Text.TitleCase and Text.Upper: ASCII only. Python's Unicode case
  mapping and its rule that any cased character (not only a letter)
  continues a word are not modelled.

## Findings

| source | as written | input that shows it | evidently intended | confidence | as-written member | corrected member |
|---|---|---|---|---|---|---|
| vaccinations.py:167-168 | `province.title()` is looked up in urlSuffix, whose abbreviation keys are upper case | "ON" or "PEI": title() gives "On" / "Pei", which are not keys, so the abbreviations listed in urlSuffix are never found | abbreviations accepted in any case | not executed; high | Vaccinations.AbbreviationsUnreachable | Vaccinations.AbbreviationsAccepted |
| vaccinations.py:27, 167-168 | the key "Newfoundland and Labrador" has a lower-case "and" | "Newfoundland and Labrador": title() gives "Newfoundland And Labrador", which is not a key | the province found under its full name | not executed; high | Vaccinations.NewfoundlandUnreachable | Vaccinations.NewfoundlandAccepted |
