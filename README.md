# SDR refrigeration dashboards — a Dafny model of the analysis core

This project models the analysis core of the Plotter Racks dashboards. They
evaluate the intelligent defrost controller (SDR / AIDA) of supermarket freezer
rooms. Each dashboard reads data-logger exports and merges them into one frame
indexed by time. From that frame it derives defrost starts, the energy a fixed
defrost schedule would have used compared with the defrosts that actually
happened, thermal performance per weekly period, and per-day capacity and
energy comparisons between a room with the controller and one without it.

The model has one module per concern, each following the source file it
models:

- `Wrappers`, `Cells`, `Calendar`, `TimeSort`: the vocabulary.
  - Option and Result values, and the failures a run can end with.
  - A log cell is a number, text or NaN. `pd.to_numeric(errors="coerce")` and `.fillna(0)` are modelled on it.
  - Substring and lower-case tests on column names.
  - Timestamps are whole minutes since 1970-01-01, a Thursday. Day, hour and weekday are defined on them.
  - A stable sort by time.
- `Edges`: the two ways the scripts detect a defrost start.
  - `diff() == 1` on the coerced status (`main.py`).
  - `(shift(1).fillna(0) == 0) & (x == 1)` on the raw column (`Consumo.py`, `ConsumoStepIn.py`).
  - How the two relate.
- `Loader`: `load_all` of `main.py` and `codigo_base.py`.
  - Detecting the time column.
  - Dropping unparseable dates and skipping unusable files.
  - Concatenating and sorting by time.
- `Metrics`: `calc_metrics`, i.e. scheduled against actual defrost energy and the savings percentage.
- `Thermal`: the recovery-window mask, the operation / off-hours / weekend periods, forward-filled temperatures and the per-period performance score.
- `Dashboard`: the rest of `main.py`.
  - The store configuration and the mode rule.
  - The "Eficiência Energética" totals.
  - The per-system analysis loop and its guards.
- `CodigoBase`: the earlier `codigo_base.py`.
  - Its broken aggregate mode.
  - Its per-environment loop, which warns where `main.py` raises.
- `DailyStats`, `LogFrames`: shared pieces of the per-day reports.
  - `groupby(["Sistema", "Dia"]).size()` and `.mean()`, with NaN skipped.
  - The merged frame as a class whose columns are coerced and extended in place.
- `Consumo` (`Consumo.py`): the capacity report of a freezer room with and without the controller.
- `ConsumoStepIn` (`deprecated/ConsumoStepIn.py`): the same report for a two-evaporator Step-In unit.
  - Its column mapping is done by substring.
- `Kwh` (`deprecated/kWh.py`): the energy-meter comparison.
  - kW / kWh column detection, scaling by 1000 and rebasing the cumulative energy to zero.
  - The global savings percentage.
- `Lojas` (`lojas.py`): the per-store file and power tables.

Defrost starts are detected on the merged, time-sorted stream of all systems (`Consumo.py` and `ConsumoStepIn.py` shift the merged frame). A system's first row can therefore count as a start, or fail to, because of another system's last row. `Consumo.CrossSystemPredecessor` exhibits it.

## Model

| member | source | states |
|---|---|---|
| Calendar.Hour | main.py:301-303 | the hour of a timestamp is in 0..23 and is the hour of its day that contains it |
| Calendar.Weekday | main.py:301-303 | the weekday is in 0..6 with Monday as 0 (1970-01-01 is a Thursday) |
| Calendar.WeekPeriodic | main.py:300-304 | one week later the weekday and the hour are the same, so the period masks repeat weekly |
| Cells.ToNumeric | main.py:144 | coercion keeps numbers, turns every other cell into NaN and never yields text |
| Cells.CoercedStatus | main.py:144 | a coerced-then-zero-filled status is the number itself, or 0 for NaN and text |
| Cells.ContainsAt | main.py:86 | the substring test holds exactly when the name occurs at some offset |
| Cells.FirstWhere | main.py:84-88 | the first name satisfying the test, or none exactly when no name does |
| TimeSort.SortByKey | main.py:107 | `sort_index`: the result is ordered by time and is a permutation of the input |
| TimeSort.SortIdempotent | main.py:107 | sorting rows that are already in time order leaves them unchanged |
| TimeSort.SortTwice | main.py:107 | sorting twice is sorting once |
| Edges.Status | main.py:144 | the status column has one coerced, zero-filled value per row |
| Edges.DiffEventIsRisingEdge | main.py:147 | on a 0/1 status, row i is an event iff row i-1 is 0 and row i is 1; the first row never is |
| Edges.DiffCountIsRisingEdges | main.py:147-150 | on a 0/1 status, the event count equals the number of 0-to-1 transitions |
| Edges.DiffNoAdjacentEvents | main.py:147 | on a 0/1 status, two consecutive rows are never both events |
| Edges.DiffFiresOnAnyUnitStep | main.py:147 | `diff() == 1` also fires on a step from 1 to 2, not only on 0 to 1 |
| Edges.ShiftStartCharacterised | Consumo.py:65-66 | row i starts a defrost iff it holds 1 and it is the first row or its predecessor holds 0 or NaN |
| Edges.ShiftRunFiresOnce | Consumo.py:65-66 | inside a run of 1s only the first row can start a defrost |
| Edges.ShiftVersusDiff | Consumo.py:65-66 | on a 0/1/NaN column, the shift rule and the diff rule agree after the first row; their counts differ by whether row 0 holds 1 |
| Edges.EventTimes | main.py:260 | the event index holds one time per flagged row, namely the times of the flagged rows |
| Loader.FindTimeColumn | main.py:84-88 | the loop picks the first column whose name contains "Data" or "Hora", or none exactly when no name does |
| Loader.ValidRows | main.py:92-95 | rows with an unparseable date are dropped; every kept row is a source row with the parsed time, tagged with the file's name, date column removed; every source row whose date parses is kept in that form |
| Loader.ValidRowsCount | main.py:92-95 | each source row whose date parses gives one kept row, so a row occurring twice is kept twice |
| Loader.SkipPolicy | main.py:76-103 | a file is skipped iff it is missing, empty, has no time column, or has no parseable date; kept rows carry its name |
| Loader.LoadedEmpty | main.py:104-106 | nothing is loaded exactly when every file is skipped |
| Loader.ConcatOrigins | main.py:99-107 | every merged row comes from a file that was loaded and carries that file's name |
| Loader.LoadAll | main.py:72-107 | the run stops iff every file is skipped; otherwise the frame is time-sorted, a permutation of the concatenated rows, with the union of the columns |
| Metrics.SavingsPct | main.py:166 | the percentage is 0 when the forecast is 0 |
| Metrics.SavingsPctShare | main.py:165-166 | with a non-zero forecast, the percentage times the forecast is 100 times the saved energy |
| Metrics.CalcMetrics | main.py:135-169 | no "Degelo" column gives all zeros; saved energy is forecast minus actual; events are bounded by the rows |
| Metrics.CountsWithDefrostColumn | main.py:144-162 | 4 cycles a day, the diff event count, forecast 0.75 h times power times cycles, actual 0.75 h times power times events |
| Metrics.SavingsIndependentOfPower | main.py:156-166 | the percentage is 100 (cycles - events) / cycles whatever the heater power |
| Metrics.SavingsRange | main.py:165-166 | it is 100 iff no event, within 0..100 iff events do not exceed cycles, and negative iff they do |
| Metrics.SavingsZero | main.py:166 | it is 0 iff the forecast is 0 or the actual equals the forecast |
| Metrics.NoRowsScenario | main.py:150-166 | a system with no rows in the range shows 100 % savings against a positive forecast |
| Metrics.NullDefrostScenario | main.py:144-150 | an all-NaN defrost column counts no event and shows 100 % savings |
| Metrics.ZeroSignalHasNoEdges | main.py:147 | an all-zero status has no rising edge |
| Metrics.WorkedExample | main.py:135-169 | a one-day 10 kW log with two starts gives 30 kWh forecast, 15 kWh actual, 50 % |
| Thermal.RecoveryBoundaries | main.py:297-298 | the recovery window after a start is open at +45 min and closed at +75 min |
| Thermal.RecoveryMask | main.py:295-298 | a sample is masked iff some defrost start puts it in its recovery window |
| Thermal.PeriodsPartition | main.py:300-304 | every timestamp lies in exactly one of operation, off-hours and weekend |
| Thermal.ForwardFillAt | main.py:253-255 | a filled value is NaN iff everything so far is NaN, keeps present values, and is otherwise the latest earlier present value |
| Thermal.PresentEmpty | main.py:311 | a sample has no present value iff all its values are NaN |
| Thermal.AllHits | main.py:318 | all samples are within tolerance iff the hit count is the sample size; none are iff it is 0 |
| Thermal.ScoreMeaning | main.py:311-323 | N/A iff all samples are NaN; otherwise the score is in 0..100, 100 iff all are within tolerance, 0 iff none are |
| Thermal.Samples | main.py:306-308 | a value is among a period's samples iff some row of that period outside the recovery windows carries it, and it occurs there once per such row |
| Thermal.PeriodsShareSamples | main.py:300-308 | the three periods' sample counts add up to the number of rows outside the recovery windows |
| Thermal.PerformanceTable | main.py:305-323 | one line per period in table order, each the score of that period's unmasked samples |
| Thermal.ScoreSystem | main.py:252-323 | the performance table of a system's rows, every score within 0..100 |
| Dashboard.Arquivos | main.py:34-47 | Bangu configures two systems, Palmas three, any other store none |
| Dashboard.ConfiguredSystemsHavePower | main.py:62-66 | every system a store configures has a power entry |
| Dashboard.EffectiveSelection | main.py:126-127 | a selector rule of the interface: the aggregate entry survives iff it was picked, and then alone; otherwise the selection is kept as it is |
| Dashboard.SelectionNeverRaises | main.py:123-127 | for any pick among the selector's options, either the aggregate view is shown or every remaining system has a power entry |
| Dashboard.Select | main.py:188 | the selection keeps only rows of that system within the date range |
| Dashboard.SelectComplete | main.py:188 | the selection holds rows of the frame only, and every row of that system within the range is among them |
| Dashboard.SelectCount | main.py:188 | each row of that system within the range is kept as often as it occurs in the frame, and no other row is kept |
| Dashboard.SelectSorted | main.py:188 | the selection of a time-sorted frame is time-sorted, so the row-to-row steps the event count reads are those of the system's own rows in time order |
| Dashboard.SelectNone | main.py:188 | a system with no row in the range selects nothing |
| Dashboard.EfficiencyTotals | main.py:187-197 | the loop's totals are the per-system metrics summed over the power table, and the percentage is taken on those sums |
| Dashboard.SumSchedule | main.py:190-196 | systems on the same schedule add 4 cycles a day each and 3 h times the summed power a day |
| Dashboard.SumEvents | main.py:190-196 | the total events are the sum of the per-system counts |
| Dashboard.SumAtRate | main.py:190-196 | at one kWh-per-cycle rate, total actual and forecast are that rate times total events and cycles |
| Dashboard.SumOfNothing | main.py:139-141 | systems that all return zeros add up to zero totals |
| Dashboard.SystemCounts | main.py:188-189 | one system's cycles, forecast, and events (its defrost starts in range) |
| Dashboard.SystemCountsAt | main.py:188-189 | the same for the i-th entry of the power table |
| Dashboard.AllSystemCounts | main.py:187-196 | every entry of the power table is on the schedule and counts its own starts |
| Dashboard.AllAtRate | main.py:187-196 | with one power for all systems, every system's energy is at the same rate per cycle |
| Dashboard.SystemRate | main.py:159-162 | a system's actual and forecast are 0.75 h times power per event and per cycle |
| Dashboard.SystemRateAt | main.py:159-162 | the same for the i-th entry of the power table |
| Dashboard.StartsCounted | main.py:259-260 | the start list of the analysis has as many entries as the metrics count events |
| Dashboard.TotalsWithDefrostColumn | main.py:187-196 | total cycles are 4 a day per system; total events the sum of each system's starts |
| Dashboard.TotalsWithoutDefrostColumn | main.py:139-141 | without a "Degelo" column every total and the percentage are 0 |
| Dashboard.TallyAtRate | main.py:197 | at one rate per cycle the total percentage is 100 (cycles - events) / cycles |
| Dashboard.RateShare | main.py:197 | a percentage of two amounts at one rate depends only on the counts |
| Dashboard.SystemWithoutRows | main.py:188-189 | a system with no rows in range still forecasts its full schedule and counts no event |
| Dashboard.DashboardConfigurationCycles | main.py:187-196 | with the three configured systems, total cycles are 12 a day |
| Dashboard.DashboardConfigurationForecast | main.py:187-196 | with the three 10 kW systems, the total forecast is 90 kWh a day |
| Dashboard.MissingRequired | main.py:246-247 | nothing is missing iff both "Temp ambiente" and "Degelo" are columns |
| Dashboard.AnalyseEnvironment | main.py:235-323 | KeyError iff the system has no power entry; otherwise no data, missing columns, or the three-line table with scores within 0..100 |
| Dashboard.AnalyseSelection | main.py:234-250 | the loop raises iff some selected system has no power entry; otherwise one outcome per system, in order |
| CodigoBase.AggregateMode | deprecated/codigo_base.py:159-173 | with a non-empty power table the first pass raises AttributeError on `empty`; an empty table gives zero totals and 0 % |
| CodigoBase.PanelSystems | deprecated/codigo_base.py:191-196 | a panel is shown exactly for the configured systems with rows in range |
| CodigoBase.PowerLookup | deprecated/codigo_base.py:222-225 | `POTENCIAS.get` finds a power iff the name is a key, and then that power |
| CodigoBase.AnalyseEnvironment | deprecated/codigo_base.py:218-238 | "no power" is reported iff the entry is not the aggregate one and has no power; tables score within 0..100 |
| CodigoBase.AnalyseSelection | deprecated/codigo_base.py:217-238 | the loop never stops; one report per selected entry, in order |
| CodigoBase.AgreesWithDashboard | deprecated/codigo_base.py:217-238 | for a system with a power entry, this loop and `main.py`'s reach the same outcome; without one, `main.py` raises and this one warns |
| DailyStats.SizePerKey | Consumo.py:85 | `size()` has a group for each (system, day) occurring in the input, holding its number of occurrences, at least 1 |
| DailyStats.SizesSumToCount | Consumo.py:85 | a system's group sizes add up to its number of events |
| DailyStats.MeanWithin | Consumo.py:90 | a mean of values in [lo, hi] is in [lo, hi] |
| DailyStats.MeanSkipNaNWithin | Consumo.py:87-91 | a NaN-skipping mean is NaN iff all values are NaN, else within the bounds of the present values |
| DailyStats.MeanPerKeyWithin | Consumo.py:87-91 | every per-day mean lies within the bounds of the values it averages |
| DailyStats.MeanPerDayCountMeaning | Consumo.py:97 | a system's mean defrosts per day is NaN iff it has no event, else its events over its days with events |
| DailyStats.SystemMeanWithin | Consumo.py:98 | a system's mean of daily means stays within the bounds of the raw values |
| LogFrames.CoerceCellsStep | deprecated/ConsumoStepIn.py:78-80 | coercing one column after others is coercing them together |
| LogFrames.FirstFailureWins | deprecated/ConsumoStepIn.py:41-73 | the load fails iff some sheet fails, with the failure of the first failing sheet |
| LogFrames.GatherFrom | deprecated/ConsumoStepIn.py:71-73 | every concatenated row comes from a sheet that loaded |
| LogFrames.GatherFailFrom | deprecated/ConsumoStepIn.py:41-73 | once a sheet fails, the later sheets do not change the outcome |
| LogFrames.LogFrame.constructor | deprecated/ConsumoStepIn.py:75 | the frame starts with the loaded columns and rows and no flag columns |
| LogFrames.LogFrame.CoerceColumn | deprecated/ConsumoStepIn.py:80 | one column is coerced in every row; nothing else changes |
| LogFrames.LogFrame.CoerceColumns | deprecated/ConsumoStepIn.py:78-80 | every listed column that exists is coerced in every row; columns and flags are unchanged |
| LogFrames.LogFrame.MarkStarts | Consumo.py:65-66 | adds the shifted column and the start flags of the whole merged column; the rest is unchanged |
| LogFrames.EventKeys | Consumo.py:68-81 | the keys are exactly the (system, day) of selected start rows |
| LogFrames.EventKeysCount | Consumo.py:81-85 | one key per selected start row, and all of them belong to a selected system |
| LogFrames.CapacityObs | Consumo.py:80-89 | exactly the selected rows whose defrost cell is 0, with their key and capacity (NaN when not a number), each such row once |
| LogFrames.CapacityKeys | Consumo.py:87-91 | a (system, day) has capacity observations iff a selected row of it has defrost 0 |
| LogFrames.CapacityMeans | Consumo.py:87-91 | each group mean is the NaN-skipping mean of the capacities of exactly the rows in that group, once per row |
| Consumo.SourceColumn | Consumo.py:49-54 | the sheet column that the rename maps to a name, or none iff no column does |
| Consumo.Unsupplied | Consumo.py:58 | a kept name is reported missing iff no sheet column is renamed to it |
| Consumo.KeptCells | Consumo.py:58 | the selected row has exactly the kept columns |
| Consumo.KeepColumns | Consumo.py:58 | each row keeps its time and system and is restricted to the kept columns |
| Consumo.SheetRowsShape | Consumo.py:43-58 | a sheet that loads yields rows with the kept columns tagged with its system |
| Consumo.AllRowsShape | Consumo.py:40-60 | every merged row has the kept columns and comes from a configured system |
| Consumo.LoadAndPrepare | Consumo.py:33-60 | no file stops the run; a sheet failure fails it with the first failure; otherwise the kept columns, time-sorted, a permutation of the loaded rows |
| Consumo.SameSelections | Consumo.py:80-92 | frames agreeing on time, system, "Degelo" and "CapComp" give the same events and capacity rows |
| Consumo.Analyse | Consumo.py:65-99 | an empty selection stops the run; a text "CapComp" in a selected row with defrost 0 raises TypeError in the group mean; otherwise the report of the merged frame |
| Consumo.DefrostCounts | Consumo.py:64-85 | the per-day counts are keyed exactly by the days with a selected start, each at least 1, summing to the selected starts |
| Consumo.SummaryDefrostsPerDay | Consumo.py:97 | a system's summary is its events divided by its days with events |
| Consumo.CapacityOutsideDefrost | Consumo.py:87-98 | per-day and summary capacities average only rows with "Degelo" 0 and stay within those rows' bounds |
| Consumo.CapacityPerDay | Consumo.py:87-91 | a day's capacity mean averages the "CapComp" of every selected row of that day with "Degelo" 0, each row once, and nothing else |
| Consumo.CrossSystemPredecessor | Consumo.py:65-81 | a start of one system is hidden by the other system's preceding row in the merged frame |
| ConsumoStepIn.MatchMeaning | deprecated/ConsumoStepIn.py:61 | the match is the first column whose lower-cased name contains the key, or none iff no column does |
| ConsumoStepIn.BuildRename | deprecated/ConsumoStepIn.py:59-64 | the loop builds exactly the rename table or its failure |
| ConsumoStepIn.RenameFailsFrom | deprecated/ConsumoStepIn.py:60-63 | once a key is unmatched the later keys do not change the outcome |
| ConsumoStepIn.RenameFromFailure | deprecated/ConsumoStepIn.py:60-63 | the table is built iff every key matches; otherwise the error names the first unmatched key |
| ConsumoStepIn.RenamedAreResolved | deprecated/ConsumoStepIn.py:59-65 | every renamed column is one that some key matched |
| ConsumoStepIn.RenameFromResolved | deprecated/ConsumoStepIn.py:59-65 | renamed columns are matched ones; with distinct matches each gets its key's new name |
| ConsumoStepIn.LastKeyWins | deprecated/ConsumoStepIn.py:59-64 | a column matched by several keys gets the new name of the last of them |
| ConsumoStepIn.ReadHeader | deprecated/ConsumoStepIn.py:43-65 | the header pass yields the date column and rename table, or the failure |
| ConsumoStepIn.ReadSheet | deprecated/ConsumoStepIn.py:42-71 | one sheet's rows and columns, or its failure |
| ConsumoStepIn.LoadData | deprecated/ConsumoStepIn.py:30-73 | no file stops the run; the first failing sheet fails it; otherwise the union of the columns and the time-sorted rows, a permutation of the loaded ones |
| ConsumoStepIn.Coerced | deprecated/ConsumoStepIn.py:78-80 | the five numeric columns that exist are coerced in every row |
| ConsumoStepIn.SameSelections | deprecated/ConsumoStepIn.py:98-123 | frames agreeing on time, system, both defrost columns and "CapComp1" give the same selections |
| ConsumoStepIn.Analyse | deprecated/ConsumoStepIn.py:77-133 | an empty selection stops; a missing "Degelo1", "CapComp1" or "Degelo2" raises KeyError on the name the code reads; otherwise the report of the coerced frame |
| ConsumoStepIn.MarkEvaporators | deprecated/ConsumoStepIn.py:83-86 | a start flag exists for an evaporator iff its column does, and is the shift rule on it; other cells are unchanged |
| ConsumoStepIn.NaNDefrostIgnored | deprecated/ConsumoStepIn.py:80-107 | a non-numeric defrost cell neither starts a defrost nor counts as outside defrost |
| ConsumoStepIn.CapacityPerDay | deprecated/ConsumoStepIn.py:105-123 | each evaporator's daily capacity mean averages the "CapComp1" of every selected row of that day with its defrost column at 0, each row once |
| ConsumoStepIn.BothEvaporatorsUseCapComp1 | deprecated/ConsumoStepIn.py:106-123 | with identical defrost columns both evaporators report the same capacity, since both read "CapComp1" |
| ConsumoStepIn.SameDefrostColumn | deprecated/ConsumoStepIn.py:106-123 | with identical defrost columns both evaporators select the same capacity rows |
| ConsumoStepIn.EvaporatorCounts | deprecated/ConsumoStepIn.py:100-115 | each evaporator's per-day counts are keyed by the days with its selected starts and sum to them |
| Kwh.WithTimeIndex | deprecated/kWh.py:35 | the first column becomes "DataHora", the others keep their names |
| Kwh.TimeIndexIsNoMeter | deprecated/kWh.py:35-39 | the renamed time column is never taken for the kW or kWh column |
| Kwh.PowerAndEnergyDiffer | deprecated/kWh.py:38-39 | no name is both a power and an energy column |
| Kwh.Samples | deprecated/kWh.py:44-47 | the samples are exactly the rows with a parseable date and numeric kW and kWh, each such row once |
| Kwh.MeterKeys | deprecated/kWh.py:38-41 | no meter columns iff no power name or no energy name; otherwise the power key is the first power-named column and the energy key the first energy-named column of the header |
| Kwh.Loaded | deprecated/kWh.py:47-55 | time-sorted readings labelled with the system, energy rebased so the first is 0 |
| Kwh.LoadFile | deprecated/kWh.py:31-56 | an empty header raises, no kW/kWh raises iff undetected; otherwise sorted, rebased, labelled readings |
| Kwh.LoadFileReadings | deprecated/kWh.py:44-51 | the readings are the valid samples, reordered and divided by 1000 |
| Kwh.UnscaleRebased | deprecated/kWh.py:50-54 | multiplying back by 1000 recovers the sorted samples |
| Kwh.EnergyIsSpan | deprecated/kWh.py:54-65 | a file's energy is its last cumulative reading minus its first |
| Kwh.SavingsPct | deprecated/kWh.py:66 | 0 when the baseline is 0; otherwise the percentage times the baseline is 100 times the saving |
| Kwh.SavingsSign | deprecated/kWh.py:66 | with a positive baseline: positive iff less energy with the controller, 0 iff equal, 100 at no energy, at most 100 |
| Kwh.Compare | deprecated/kWh.py:24-66 | a missing file stops (the first one first); load failures propagate in order; otherwise both energies and the percentage |
| Lojas.LojasSelecionadas | lojas.py:1-28 | Bangu and Palmas get their rooms' files and 10 kW powers; any other store gets `{None: None}`; keys and values are None together |
| Lojas.EntryCounts | lojas.py:4-28 | Bangu lists two entries, Palmas three, any store at least one |
| Lojas.PowerByFileName | lojas.py:5-24 | in Bangu no file key has a power entry; in Palmas every file key has 10 kW |

## Left out

- Reading files, Streamlit widgets, caching, warnings, charts and number formatting are not modelled. A source without a table stands for any read that raised, a missing file included. A run that stops is an `Err` failure carrying its message.
- `pd.to_datetime` is a parameter `parse`, because the model cannot parse dates. `.loc[start_date:end_date]` is a predicate `inRange` on times.
- Floating-point rounding is not modelled, because values are exact reals.
- Timestamps are whole minutes. Seconds in the logs (such as 08:45:30) are dropped, which can move a row across the 45- and 75-minute bounds of a recovery window or across an end of the date range.
- A log cell is a number, text or NaN. `to_numeric(errors="coerce")` is modelled as turning text into NaN, so numeric text is assumed to be parsed by the reader.
- Column names are strings. The `str(c)` of non-string headers is not modelled.
- Duplicate column names are not modelled, because a row is a map from name to cell.
- pandas' `sort_index` is not stable. The model sorts stably, and the loaders promise only time order and a permutation.
- The `Dia` column is `Day(time)` of each row. It is not stored as a column.
- `except Exception` in `load_all` is modelled only for the read itself: a read that raised is a source without a table, which is skipped. Exceptions raised later in the loop body are not modelled.
- Cells.Lower folds only ASCII and Latin-1 capitals, and Cells.Strip removes only ASCII whitespace. Full Unicode case folding and other whitespace (such as U+00A0) in the header steps of ConsumoStepIn and Kwh are not modelled.
- Dashboard.Arquivos: its contract gives the number of systems per store, not their names or file paths. `Dashboard.ConfiguredSystemsHavePower` states the names' relation to the power table.
- Kwh.LoadFile: its contract does not state separately that a file with no valid sample fails. That is pandas' IndexError on `iloc[0]`, modelled as `EmptyIndex`.
- The interactive date picker, the tolerance input and the store picker are not modelled. Their values are parameters.
- The overlay rectangles and the minimum and maximum of the temperature chart (main.py:262-292) are display only, so they are not modelled.
- CodigoBase: the second loop of the aggregate mode (deprecated/codigo_base.py:191-213) is unreachable with a non-empty power table, because the first loop raises. `CodigoBase.PanelSystems` states what it would show.
