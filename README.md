# Streamflow descriptive statistics, modelled in Dafny

This project models the core of `program_10.py`, a script that computes descriptive statistics and hydrologic
metrics for a daily streamflow record from a USGS gauging station. The record is a chronological series of
observations, each a calendar date and a discharge reading that may be missing.

- **Reading** (`ReadData`): counts the missing readings. It then turns every negative reading into a missing one, in place.
- **Clipping** (`ClipData`): keeps the observations dated inside an inclusive window of dates. It also counts the missing readings that remain.
- **Metrics**, each computed after missing readings are dropped:
  - the mean, peak and median flow;
  - Tqmean, the fraction of days whose flow exceeds the mean;
  - the Richards-Baker flashiness index, the path length of the flows over their total;
  - 7Q, the lowest 7-day moving mean;
  - 3xMedian, the number of days above three times the median.
- **Tables**: the record is resampled into water years (`GetAnnualStatistics`) and into calendar months (`GetMonthlyStatistics`).
  - A water year starts on October 1 and is labelled by that October's year.
  - A month starts on day 1.
  - Every period from the first observation's to the last one's gets one row, even a period with no observations.
  - Each row holds the period's first day and the metrics of that period's readings.
- **Averages**:
  - `GetAnnualAverages` averages each column of the water-year table.
  - `GetMonthlyAverages` averages the monthly table by month number, across years.
  - Both skip undefined cells.

Modelling choices:

- **Missing readings**: a missing reading (pandas `NaN`) is `None` in `Option<real>`.
- **Arithmetic**: readings are exact reals.
- **Dates**: a date is a (year, month, day) triple, ordered lexicographically.
- **Records**: a record is a `seq<Obs>`. `ReadData` works in place on an `array` of readings, as the pandas column assignment does.
- **Tables**: the two statistics tables are built by loops, one period at a time.

Behaviour of the library calls that the model follows:

- **Reversed window**: a clip whose start date is after its end date yields an empty record with no missing readings. This is what pandas label slicing on a sorted index does; it does not raise. See `Records.ClipReversedWindow`.
- **Month groups**: the monthly averages have one group per month number that some row of the monthly table starts in. There are not always twelve groups, because `groupby` creates no group for an absent month.
- **Empty periods**: a period with no observations still gets a row. Its undefined metrics are `None`, and its 3xMedian count is 0.

## Model

| member | source | states |
|---|---|---|
| Dates.WaterYear | program_10.py:135 | A real calendar day falls on or after October 1 of its water-year label and before October 1 of the next label, as the `AS-OCT` bins |
| Dates.WaterYearStart | program_10.py:135 | October 1 of year y is a real calendar day and lies in water year y |
| Dates.MonthIndex | program_10.py:162 | The month index of a real calendar day gives back its year and its month, as the `MS` bins |
| Dates.MonthStart | program_10.py:162 | Day 1 of month k is a real calendar day and lies in month k |
| Dates.WaterYearIsInterval | program_10.py:135 | A valid day lies in water year y exactly when it falls from October 1 of y up to, but not including, October 1 of y + 1 |
| Dates.MonthIndexIsInterval | program_10.py:162 | A valid day lies in month k exactly when it falls from day 1 of k up to, but not including, day 1 of k + 1 |
| Dates.WaterYearMonotone | program_10.py:135 | A later day never lies in an earlier water year |
| Dates.MonthIndexMonotone | program_10.py:162 | A later valid day never lies in an earlier month |
| Flows.Present | program_10.py:65 | Dropping missing readings keeps every defined reading, keeps nothing else, and never lengthens the record |
| Flows.CountMissing | program_10.py:37 | Missing plus defined readings make up the whole record, and the count is zero exactly when every reading is defined |
| Flows.PresentAppend | program_10.py:65 | Dropping missing readings commutes with concatenating records |
| Flows.SkipMissing | program_10.py:65 | Inserting a missing day anywhere leaves the filtered readings unchanged |
| Flows.SumAppend | program_10.py:86 | The total of two records laid end to end is the sum of their totals |
| Flows.Minimum | program_10.py:104 | The minimum is one of the values and no value is below it |
| Flows.Maximum | program_10.py:141 | The maximum (Peak Flow) is one of the values and no value exceeds it |
| Flows.Peak | program_10.py:141 | Peak Flow is undefined exactly when every reading is missing; otherwise it is one of the readings and no present reading exceeds it |
| Flows.AverageBounds | program_10.py:140 | The average of a non-empty record lies between its minimum and maximum |
| Flows.Mean | program_10.py:140 | Mean Flow is undefined exactly when every reading is missing, and otherwise lies between the smallest and largest present reading |
| Flows.MeanOfOne | program_10.py:180 | The mean of a single entry is that entry, defined or not |
| Flows.SumPermutation | program_10.py:140 | Rearranging values does not change their total |
| Flows.MeanPermutation | program_10.py:189 | The skip-missing mean does not depend on the order of the entries |
| Flows.CountAbove | program_10.py:67 | The number of values above a threshold is at most the number of values |
| Flows.CountAboveAppend | program_10.py:67 | Counting above a threshold adds up over concatenation |
| Records.Scrubbed | program_10.py:40 | Afterwards no reading is negative, every negative reading is missing, and every other reading is unchanged |
| Records.ReadData | program_10.py:37-40 | Returns the number of missing readings before scrubbing, and leaves the array holding the scrubbed readings |
| Records.ScrubbedMissing | program_10.py:37-40 | After scrubbing, the missing count is the returned count plus the number of negative readings: the count is taken too early to include them |
| Records.ScrubbedIdempotent | program_10.py:40 | Scrubbing twice is the same as scrubbing once |
| Records.Clip | program_10.py:50 | The clipped record holds exactly the observations dated within the inclusive window, and no more of them than the record holds |
| Records.ClipData | program_10.py:44-54 | Returns the clipped record and its missing count, which is at most its length |
| Records.ClipIsSlice | program_10.py:50 | On a chronological record the clip is one contiguous slice, whose indices are exactly those of the days inside the window |
| Records.ClipReversedWindow | program_10.py:50-52 | A window whose start is after its end yields the empty record with 0 missing |
| Metrics.Sort | program_10.py:119 | Sorting yields an ascending sequence of the same length |
| Metrics.SortPermutes | program_10.py:119 | Sorting yields a permutation of its input |
| Metrics.CountAboveSort | program_10.py:119 | Sorting does not change how many values exceed a threshold |
| Metrics.Median | program_10.py:142 | Median Flow is undefined exactly when every reading is missing, and otherwise lies between the smallest and largest present reading |
| Metrics.MedianBounds | program_10.py:142 | The median lies between the minimum and maximum, and is at least the lower middle of the sorted values |
| Metrics.Tqmean | program_10.py:64-67 | Tqmean is undefined exactly when no reading is present, and otherwise is a fraction in [0, 1] |
| Metrics.TqmeanBelowOne | program_10.py:67 | Not every reading can exceed the mean, so a defined Tqmean is below 1 |
| Metrics.TqmeanZeroIffConstant | program_10.py:67 | Tqmean is 0 exactly when all present readings are equal |
| Metrics.PathLength | program_10.py:82-84 | The sum of absolute day-to-day changes is never negative |
| Metrics.RBIndex | program_10.py:79-89 | The index is defined and non-negative whenever the readings' total is positive, and undefined when no reading is present |
| Metrics.ZeroSumFlat | program_10.py:86 | Non-negative readings have a non-negative total, which is zero exactly when all readings are zero; then the path length is zero too |
| Metrics.RBIndexOnCleanRecord | program_10.py:79-89 | On a scrubbed (non-negative) record, the index is undefined exactly when every present reading is 0, and otherwise non-negative |
| Metrics.RBIndexConstant | program_10.py:79-89 | A steady positive flow has index 0 |
| Metrics.WindowSlide | program_10.py:104 | Each next 7-day window mean is the previous one plus the entering reading less the leaving one, over 7 |
| Metrics.SevenQ | program_10.py:101-104 | 7Q is undefined exactly when fewer than seven readings are present; otherwise it is the mean of some 7-day window and no window mean is lower |
| Metrics.SevenQBounds | program_10.py:104 | A defined 7Q lies between the smallest and largest present reading |
| Metrics.Exceed3xMedian | program_10.py:116-121 | The count of days above three times the median is at most the number of present readings |
| Metrics.Exceed3xMedianAtMostHalf | program_10.py:116-121 | On a non-negative record, at most half the present readings exceed three times the median |
| Metrics.HalfAboveTripleMedian | program_10.py:119 | For non-negative values, at most half of them exceed three times their median |
| Metrics.MeanSkipsMissing | program_10.py:140 | A missing day does not change the mean |
| Metrics.PeakSkipsMissing | program_10.py:141 | A missing day does not change the peak |
| Metrics.MedianSkipsMissing | program_10.py:142 | A missing day does not change the median |
| Metrics.TqmeanSkipsMissing | program_10.py:65 | A missing day does not change Tqmean |
| Metrics.RBIndexSkipsMissing | program_10.py:80 | A missing day does not change the flashiness index; its neighbours become one step |
| Metrics.SevenQSkipsMissing | program_10.py:102 | A missing day does not change 7Q |
| Metrics.Exceed3xMedianSkipsMissing | program_10.py:117 | A missing day does not change the 3xMedian count |
| Periods.PeriodStart | program_10.py:135 | The first day of the period with a given label is a valid day carrying that label |
| Periods.PeriodIsInterval | program_10.py:135 | A period is the half-open date interval from its first day to the next period's first day |
| Periods.PeriodMonotone | program_10.py:162 | Later days never fall in earlier periods, for water years and months alike |
| Periods.FlowsIn | program_10.py:140 | A period holds no more readings than the record |
| Periods.FlowsInMembers | program_10.py:140 | A period holds the reading of every day dated inside it, and only such readings |
| Periods.PeriodsFrom | program_10.py:135 | A run of n periods has consecutive labels, each holding its own days' readings |
| Periods.Span | program_10.py:135 | The label range is non-empty and covers every observation's period |
| Periods.SpanTight | program_10.py:135 | Both ends of the label range hold an observation |
| Periods.Partition | program_10.py:135 | The resampled periods are empty only for an empty record, have consecutive labels, and each holds exactly its days' readings |
| Periods.TileFrom | program_10.py:135-149 | Consecutive periods covering all labels of a chronological record, read one after another, give back its discharge column |
| Periods.PartitionTiles | program_10.py:135-149 | Concatenating the periods of a chronological record gives back its discharge column, in order and with nothing added or lost |
| Periods.ExactlyOnePeriod | program_10.py:135 | Every observation falls in exactly one period of the partition |
| Periods.PartitionSpan | program_10.py:135 | On a chronological record the periods run from the first day's label to the last day's, one per label |
| Statistics.AnnualRowOf | program_10.py:139-149 | A water-year row starts on the year's October 1. Its mean is undefined exactly when all readings are missing, its 3xMedian count is at most the number of readings, and its 7Q is undefined exactly when fewer than seven readings are present |
| Statistics.MonthlyRowOf | program_10.py:165-170 | A monthly row starts on day 1 of its month. Its mean is undefined exactly when all readings are missing, and its Tqmean exactly when none is present |
| Statistics.FillRows | program_10.py:136-149 | The table has one row per period, and row k is the row of period k |
| Statistics.GetAnnualStatistics | program_10.py:125-151 | One row per water year of the partition, in order, each holding that year's statistics |
| Statistics.GetMonthlyStatistics | program_10.py:153-172 | One row per month of the partition, in order, each holding that month's statistics |
| Statistics.AnnualRowsConsecutive | program_10.py:135 | Row k of the water-year table starts on October 1, k years after the first row |
| Statistics.MonthlyRowsIncreasing | program_10.py:162 | The monthly rows start on strictly increasing dates |
| Summary.AnnualAverages | program_10.py:180 | The averages have one entry for each numeric column of the table |
| Summary.AnnualAveragesSkipUndefined | program_10.py:180 | A column's average is undefined exactly when every cell of the column is undefined, and otherwise lies between its smallest and largest defined cell |
| Summary.Exceed3xMedianAverageDefined | program_10.py:180 | The 3xMedian column is a count, so its average is defined on any non-empty table |
| Summary.AnnualAveragesOneRow | program_10.py:180 | The averages of a one-row table are that row's cells |
| Summary.RowsInMonth | program_10.py:189 | The rows of month m are those table rows that start in month m, whatever their year, and there are no more of them than rows in the table |
| Summary.RowsInMonthCounts | program_10.py:189 | The rows of month m hold every table row that starts in month m as many times as the table holds it, and no other row |
| Summary.ColumnMeans | program_10.py:189 | A group's averages have one entry for each numeric column of the monthly table |
| Summary.MonthsFrom | program_10.py:189 | Returns, in strictly increasing order, exactly the month numbers from m to 12 that some row starts in |
| Summary.MonthlyAverages | program_10.py:183-190 | The groups have month numbers in 1..12, strictly increasing, exactly one for each month number some row starts in |
| Summary.MonthGroupsPresent | program_10.py:189 | A month has a group exactly when some row of the table starts in that month |
| Summary.MonthGroupAnyOrder | program_10.py:189 | A group's average of a column is the mean of that column over the rows of its month, each counted as often as the table holds it, whatever order they are taken in |
| Summary.MonthGroupSkipsUndefined | program_10.py:189 | A group's average is undefined exactly when every cell of its month's rows is undefined |
| Scenarios.RisingDays | program_10.py:64-67 | On the flows 1, 2, ..., 2n the mean is n + 1/2 and Tqmean is exactly 1/2 |
| Scenarios.TenRisingDays | program_10.py:64-67 | On the flows 1 to 10 the mean is 5.5 and Tqmean is 0.5 |
| Scenarios.GapJoinsNeighbours | program_10.py:79-89 | For the readings 1, missing, 5, the index is 4/6: the gap joins its neighbours into one step |
| Scenarios.SteadyFlow | program_10.py:79-89 | Four days of flow 10 have index 0 |
| Scenarios.SevenQTwoWindows | program_10.py:104 | With eight present readings and two equal window means, 7Q is that mean |
| Scenarios.SevenQCanExceedMean | program_10.py:101-104 | On 0, m, m, m, m, m, m, 0 with m > 0, 7Q is 6m/7, above the mean 6m/8: 7Q is not bounded by the mean |

## Left out

- Reading the file (`pd.read_csv`, the `'Eqp'` flag, the column names, program_10.py:27-34) is I/O and is not modelled. The record arrives already parsed as dated readings, with unreadable values already missing.
- The script's driver (program_10.py:196 onward) is not modelled. It reads two station files, clips them, prints and writes the tables. That is file I/O and output formatting.
- The `site_no` column is left out of both tables. It is the mean of a constant station number.
- The `Coeff Var` column is left out of both tables. It is a floating-point standard deviation over a mean.
- The `Skew` column is left out of the water-year table. It is `scipy.stats.skew`, a foreign floating-point routine.
- Floating-point rounding is not modelled: readings are exact reals, so sums and means carry no rounding error.
- Metrics.RBIndex: a positive path length over a zero total (an infinity in pandas) is merged with the undefined case into `None`. `Metrics.RBIndexOnCleanRecord` shows this cannot happen on a scrubbed record.
- Metrics.SevenQ: no bound by the period mean is stated, because none holds (`Scenarios.SevenQCanExceedMean`).
- Statistics.GetAnnualStatistics: the script fills the table column by column. The model fills it row by row. The resulting table is the same.
- Statistics.GetMonthlyStatistics: the same column-by-column versus row-by-row difference as the annual table.
- Clipping works on sequence values. The in-place reassignment of the data frame is not modelled, because nothing else observes it.
