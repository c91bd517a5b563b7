# kmlb_pressure: monthly KMLB barometer ingest, modelled in Dafny

`munge/get_kmlb_data.py` is the monthly ingest of one-minute ASOS
observations for station KMLB (Melbourne, Florida). Each run does the
following:

1. Picks the month after the last row of the processed-months ledger.
2. Fetches that month's fixed-width file.
3. Parses the `DateTime` field. If the inferred split does not convert, the
   whole file is re-read at fixed character columns.
4. Shifts the index from EST to UTC.
5. Coerces the three barometer columns (`Pres1`–`Pres3`, inches of mercury)
   to numbers.
6. Keeps the first row for each instant and resamples onto a five-minute grid.
7. Derives station pressure and sea-level pressure in pascals.
8. Merges the month into the cumulative archive. The archive's rows win when
   instants collide.
9. Appends the month to the ledger.

The model covers each of these steps:

- `calendar.dfy`: the proleptic Gregorian calendar of Python's `datetime`. It
  covers month lengths, adding days, and day ordinals.
- `month_sequencer.dfy`: `get_next_month`. It adds five weeks to the first of
  the month and renders the month as two characters.
- `text.dfy`: the string work. This covers Python slicing with clamping,
  stripping, decimal digits, `str`/`int` of naturals, and plain decimal
  number tokens.
- `record_parser.dfy` covers:
  - the 12-digit timestamp tokens and `pd.to_datetime` over a column, which
    converts every token or raises;
  - the two readers (the inferred split and the `[13,25)`, `[70,76)`,
    `[78,84)`, `[86,92)` fixed columns);
  - the fixed −5 h EST offset;
  - the per-column coercion to numbers.

  The in-place part of the script is the class `ObsFrame`. It holds the index
  and the columns, and its methods shift and coerce them. The method
  `LoadObservations` is proved equal to the pure specification
  `Observations`.
- `series.dfy`: frames as sequences of stamped rows. It covers lookup of the
  first row at an instant, and `index.duplicated(keep='first')`.
- `normalizer.dfy` covers:
  - `asfreq('5Min')`;
  - the row mean with `skipna=False`;
  - the factor 3386.38816 Pa/inHg and the +200 Pa sea-level correction.
- `archive.dfy` covers:
  - the archive merge, which concatenates and keeps the first row per
    instant with no re-sort;
  - the ledger of processed months, the class `MonthLedger`.
- `pipeline.dfy`: one run of the script. The function `Attempt` gives the
  outcome a run reaches from a ledger and a download. The class `Station`
  holds the archive and the ledger; its method `IngestNext` reaches that
  outcome and updates both.

Instants are whole minutes: `(ordinal * 24 + hour) * 60 + minute`. The
ordinal is that of Python's `date.toordinal`. Missing values (NaN) and
exceptions are `Option`/`Result` values.

The code's behaviour on four points:

- Pressure is the row mean with `skipna=False` (line 67). One missing reading
  makes the pressure missing. It is not the mean of the readings that are
  present.
- The merged archive is not re-sorted (lines 93-94). A batch earlier than the
  archive is placed after it; `Archive.MergeKeepsConcatOrder` shows this.
- Three readings of 29.92 inHg give exactly 101320.7337472 Pa, and
  101520.7337472 Pa at sea level.
- The five-minute grid runs from the first row's instant to the last row's.
  This is the behaviour of the pandas of the script's time.

## Model

| member | source | states |
|---|---|---|
| Calendar.AddDaysOrdinal | munge/get_kmlb_data.py:12 | adding n days to a date adds exactly n to its day ordinal, as `datetime + timedelta` does |
| Calendar.FiveWeeksLandsInNextMonth | munge/get_kmlb_data.py:12 | 35 days after the first of any month is a day (5 to 8) of the following month, never later and never the same month |
| MonthSequencer.NextMonth | munge/get_kmlb_data.py:12 | a successful step yields a year in 1..9999 and a month in 1..12 |
| MonthSequencer.NextMonthIsFollowing | munge/get_kmlb_data.py:11-18 | the step yields exactly the calendar-following month; it fails exactly for an out-of-range year or month (ValueError) and for December 9999 (OverflowError) |
| MonthSequencer.MonthStringIsTwoDigits | munge/get_kmlb_data.py:14-17 | every month 1..12 renders as exactly two digits, zero-padded, that `int()` reads back as the month |
| MonthSequencer.GetNextMonthReadsBack | munge/get_kmlb_data.py:13-17 | the year and month strings read back with `int()` as the following month's numbers; the month string has two characters |
| MonthSequencer.DecemberRollsOver | munge/get_kmlb_data.py:11-18 | (2023, 12) gives ("2024", "01") |
| MonthSequencer.JanuaryAdvances | munge/get_kmlb_data.py:11-18 | (2023, 1) gives ("2023", "02") |
| Text.DecimalStringRoundTrip | munge/get_kmlb_data.py:13 | `str` of a natural reads back with `int()` as that natural |
| Text.ParseNat | munge/get_kmlb_data.py:101 | `int()` of an unsigned digit string: it reads a number exactly when the string is a non-empty run of digits, and that number is below 10^width and written back at the string's width is the string, which pins it to the value the digits denote |
| Text.ParseNatOfDigits | munge/get_kmlb_data.py:101 | `int()` of a natural written zero-padded at any width it fits in reads back that natural, as line 101 reads the strings of lines 13-17 |
| Text.Slice | munge/get_kmlb_data.py:46 | Python slicing `s[i:j]` with both bounds clamped to the string: its length is the clamped span and each character is the corresponding one of `s` |
| Text.Strip | munge/get_kmlb_data.py:50-52 | stripping a fixed-width field removes only padding: the result is a run of the field with nothing but padding before and after it, has no padding at either end, and a field without end padding is unchanged |
| Text.ParseDecimalRejects | munge/get_kmlb_data.py:60 | a token holding any character that cannot occur in a decimal number coerces to missing |
| Text.ParseDecimalOfDigits | munge/get_kmlb_data.py:60 | digits, a point and fraction digits read as exactly whole + frac / 10^width |
| Text.ScaledIsQuotient | munge/get_kmlb_data.py:60 | moving the decimal point w places left divides by 10^w |
| RecordParser.ParseRenderStamp | munge/get_kmlb_data.py:46 | every valid minute rendered as YYYYMMDDHHMM parses back to that stamp and its instant |
| RecordParser.RenderParseStamp | munge/get_kmlb_data.py:46 | every token that parses is the rendering of the stamp it parses to |
| RecordParser.ToDatetime | munge/get_kmlb_data.py:46 | the column converts exactly when every token converts, and then each index entry is its token's instant |
| RecordParser.Extract | munge/get_kmlb_data.py:45-53 | every frame produced has three pressure columns as long as its index |
| RecordParser.ExtractFallsBackOnce | munge/get_kmlb_data.py:45-53 | the inferred split is used exactly when all its timestamps convert; the fixed-column re-read is used exactly when they do not and its own do; the run fails exactly when both fail; the index holds the chosen tokens' instants; the columns are the inferred cells, or the fields at [70, 76), [78, 84), [86, 92) of the re-read |
| RecordParser.InferredKeepsCells | munge/get_kmlb_data.py:42 | with the inferred split, every row keeps its three pressure cells |
| RecordParser.FallbackReadsFixedColumns | munge/get_kmlb_data.py:48-53 | a file whose inferred stamps fail but whose lines carry valid stamps at [13, 25) is read by the fallback, with exactly those instants, and each pressure cell is the stripped field of its line at [70, 76), [78, 84) or [86, 92), missing when blank |
| RecordParser.FixedStampField | munge/get_kmlb_data.py:51-53 | a rendered stamp at characters [13, 25) converts to its instant |
| RecordParser.FixedPressureField | munge/get_kmlb_data.py:50-60 | a reading written as digits, a point and decimals filling characters [70, 76) is coerced to exactly that number |
| RecordParser.PointNumberField | munge/get_kmlb_data.py:50-60 | any fixed-width field filled exactly by digits, a point and decimals is coerced to exactly that number |
| RecordParser.ObservationsKeepOrder | munge/get_kmlb_data.py:54-55 | after the shift to UTC the records are sorted exactly when the local index is, and free of repeated instants exactly when it is |
| RecordParser.CoerceCell | munge/get_kmlb_data.py:60 | coercion never leaves text and never fails; numbers and blanks stay, a token becomes a number exactly when it parses, with its parsed value |
| RecordParser.CoerceColumn | munge/get_kmlb_data.py:60 | the coerced column is all numbers or missing, cell by cell the coercion of the input |
| RecordParser.CoerceFloatColumnIsIdentity | munge/get_kmlb_data.py:59 | skipping the coercion of a float64 column changes nothing |
| RecordParser.ObservationReadings | munge/get_kmlb_data.py:58-60 | each reading of a record is the cell's number, missing for a blank, the parsed token otherwise |
| RecordParser.ObsFrame.constructor | munge/get_kmlb_data.py:54 | the frame holds the parsed index and columns |
| RecordParser.ObsFrame.LocalizeToUtc | munge/get_kmlb_data.py:55 | every index entry moves from EST to UTC; columns untouched |
| RecordParser.ObsFrame.CoercePressures | munge/get_kmlb_data.py:58-60 | after the loop every pressure column is its coercion, whether it was converted or skipped as float64; the index is untouched |
| RecordParser.LoadObservations | munge/get_kmlb_data.py:54-60 | the in-place steps produce exactly the records `Observations` specifies |
| Series.DedupKeepsFirst | munge/get_kmlb_data.py:63 | dropping duplicates keeps exactly the rows that are the first with their stamp, in input order; so no instant twice, no instant lost, and each instant's first values |
| Series.DedupIsFirstRows | munge/get_kmlb_data.py:63 | dropping duplicates agrees, prefix by prefix, with selecting by position each row no earlier row shares a stamp with |
| Series.DedupAfterAppend | munge/get_kmlb_data.py:94 | deduplicating a concatenation deduplicates the first part, then the second less the first part's instants |
| Series.DedupIdempotent | munge/get_kmlb_data.py:63 | dropping duplicates twice is dropping them once |
| Series.FirstReadingWins | munge/get_kmlb_data.py:63 | of two rows at one instant the first is kept |
| Normalizer.AsFreqGrid | munge/get_kmlb_data.py:63 | the grid runs from the first instant in 5-minute steps, the last slot at most 5 minutes before the last instant, each slot holding the readings stamped exactly then or none |
| Normalizer.AsFreqIncreasing | munge/get_kmlb_data.py:63 | the grid's instants strictly increase |
| Normalizer.AsFreqOnlyGridStamps | munge/get_kmlb_data.py:63 | every grid instant lies between the first and last instants, a multiple of 5 minutes from the first |
| Normalizer.AsFreqFillsGridStamps | munge/get_kmlb_data.py:63 | every such instant has its slot, with the readings stamped then or none |
| Normalizer.GridOfSeventeenMinutes | munge/get_kmlb_data.py:63 | readings at T and T+17 give slots T, T+5, T+10, T+15, all but the first empty |
| Normalizer.SumNoSkipMissing | munge/get_kmlb_data.py:67 | the row sum is missing exactly when one of its values is |
| Normalizer.DeriveSpec | munge/get_kmlb_data.py:67-68 | pressure is missing exactly when any of the three readings is, else their mean × 3386.38816; MSLP is missing exactly when pressure is, else pressure + 200 |
| Normalizer.StandardPressure | munge/get_kmlb_data.py:67-68 | three readings of 29.92 inHg give 101320.7337472 Pa and MSLP 101520.7337472 Pa |
| Normalizer.NormalizeSpec | munge/get_kmlb_data.py:63-71 | the month's batch is empty for no observations; otherwise a strictly increasing 5-minute grid from the first observation to the last surviving one, each slot derived from the first observation at that instant or missing |
| Archive.Unseen | munge/get_kmlb_data.py:94 | the rows kept are exactly those whose instants are not yet seen |
| Archive.MergeAppendsUnseen | munge/get_kmlb_data.py:93-94 | the merged archive is the old archive unchanged, followed by the batch rows at new instants, in batch order |
| Archive.MergeArchiveWins | munge/get_kmlb_data.py:93-94 | the merge has no instant twice, every instant of both inputs, and the archive's row wherever both have one |
| Archive.MergeOfKnownMonthIsNoOp | munge/get_kmlb_data.py:91-94 | re-processing a month already in the archive leaves the archive as it was |
| Archive.MergeTwiceIsMergeOnce | munge/get_kmlb_data.py:93-94 | merging the same batch twice is merging it once |
| Archive.MergeOfLaterBatchStaysSorted | munge/get_kmlb_data.py:93-94 | a sorted archive followed by a sorted, entirely later batch stays sorted and loses nothing |
| Archive.MergeKeepsConcatOrder | munge/get_kmlb_data.py:93-94 | the merge does not re-sort: an earlier batch ends up after the archive |
| Archive.AppendFollowingKeepsAscending | munge/get_kmlb_data.py:101 | appending the month after the last keeps the ledger strictly ascending, one month further |
| Archive.MonthLedger.Last | munge/get_kmlb_data.py:22-23 | the last ledger row, or none exactly when the ledger is empty |
| Archive.MonthLedger.Append | munge/get_kmlb_data.py:101 | exactly one (year, month) row is added at the end; earlier rows are untouched |
| Pipeline.AttemptOutcomes | munge/get_kmlb_data.py:21-60 | with `next` the strings get_next_month builds from the ledger's last row: the run fails on an empty ledger; it fails on the month exactly when that row is out of datetime's range or is December 9999; it reports `next` unavailable exactly when its download fails; it fails on the file exactly when neither the inferred split nor the fixed-column re-read converts; otherwise it ingests `next`, whose strings `int()` reads back as the calendar month after the last row, with the normalised observations of the file |
| Pipeline.NextLedgerRow | munge/get_kmlb_data.py:101 | the row appended, `int()` of get_next_month's strings, is the month after the ledger's last, and an ascending ledger stays ascending with it |
| Pipeline.Station.constructor | munge/get_kmlb_data.py:21 | a station starts from an archive without repeated instants and an ascending ledger, and is valid |
| Pipeline.Station.Record | munge/get_kmlb_data.py:93-101 | the archive becomes the merge of the batch, with no instant twice, the ledger gains exactly the month after its last, and a valid station stays valid |
| Pipeline.Station.AdvanceLedger | munge/get_kmlb_data.py:101 | the ledger gains exactly the month after its last row and stays ascending if it was |
| Pipeline.Station.IngestNext | munge/get_kmlb_data.py:21-101 | the run's outcome is the one `AttemptOutcomes` characterises for the ledger's last row and the download; only an ingest changes the state: the archive becomes the merge of the normalised batch (no instant twice) and the ledger gains exactly the following month; a valid station stays valid |

## Left out

- The FTP download is a `fetch` parameter of `IngestNext`. Its failure is `NotAvailable`.
- The second download at line 50, made outside any `try`, is not modelled as its own download: the fixed-column re-read reads the lines of the single fetched file. The model does not capture that download failing (a crash rather than the not-available exit) or returning different content.
- `read_fwf` column inference is taken as given: `SourceFile.primary` is its split, already reduced to `DateTime`, `Pres1`–`Pres3`.
- The messages printed (lines 25, 37, 40, 49, 75, 81-82) are not modelled.
- The program exit on an unavailable month is not modelled.
- CSV I/O is not modelled: reading and writing `processed_months.csv`, the monthly `KMLB<yyyymm>.csv` and `KMLB_all.csv`.
- Output formatting is not modelled: `%d-%b-%Y %H:%M:%S`, `%.6f` and the `999999` missing-value marker. The archive is held with exact values, so the 6-decimal rounding the CSV applies to archive rows, and the reading of a true 999999 as missing, are not captured.
- The backup copy of the archive (line 83) is not modelled.
- The git commit and push (lines 104-113) are not modelled. The file list at line 108 names the backup twice and never the updated `KMLB_all.csv`.
- Time-zone data is reduced to the fixed EST offset of 300 minutes. `tz_localize('EST')` has no daylight saving.
- Readings are exact reals, not IEEE doubles. The rounding of the mean and the factor is not captured.
- RecordParser.ToDatetime: accepts only 12-digit `YYYYMMDDHHMM` tokens. `pd.to_datetime` accepts many more formats. Empty fields, which pandas turns into NaT, count as conversion failures.
- RecordParser.ParseStamp: does not model pandas' timestamp bounds (years 1677–2262).
- Text.ParseNat: accepts only unsigned digit strings. Python's `int()` also reads a sign, surrounding blanks and `_` separators; the strings it parses here (line 101) are the digit strings get_next_month builds.
- Text.ParseDecimal: accepts only plain decimal notation with an optional sign. `pd.to_numeric` also reads exponents, `inf`, `nan` and surrounding blanks.
- Normalizer.AsFreq: the grid runs from the first row's instant to the last row's. Newer pandas uses the minimum and maximum instead; the two agree on time-ordered files.
- Pipeline.Station.IngestNext: states the archive and ledger after a run, not the files written. The monthly extract is returned as `extract`.
