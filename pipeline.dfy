/** One run of the monthly ingest: pick the month after the ledger's last,
    fetch and parse its file, normalise it, merge it into the archive and
    record the month. Everything the run keeps between invocations is the
    archive and the ledger; both change only when the run gets through. */
module Pipeline {
  import opened Wrappers
  import opened Text
  import opened Calendar
  import opened MonthSequencer
  import opened RecordParser
  import opened Series
  import opened Normalizer
  import opened Archive

  datatype Failure =
    | EmptyLedger     // no last row to continue from
    | InvalidMonth    // datetime rejects the last row, or its successor
    | CannotParse     // the fixed-column conversion raised too

  datatype Outcome =
    | Ingested(year: string, month: string, extract: seq<Row>)
    | NotAvailable(year: string, month: string)
    | Failed(reason: Failure)

  /** The batch a fetched file yields: parse, shift to UTC, coerce, and
      normalise. */
  function Batch(src: SourceFile): Result<seq<Row>, ParseError>
  {
    match Extract(src)
    case Err(e) => Err(e)
    case Ok(raw) => Ok(Normalize(Observations(raw)))
  }

  /** What one run does with a ledger and a download: the outcome the module
      body reaches. */
  function Attempt(rows: seq<(int, int)>, fetch: (string, string) -> Option<SourceFile>): Outcome
  {
    if rows == [] then Failed(EmptyLedger)
    else
      var last := rows[|rows| - 1];
      match GetNextMonth(last.0, last.1)
      case None => Failed(InvalidMonth)
      case Some((year, month)) =>
        match fetch(year, month)
        case None => NotAvailable(year, month)
        case Some(src) =>
          match Batch(src)
          case Err(_) => Failed(CannotParse)
          case Ok(extract) => Ingested(year, month, extract)
  }

  /** What the outcome of a run says about its inputs. With `next` the
      strings get_next_month builds from the ledger's last row: the run
      fails on an empty ledger; it fails on the month exactly when that row
      is out of datetime's range or is December 9999; it reports `next`
      unavailable exactly when its download fails; it fails on the file
      exactly when neither the inferred split nor the fixed-column re-read
      converts; otherwise it ingests `next`, whose strings `int()` reads back
      as the calendar month after the last row, with the normalised
      observations of the file. */
  lemma AttemptOutcomes(rows: seq<(int, int)>, fetch: (string, string) -> Option<SourceFile>)
    ensures rows == [] ==> Attempt(rows, fetch) == Failed(EmptyLedger)
    ensures rows != [] ==>
      var outcome, last := Attempt(rows, fetch), rows[|rows| - 1];
      var next := GetNextMonth(last.0, last.1);
      && (outcome == Failed(InvalidMonth) <==>
            !(1 <= last.0 <= MAX_YEAR && 1 <= last.1 <= 12 && !(last.0 == MAX_YEAR && last.1 == 12)))
      && (outcome.NotAvailable? <==> next.Some? && fetch(next.value.0, next.value.1).None?)
      && (outcome == Failed(CannotParse) <==>
            next.Some? && fetch(next.value.0, next.value.1).Some?
            && !AllConvert(PrimaryTokens(fetch(next.value.0, next.value.1).value.primary))
            && !AllConvert(FixedTokens(fetch(next.value.0, next.value.1).value.lines, STAMP_COLUMNS)))
      && (outcome.Ingested? <==>
            next.Some? && fetch(next.value.0, next.value.1).Some?
            && (AllConvert(PrimaryTokens(fetch(next.value.0, next.value.1).value.primary))
                || AllConvert(FixedTokens(fetch(next.value.0, next.value.1).value.lines, STAMP_COLUMNS))))
      && ((outcome.NotAvailable? || outcome.Ingested?) ==>
            && next == Some((outcome.year, outcome.month))
            && ParseNat(outcome.year) == Some(FollowingMonth(last.0, last.1).0)
            && ParseNat(outcome.month) == Some(FollowingMonth(last.0, last.1).1)
            && |outcome.month| == 2)
      && (outcome.Ingested? ==>
            var src := fetch(outcome.year, outcome.month).value;
            Extract(src).Ok? && outcome.extract == Normalize(Observations(Extract(src).value)))
  {
    if rows != [] {
      var last := rows[|rows| - 1];
      NextMonthIsFollowing(last.0, last.1);
      if 1 <= last.0 <= MAX_YEAR && 1 <= last.1 <= 12 && !(last.0 == MAX_YEAR && last.1 == 12) {
        GetNextMonthReadsBack(last.0, last.1);
        var (year, month) := GetNextMonth(last.0, last.1).value;
        if fetch(year, month).Some? {
          ExtractFallsBackOnce(fetch(year, month).value);
        }
      }
    }
  }

  /** The row line 101 appends, `int()` of get_next_month's strings, is the
      month after the ledger's last, and keeps an ascending ledger
      ascending. */
  lemma NextLedgerRow(rows: seq<(int, int)>, yr: int, mo: int, year: string, month: string)
    requires rows != [] && rows[|rows| - 1] == (yr, mo)
    requires GetNextMonth(yr, mo) == Some((year, month))
    ensures ParseNat(year).Some? && ParseNat(month).Some?
    ensures (ParseNat(year).value, ParseNat(month).value) == FollowingMonth(yr, mo)
    ensures Ascending(rows) ==> Ascending(rows + [FollowingMonth(yr, mo)])
  {
    NextMonthIsFollowing(yr, mo);
    GetNextMonthReadsBack(yr, mo);
    if Ascending(rows) {
      AppendFollowingKeepsAscending(rows);
    }
  }

  /** The station's long-lived state: the cumulative archive
      (KMLB_all.csv) and the ledger of processed months. */
  class Station {
    var archive: seq<Row>
    const ledger: MonthLedger

    /** The archive never repeats an instant; the ledger ascends. */
    ghost predicate Valid()
      reads this, ledger
    {
      Distinct(archive) && Ascending(ledger.rows)
    }

    constructor (archive: seq<Row>, ledger: MonthLedger)
      requires Distinct(archive) && Ascending(ledger.rows)
      ensures Valid()
      ensures this.archive == archive && this.ledger == ledger
    {
      this.archive := archive;
      this.ledger := ledger;
    }

    /** Lines 93-101 once the month's batch exists: merge it into the
        archive and append the month to the ledger. */
    method Record(batch: seq<Row>, yr: int, mo: int, year: string, month: string)
      requires ledger.rows != [] && ledger.rows[|ledger.rows| - 1] == (yr, mo)
      requires GetNextMonth(yr, mo) == Some((year, month))
      modifies this, ledger
      ensures archive == Merge(old(archive), batch) && Distinct(archive)
      ensures ledger.rows == old(ledger.rows) + [FollowingMonth(yr, mo)]
      ensures old(Valid()) ==> Valid()
    {
      assert Distinct(Merge(archive, batch)) by {
        MergeArchiveWins(archive, batch);
      }
      archive := Merge(archive, batch);
      AdvanceLedger(yr, mo, year, month);
    }

    /** Line 101: the ledger gains the month, as the numbers `int()` reads
        back from get_next_month's strings. */
    method AdvanceLedger(yr: int, mo: int, year: string, month: string)
      requires ledger.rows != [] && ledger.rows[|ledger.rows| - 1] == (yr, mo)
      requires GetNextMonth(yr, mo) == Some((year, month))
      modifies ledger
      ensures ledger.rows == old(ledger.rows) + [FollowingMonth(yr, mo)]
      ensures old(Ascending(ledger.rows)) ==> Ascending(ledger.rows)
    {
      NextLedgerRow(ledger.rows, yr, mo, year, month);
      ledger.Append(ParseNat(year).value, ParseNat(month).value);
    }

    /** The module body, run once. `fetch` stands for the FTP download of
        the file for a year and month string, None when it is not there.
        The outcome is the one `Attempt` describes; only an ingest changes
        the state: it merges the batch into the archive and appends the
        following month to the ledger. */
    method IngestNext(fetch: (string, string) -> Option<SourceFile>) returns (outcome: Outcome)
      modifies this, ledger
      ensures outcome == Attempt(old(ledger.rows), fetch)
      ensures !outcome.Ingested? ==> archive == old(archive) && ledger.rows == old(ledger.rows)
      ensures outcome.Ingested? ==>
        var last := old(ledger.rows)[|old(ledger.rows)| - 1];
        && archive == Merge(old(archive), outcome.extract)
        && Distinct(archive)
        && ledger.rows == old(ledger.rows) + [FollowingMonth(last.0, last.1)]
      ensures old(Valid()) ==> Valid()
    {
      var last := ledger.Last();
      if last.None? {
        return Failed(EmptyLedger);
      }
      var (yr, mo) := last.value;
      var next := GetNextMonth(yr, mo);
      if next.None? {
        return Failed(InvalidMonth);
      }
      var (year, month) := next.value;
      var src := fetch(year, month);
      if src.None? {
        return NotAvailable(year, month);
      }
      var raw := Extract(src.value);
      if raw.Err? {
        return Failed(CannotParse);
      }
      var obs := LoadObservations(raw.value);
      var batch := Normalize(obs);
      assert Batch(src.value) == Ok(batch);
      Record(batch, yr, mo, year, month);
      outcome := Ingested(year, month, batch);
    }
  }
}
