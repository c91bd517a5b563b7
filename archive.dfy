/** Lines 93-94 and 101: merging a month's batch into the cumulative
    archive, and recording the month in the ledger of processed months. */
module Archive {
  import opened Wrappers
  import opened Series
  import opened Normalizer
  import opened Calendar

  /** A row of the archive or of a batch: Pressure (Pa) and MSLP (Pa) at one
      UTC instant. */
  type Row = Stamped<Derived>

  /** pd.concat([archive, batch]) followed by dropping every row whose stamp
      occurred earlier. The result is not re-sorted. */
  function Merge(archive: seq<Row>, batch: seq<Row>): seq<Row>
  {
    Dedup(archive + batch)
  }

  /** The batch rows whose stamps are not in `seen`, in batch order. */
  function Unseen(batch: seq<Row>, seen: set<int>): (r: seq<Row>)
    ensures Stamps(r) == Stamps(batch) - seen
  {
    if batch == [] then []
    else
      var rest := Unseen(batch[1..], seen);
      StampsCons(batch[0], batch[1..]);
      assert batch == [batch[0]] + batch[1..];
      if batch[0].t in seen then rest
      else StampsCons(batch[0], rest); [batch[0]] + rest
  }

  /** For a batch without repeated stamps, dropping earlier stamps is
      filtering out the seen ones. */
  lemma {:induction false} DedupAfterOfDistinctIsUnseen(batch: seq<Row>, seen: set<int>)
    requires Distinct(batch)
    ensures DedupAfter(batch, seen) == Unseen(batch, seen)
  {
    if batch != [] {
      var x, rest := batch[0], batch[1..];
      assert Distinct(rest) by {
        forall i, j | 0 <= i < j < |rest| ensures rest[i].t != rest[j].t {
          assert rest[i] == batch[i + 1] && rest[j] == batch[j + 1];
        }
      }
      if x.t in seen {
        DedupAfterOfDistinctIsUnseen(rest, seen);
      } else {
        DedupAfterOfDistinctIsUnseen(rest, seen + {x.t});
        UnseenIgnoresAbsent(rest, seen, x.t);
      }
    }
  }

  /** Adding a stamp the batch does not carry to `seen` filters nothing more. */
  lemma {:induction false} UnseenIgnoresAbsent(batch: seq<Row>, seen: set<int>, t: int)
    requires forall i :: 0 <= i < |batch| ==> batch[i].t != t
    ensures Unseen(batch, seen + {t}) == Unseen(batch, seen)
  {
    if batch != [] {
      UnseenIgnoresAbsent(batch[1..], seen, t);
    }
  }

  /** The merged archive is the old archive, unchanged and in its order,
      followed by the batch rows whose instants the archive lacks, in batch
      order. */
  lemma MergeAppendsUnseen(archive: seq<Row>, batch: seq<Row>)
    requires Distinct(archive) && Distinct(batch)
    ensures Merge(archive, batch) == archive + Unseen(batch, Stamps(archive))
  {
    DedupAfterAppend(archive, batch, {});
    DedupAfterOfDistinct(archive, {});
    assert {} + Stamps(archive) == Stamps(archive);
    DedupAfterOfDistinctIsUnseen(batch, Stamps(archive));
  }

  /** The merged archive never holds an instant twice, holds every instant of
      both inputs, and on a collision keeps the archive's row. */
  lemma MergeArchiveWins(archive: seq<Row>, batch: seq<Row>)
    ensures Distinct(Merge(archive, batch))
    ensures Stamps(Merge(archive, batch)) == Stamps(archive) + Stamps(batch)
    ensures forall t :: Lookup(Merge(archive, batch), t) ==
                        if t in Stamps(archive) then Lookup(archive, t) else Lookup(batch, t)
  {
    DedupKeepsFirst(archive + batch);
    StampsAppend(archive, batch);
    forall t ensures Lookup(Merge(archive, batch), t) ==
      if t in Stamps(archive) then Lookup(archive, t) else Lookup(batch, t)
    {
      LookupAppend(archive, batch, t);
    }
  }

  /** Re-processing a month already in the archive leaves the archive as it
      was. */
  lemma MergeOfKnownMonthIsNoOp(archive: seq<Row>, batch: seq<Row>)
    requires Distinct(archive) && Stamps(batch) <= Stamps(archive)
    ensures Merge(archive, batch) == archive
  {
    DedupAfterAppend(archive, batch, {});
    DedupAfterOfDistinct(archive, {});
    assert {} + Stamps(archive) == Stamps(archive);
    DedupAfterStamps(batch, Stamps(archive));
    EmptyStamps(DedupAfter(batch, Stamps(archive)));
  }

  /** Running the same month twice gives the archive of running it once. */
  lemma MergeTwiceIsMergeOnce(archive: seq<Row>, batch: seq<Row>)
    ensures Merge(Merge(archive, batch), batch) == Merge(archive, batch)
  {
    MergeArchiveWins(archive, batch);
    MergeOfKnownMonthIsNoOp(Merge(archive, batch), batch);
  }

  /** A sorted archive stays sorted when the batch is sorted and entirely
      later; then nothing is dropped. */
  lemma MergeOfLaterBatchStaysSorted(archive: seq<Row>, batch: seq<Row>)
    requires Increasing(archive) && Increasing(batch)
    requires forall i, j :: 0 <= i < |archive| && 0 <= j < |batch| ==> archive[i].t < batch[j].t
    ensures Merge(archive, batch) == archive + batch
    ensures Increasing(Merge(archive, batch))
  {
    var s := archive + batch;
    assert Increasing(s) by {
      forall i, j | 0 <= i < j < |s| ensures s[i].t < s[j].t {
        if j < |archive| {
        } else if i >= |archive| {
          assert s[i] == batch[i - |archive|] && s[j] == batch[j - |archive|];
        } else {
          assert s[j] == batch[j - |archive|];
        }
      }
    }
    DedupAfterOfDistinct(s, {});
  }

  /** The merge does not re-sort: a batch earlier than the archive ends up
      after it. */
  lemma MergeKeepsConcatOrder(d: Derived, e: Derived)
    ensures Merge([Stamped(10, d)], [Stamped(5, e)]) == [Stamped(10, d), Stamped(5, e)]
    ensures !Increasing(Merge([Stamped(10, d)], [Stamped(5, e)]))
  {
    var s := [Stamped(10, d), Stamped(5, e)];
    assert [Stamped(10, d)] + [Stamped(5, e)] == s;
    DedupAfterOfDistinct(s, {});
  }

  // ---------------------------------------------------------------------
  // The ledger of processed months
  // ---------------------------------------------------------------------

  predicate ValidMonth(ym: (int, int)) { 1 <= ym.1 <= 12 }

  /** Ledger rows are real months in strictly increasing calendar order. */
  predicate Ascending(rows: seq<(int, int)>)
  {
    && (forall i :: 0 <= i < |rows| ==> ValidMonth(rows[i]))
    && (forall i, j :: 0 <= i < j < |rows| ==>
          MonthIndex(rows[i].0, rows[i].1) < MonthIndex(rows[j].0, rows[j].1))
  }

  /** Appending the month after the last one keeps the ledger ascending, and
      the new month is exactly one past the last. */
  lemma AppendFollowingKeepsAscending(rows: seq<(int, int)>)
    requires rows != [] && Ascending(rows)
    ensures var last := rows[|rows| - 1];
      var next := FollowingMonth(last.0, last.1);
      Ascending(rows + [next]) &&
      MonthIndex(next.0, next.1) == MonthIndex(last.0, last.1) + 1
  {
    var last := rows[|rows| - 1];
    var next := FollowingMonth(last.0, last.1);
    FollowingMonthIsNext(last.0, last.1);
    var s := rows + [next];
    forall i, j | 0 <= i < j < |s|
      ensures MonthIndex(s[i].0, s[i].1) < MonthIndex(s[j].0, s[j].1)
    {
      if j == |rows| && i < |rows| - 1 {
        assert MonthIndex(s[i].0, s[i].1) < MonthIndex(last.0, last.1);
      }
    }
  }

  /** processed_months.csv as the script holds it: (year, month) rows. */
  class MonthLedger {
    var rows: seq<(int, int)>

    constructor (initial: seq<(int, int)>)
      ensures rows == initial
    {
      rows := initial;
    }

    /** The last row, read column by column at line 22-23; None where the
        script would fail on an empty ledger. */
    function Last(): (r: Option<(int, int)>)
      reads this
      ensures r.None? <==> rows == []
      ensures r.Some? ==> r.value == rows[|rows| - 1]
    {
      if rows == [] then None else Some(rows[|rows| - 1])
    }

    /** Line 101: one (year, month) row at the end; earlier rows untouched. */
    method Append(year: int, month: int)
      modifies this
      ensures rows == old(rows) + [(year, month)]
      ensures |rows| == |old(rows)| + 1 && rows[..|old(rows)|] == old(rows)
    {
      rows := rows + [(year, month)];
    }
  }
}
