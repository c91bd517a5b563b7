/** Lines 63-71: from observation records to the normalised five-minute
    series of station pressure and sea-level pressure, in pascals. */
module Normalizer {
  import opened Wrappers
  import opened Series
  import opened RecordParser

  /** asfreq('5Min') */
  const GRID_STEP_MINUTES := 5

  /** Pascals per inch of mercury. */
  const INHG_TO_PA: real := 3386.38816

  /** The fixed station-elevation correction added to reach sea level. */
  const SEA_LEVEL_CORRECTION_PA: real := 200.0

  /** The readings of a slot no observation falls on. */
  const NO_READING := Reading(None, None, None)

  /** What reindexing puts in the slot at t: the readings of the row stamped
      t, or all missing. */
  function Slot(rows: seq<Stamped<Reading>>, t: int): Reading
  {
    match Lookup(rows, t)
    case Some(r) => r
    case None => NO_READING
  }

  /** The slots lo, lo + 5, ... up to and including hi. */
  function Fill(rows: seq<Stamped<Reading>>, lo: int, hi: int): seq<Stamped<Reading>>
    decreases hi - lo
  {
    if lo > hi then [] else [Stamped(lo, Slot(rows, lo))] + Fill(rows, lo + GRID_STEP_MINUTES, hi)
  }

  /** frame.asfreq('5Min'): the grid starts at the first row's instant and
      runs to the last row's; an empty frame stays empty. */
  function AsFreq(rows: seq<Stamped<Reading>>): seq<Stamped<Reading>>
  {
    if rows == [] then [] else Fill(rows, rows[0].t, rows[|rows| - 1].t)
  }

  /** How many five-minute slots fit from `lo` to `hi`, both ends included. */
  function GridLength(lo: int, hi: int): nat
  {
    if lo > hi then 0 else (hi - lo) / GRID_STEP_MINUTES + 1
  }

  lemma {:induction false} FillSlots(rows: seq<Stamped<Reading>>, lo: int, hi: int)
    ensures |Fill(rows, lo, hi)| == GridLength(lo, hi)
    ensures forall k :: 0 <= k < |Fill(rows, lo, hi)| ==>
               Fill(rows, lo, hi)[k] == Stamped(lo + 5 * k, Slot(rows, lo + 5 * k))
    decreases hi - lo + GRID_STEP_MINUTES
  {
    if lo <= hi {
      var rest := Fill(rows, lo + 5, hi);
      FillSlots(rows, lo + 5, hi);
      var f := Fill(rows, lo, hi);
      forall k | 0 <= k < |f| ensures f[k] == Stamped(lo + 5 * k, Slot(rows, lo + 5 * k)) {
        if k > 0 {
          assert f[k] == rest[k - 1];
        }
      }
    }
  }

  /** The grid: instants t0, t0 + 5, ..., t0 + 5k with t0 + 5k <= last <
      t0 + 5(k + 1), where t0 and last are the first and last rows'
      instants; each slot carries the readings of the row at exactly its
      instant, or none. */
  lemma AsFreqGrid(rows: seq<Stamped<Reading>>)
    requires rows != []
    ensures var g, t0, last := AsFreq(rows), rows[0].t, rows[|rows| - 1].t;
      && |g| == GridLength(t0, last)
      && (t0 <= last ==> t0 + 5 * (|g| - 1) <= last < t0 + 5 * |g|)
      && forall k :: 0 <= k < |g| ==> g[k] == Stamped(t0 + 5 * k, Slot(rows, t0 + 5 * k))
  {
    FillSlots(rows, rows[0].t, rows[|rows| - 1].t);
  }

  /** Grid instants increase, so the grid has no duplicate stamps. */
  lemma AsFreqIncreasing(rows: seq<Stamped<Reading>>)
    ensures Increasing(AsFreq(rows)) && Distinct(AsFreq(rows))
  {
    if rows != [] {
      AsFreqGrid(rows);
    }
  }

  /** Rows off the grid are dropped: every grid stamp lies between the first
      and last instants at a multiple of five minutes from the first. */
  lemma AsFreqOnlyGridStamps(rows: seq<Stamped<Reading>>, t: int)
    requires rows != [] && t in Stamps(AsFreq(rows))
    ensures rows[0].t <= t <= rows[|rows| - 1].t && (t - rows[0].t) % 5 == 0
  {
    var g, t0 := AsFreq(rows), rows[0].t;
    AsFreqGrid(rows);
    var k :| 0 <= k < |g| && g[k].t == t;
    assert t - t0 == 5 * k;
  }

  /** Every instant between the first and last at a multiple of five minutes
      from the first has its slot, holding the readings stamped exactly
      then, or none. */
  lemma AsFreqFillsGridStamps(rows: seq<Stamped<Reading>>, t: int)
    requires rows != []
    requires rows[0].t <= t <= rows[|rows| - 1].t && (t - rows[0].t) % 5 == 0
    ensures t in Stamps(AsFreq(rows)) && Lookup(AsFreq(rows), t) == Some(Slot(rows, t))
  {
    var g, t0, last := AsFreq(rows), rows[0].t, rows[|rows| - 1].t;
    AsFreqGrid(rows);
    var k := (t - t0) / 5;
    assert 5 * k == t - t0;
    assert k <= (last - t0) / 5;
    assert g[k].t == t;
    AsFreqIncreasing(rows);
    LookupFindsFirst(g, k);
  }

  /** Two readings at T0 and T0 + 17 minutes give slots at T0, T0 + 5,
      T0 + 10 and T0 + 15, the middle two and the last one empty. */
  lemma GridOfSeventeenMinutes(t0: int, a: Reading, b: Reading)
    ensures AsFreq([Stamped(t0, a), Stamped(t0 + 17, b)]) ==
      [Stamped(t0, a), Stamped(t0 + 5, NO_READING), Stamped(t0 + 10, NO_READING),
       Stamped(t0 + 15, NO_READING)]
  {
    var rows := [Stamped(t0, a), Stamped(t0 + 17, b)];
    AsFreqGrid(rows);
    assert Lookup(rows, t0) == Some(a);
    assert Stamps(rows) == {t0, t0 + 17} by {
      StampsCons(rows[0], [rows[1]]);
      StampsCons(rows[1], []);
      assert rows == [rows[0]] + [rows[1]] && [rows[1]] == [rows[1]] + [];
    }
    LookupMisses(rows, t0 + 5);
    LookupMisses(rows, t0 + 10);
    LookupMisses(rows, t0 + 15);
  }

  // ---------------------------------------------------------------------
  // Derived pressures
  // ---------------------------------------------------------------------

  /** One row of the normalised series: Pressure (Pa) and MSLP (Pa). */
  datatype Derived = Derived(pressure: Option<real>, mslp: Option<real>)

  /** Sum of a row with NaN propagation: missing as soon as one value is. */
  function SumNoSkip(xs: seq<Option<real>>): Option<real>
  {
    if xs == [] then Some(0.0)
    else match (xs[0], SumNoSkip(xs[1..]))
      case (Some(x), Some(s)) => Some(x + s)
      case _ => None
  }

  /** DataFrame.mean(axis=1, skipna=False) on one row. */
  function MeanNoSkip(xs: seq<Option<real>>): Option<real>
    requires xs != []
  {
    match SumNoSkip(xs)
    case None => None
    case Some(s) => Some(s / |xs| as real)
  }

  lemma {:induction false} SumNoSkipMissing(xs: seq<Option<real>>)
    ensures SumNoSkip(xs).None? <==> None in xs
  {
    if xs != [] {
      SumNoSkipMissing(xs[1..]);
      assert xs == [xs[0]] + xs[1..];
    }
  }

  /** Lines 67-68: the mean of the three readings in inHg, in pascals, and
      that plus the sea-level correction. */
  function Derive(r: Reading): Derived
  {
    var p := match MeanNoSkip([r.p1, r.p2, r.p3])
             case None => None
             case Some(m) => Some(m * INHG_TO_PA);
    Derived(p, match p case None => None case Some(x) => Some(x + SEA_LEVEL_CORRECTION_PA))
  }

  /** Pressure is missing when any one of the three readings is (not only
      when all are), otherwise it is their average times 3386.38816; MSLP is
      missing exactly when Pressure is, otherwise 200 Pa above it. */
  lemma DeriveSpec(r: Reading)
    ensures Derive(r).pressure.None? <==> r.p1.None? || r.p2.None? || r.p3.None?
    ensures Derive(r).pressure.Some? ==>
      Derive(r).pressure.value == (r.p1.value + r.p2.value + r.p3.value) / 3.0 * INHG_TO_PA
    ensures Derive(r).mslp.None? <==> Derive(r).pressure.None?
    ensures Derive(r).mslp.Some? ==> Derive(r).mslp.value == Derive(r).pressure.value + 200.0
  {
    var xs := [r.p1, r.p2, r.p3];
    SumNoSkipMissing(xs);
    assert xs[1..] == [r.p2, r.p3] && xs[1..][1..] == [r.p3] && xs[1..][1..][1..] == [];
    if r.p1.Some? && r.p2.Some? && r.p3.Some? {
      var a, b, c := r.p1.value, r.p2.value, r.p3.value;
      assert SumNoSkip(xs[1..][1..]) == Some(c + 0.0);
      assert SumNoSkip(xs[1..]) == Some(b + (c + 0.0));
      assert SumNoSkip(xs) == Some(a + (b + (c + 0.0)));
      assert MeanNoSkip(xs) == Some((a + b + c) / 3.0);
    }
  }

  /** A mean of 29.92 inHg is 101320.7337472 Pa, and 101520.7337472 Pa at
      sea level. */
  lemma StandardPressure()
    ensures Derive(Reading(Some(29.92), Some(29.92), Some(29.92)))
         == Derived(Some(101320.7337472), Some(101520.7337472))
  {
    var a: Option<real> := Some(29.92);
    DeriveSpec(Reading(a, a, a));
    assert (29.92 + 29.92 + 29.92) / 3.0 * INHG_TO_PA == 101320.7337472;
  }

  function DeriveAll(grid: seq<Stamped<Reading>>): (out: seq<Stamped<Derived>>)
    ensures |out| == |grid|
    ensures forall k :: 0 <= k < |grid| ==> out[k] == Stamped(grid[k].t, Derive(grid[k].v))
  {
    seq(|grid|, k requires 0 <= k < |grid| => Stamped(grid[k].t, Derive(grid[k].v)))
  }

  /** Lines 63-71: drop repeated instants, resample to five minutes, derive
      the pressures. */
  function Normalize(obs: seq<Stamped<Reading>>): seq<Stamped<Derived>>
  {
    DeriveAll(AsFreq(Dedup(obs)))
  }

  /** The batch a month contributes: a five-minute grid from the first
      observation to the last surviving one, no instant twice, and in each
      slot the pressures derived from the first observation at that
      instant, or missing when there is none. */
  lemma NormalizeSpec(obs: seq<Stamped<Reading>>)
    ensures obs == [] ==> Normalize(obs) == []
    ensures Increasing(Normalize(obs)) && Distinct(Normalize(obs))
    ensures obs != [] ==>
      var d := Dedup(obs);
      var t0, last, n := obs[0].t, d[|d| - 1].t, Normalize(obs);
      && d != [] && d[0] == obs[0]
      && |n| == GridLength(t0, last)
      && forall k :: 0 <= k < |n| ==>
           n[k] == Stamped(t0 + 5 * k, Derive(Slot(obs, t0 + 5 * k)))
  {
    var d := Dedup(obs);
    DedupKeepsFirst(obs);
    if obs != [] {
      assert d == [obs[0]] + DedupAfter(obs[1..], {} + {obs[0].t});
      AsFreqGrid(d);
      forall t ensures Slot(d, t) == Slot(obs, t) {
        assert Lookup(d, t) == Lookup(obs, t);
      }
    }
    AsFreqIncreasing(d);
  }
}
