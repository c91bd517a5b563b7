/** get_next_month: which month the run fetches after the last one in the
    ledger, and the year and month strings it builds the file name from. */
module MonthSequencer {
  import opened Wrappers
  import opened Text
  import opened Calendar

  /** The date arithmetic of get_next_month: the first of the month plus five
      weeks, truncated to its (year, month). None where datetime raises: a
      year or month out of range (ValueError) or a result past MAX_YEAR
      (OverflowError). */
  function NextMonth(yr: int, mo: int): (r: Option<(int, int)>)
    ensures r.Some? ==> 1 <= r.value.0 <= MAX_YEAR && 1 <= r.value.1 <= 12
  {
    if !(1 <= yr <= MAX_YEAR && 1 <= mo <= 12) then None
    else
      var d := AddDays(Date(yr, mo, 1), 5 * 7);
      if d.year > MAX_YEAR then None else Some((d.year, d.month))
  }

  /** The two-character month: a '0' in front of a single digit. */
  function MonthString(m: nat): string
  {
    if m < 10 then "0" + DecimalString(m) else DecimalString(m)
  }

  /** get_next_month(yr, mo): [str(year), month] of the following month. */
  function GetNextMonth(yr: int, mo: int): Option<(string, string)>
  {
    match NextMonth(yr, mo)
    case None => None
    case Some((y, m)) => Some((DecimalString(y), MonthString(m)))
  }

  /** The step never skips a month: it yields exactly the following month,
      and fails only where datetime cannot represent the input or the
      result. */
  lemma NextMonthIsFollowing(yr: int, mo: int)
    ensures NextMonth(yr, mo) ==
      if 1 <= yr <= MAX_YEAR && 1 <= mo <= 12 && !(yr == MAX_YEAR && mo == 12)
      then Some(FollowingMonth(yr, mo)) else None
  {
    if 1 <= yr <= MAX_YEAR && 1 <= mo <= 12 {
      FiveWeeksLandsInNextMonth(yr, mo);
    }
  }

  /** Every month renders as two digits that int() reads back. */
  lemma MonthStringIsTwoDigits(m: nat)
    requires 1 <= m <= 12
    ensures MonthString(m) == Digits(m, 2)
    ensures |MonthString(m)| == 2 && ParseNat(MonthString(m)) == Some(m)
  {
    var s := MonthString(m);
    if m < 10 {
      assert s == ['0', DigitChar(m)];
    } else {
      assert DecimalString(m / 10) == [DigitChar(1)];
      assert s == [DigitChar(1), DigitChar(m % 10)];
    }
    assert Digits(m, 2) == [DigitChar(m / 10), DigitChar(m % 10)];
    DigitsRoundTrip(m, 2);
  }

  /** What the ledger append reads back with int(): the numbers of the
      following month. */
  lemma GetNextMonthReadsBack(yr: int, mo: int)
    requires 1 <= yr <= MAX_YEAR && 1 <= mo <= 12 && !(yr == MAX_YEAR && mo == 12)
    ensures GetNextMonth(yr, mo).Some?
    ensures var (ys, ms) := GetNextMonth(yr, mo).value;
      ParseNat(ys) == Some(FollowingMonth(yr, mo).0) &&
      ParseNat(ms) == Some(FollowingMonth(yr, mo).1) && |ms| == 2
  {
    NextMonthIsFollowing(yr, mo);
    var (y, m) := FollowingMonth(yr, mo);
    DecimalStringRoundTrip(y);
    MonthStringIsTwoDigits(m);
  }

  lemma DecemberRollsOver()
    ensures GetNextMonth(2023, 12) == Some(("2024", "01"))
  {
    NextMonthIsFollowing(2023, 12);
    assert DecimalString(2) == "2";
    assert DecimalString(20) == "20";
    assert DecimalString(202) == "202";
    assert DecimalString(2024) == "2024";
    assert MonthString(1) == "01";
  }

  lemma JanuaryAdvances()
    ensures GetNextMonth(2023, 1) == Some(("2023", "02"))
  {
    NextMonthIsFollowing(2023, 1);
    assert DecimalString(2) == "2";
    assert DecimalString(20) == "20";
    assert DecimalString(202) == "202";
    assert DecimalString(2023) == "2023";
    assert MonthString(2) == "02";
  }
}
