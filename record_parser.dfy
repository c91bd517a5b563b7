/** Turning one monthly station file into observation records: the
    timestamp token of each row, the fixed-column re-read of the whole file
    when any timestamp does not convert, the EST-to-UTC shift of the index,
    and the coercion of the three pressure columns to numbers. */
module RecordParser {
  import opened Wrappers
  import opened Text
  import opened Calendar
  import opened Series

  // ---------------------------------------------------------------------
  // Timestamps: 12-digit YYYYMMDDHHMM tokens, instants in whole minutes
  // ---------------------------------------------------------------------

  datatype Stamp = Stamp(date: Date, hour: int, minute: int)

  predicate ValidStamp(s: Stamp)
  {
    IsDate(s.date) && s.date.year <= MAX_YEAR && 0 <= s.hour < 24 && 0 <= s.minute < 60
  }

  /** The instant of a stamp, in minutes since the start of day 0 of the
      proleptic Gregorian calendar. */
  function Minutes(s: Stamp): int
    requires ValidStamp(s)
  {
    (Ordinal(s.date) * 24 + s.hour) * 60 + s.minute
  }

  /** The YYYYMMDDHHMM form of a stamp. */
  function RenderStamp(s: Stamp): (tok: string)
    requires ValidStamp(s)
    ensures |tok| == 12 && AllDigits(tok)
  {
    Digits(s.date.year, 4) + Digits(s.date.month, 2) + Digits(s.date.day, 2)
      + Digits(s.hour, 2) + Digits(s.minute, 2)
  }

  /** The fields of a YYYYMMDDHHMM token that names a real minute of a real
      day; None for anything else. */
  function ParseStampFields(tok: string): (r: Option<Stamp>)
    ensures r.Some? ==> ValidStamp(r.value)
  {
    if |tok| != 12 || !AllDigits(tok) then None
    else
      var s := Stamp(Date(DigitsValue(tok[..4]), DigitsValue(tok[4..6]), DigitsValue(tok[6..8])),
                     DigitsValue(tok[8..10]), DigitsValue(tok[10..]));
      if ValidStamp(s) then Some(s) else None
  }

  /** pd.to_datetime on one token: the local instant it names. */
  function ParseStamp(tok: string): Option<int>
  {
    match ParseStampFields(tok)
    case None => None
    case Some(s) => Some(Minutes(s))
  }

  lemma Pow10Small()
    ensures Pow10(2) == 100 && Pow10(4) == 10000
  {
    assert Pow10(1) == 10;
    assert Pow10(3) == 1000;
  }

  /** Every stamp reads back from its rendering. */
  lemma ParseRenderStamp(s: Stamp)
    requires ValidStamp(s)
    ensures ParseStampFields(RenderStamp(s)) == Some(s)
    ensures ParseStamp(RenderStamp(s)) == Some(Minutes(s))
  {
    var tok := RenderStamp(s);
    Pow10Small();
    assert DigitsValue(tok[..4]) == s.date.year by {
      assert tok[..4] == Digits(s.date.year, 4);
      DigitsRoundTrip(s.date.year, 4);
    }
    assert DigitsValue(tok[4..6]) == s.date.month by {
      assert tok[4..6] == Digits(s.date.month, 2);
      DigitsRoundTrip(s.date.month, 2);
    }
    assert DigitsValue(tok[6..8]) == s.date.day by {
      assert tok[6..8] == Digits(s.date.day, 2);
      DigitsRoundTrip(s.date.day, 2);
    }
    assert DigitsValue(tok[8..10]) == s.hour by {
      assert tok[8..10] == Digits(s.hour, 2);
      DigitsRoundTrip(s.hour, 2);
    }
    assert DigitsValue(tok[10..]) == s.minute by {
      assert tok[10..] == Digits(s.minute, 2);
      DigitsRoundTrip(s.minute, 2);
    }
  }

  /** A token that parses is the rendering of the stamp it parses to. */
  lemma RenderParseStamp(tok: string)
    requires ParseStampFields(tok).Some?
    ensures RenderStamp(ParseStampFields(tok).value) == tok
  {
    var s := ParseStampFields(tok).value;
    assert Digits(s.date.year, 4) == tok[..4] by { DigitsOfValue(tok[..4]); }
    assert Digits(s.date.month, 2) == tok[4..6] by { DigitsOfValue(tok[4..6]); }
    assert Digits(s.date.day, 2) == tok[6..8] by { DigitsOfValue(tok[6..8]); }
    assert Digits(s.hour, 2) == tok[8..10] by { DigitsOfValue(tok[8..10]); }
    assert Digits(s.minute, 2) == tok[10..] by { DigitsOfValue(tok[10..]); }
    assert tok == tok[..4] + tok[4..6] + tok[6..8] + tok[8..10] + tok[10..];
  }

  /** pd.to_datetime over a whole column: all tokens convert, or the call
      raises (None). */
  function ToDatetime(tokens: seq<string>): (r: Option<seq<int>>)
    ensures r.Some? <==> forall i :: 0 <= i < |tokens| ==> ParseStamp(tokens[i]).Some?
    ensures r.Some? ==> |r.value| == |tokens|
    ensures r.Some? ==> forall i :: 0 <= i < |tokens| ==> ParseStamp(tokens[i]) == Some(r.value[i])
  {
    if tokens == [] then Some([])
    else
      match (ParseStamp(tokens[0]), ToDatetime(tokens[1..]))
      case (Some(t), Some(ts)) => Some([t] + ts)
      case _ => None
  }

  // ---------------------------------------------------------------------
  // The two ways of reading the file
  // ---------------------------------------------------------------------

  /** A cell of a freshly read column: a float the reader already converted,
      a token it left as text, or an empty field (NaN). */
  datatype Cell = Num(x: real) | Token(s: string) | Missing

  /** One row as the whitespace-inferring reader splits it, after the
      unused columns are dropped. The splitting itself is an input here. */
  datatype PrimaryRow = PrimaryRow(dateTime: string, pres1: Cell, pres2: Cell, pres3: Cell)

  /** What one fetch of the monthly file yields: the inferred split and the
      raw lines the fixed-column reader re-reads. */
  datatype SourceFile = SourceFile(primary: seq<PrimaryRow>, lines: seq<string>)

  datatype Strategy = InferredColumns | FixedColumns

  /** The frame after parsing: which reader produced it, the local
      timestamps, and the columns Pres1, Pres2, Pres3. */
  datatype RawFrame = RawFrame(strategy: Strategy, index: seq<int>, columns: seq<seq<Cell>>)

  /** The ValueError the fixed-column conversion raises when it fails too. */
  datatype ParseError = Unparseable

  predicate WellFormed(f: RawFrame)
  {
    |f.columns| == 3 && forall c :: 0 <= c < 3 ==> |f.columns[c]| == |f.index|
  }

  /** The inferred DateTime token holds the timestamp at characters [3, 15). */
  const PRIMARY_STAMP_FROM: nat := 3
  const PRIMARY_STAMP_TO: nat := 15

  /** A half-open character range [from, to) of a fixed-width line. */
  datatype ColSpec = ColSpec(from: nat, to: nat)

  const STAMP_COLUMNS := ColSpec(13, 25)
  const PRESSURE_COLUMNS := [ColSpec(70, 76), ColSpec(78, 84), ColSpec(86, 92)]

  function PrimaryTokens(rows: seq<PrimaryRow>): (toks: seq<string>)
    ensures |toks| == |rows|
    ensures forall i :: 0 <= i < |rows| ==>
      toks[i] == Slice(rows[i].dateTime, PRIMARY_STAMP_FROM, PRIMARY_STAMP_TO)
  {
    seq(|rows|, i requires 0 <= i < |rows| => Slice(rows[i].dateTime, PRIMARY_STAMP_FROM, PRIMARY_STAMP_TO))
  }

  /** The text of one fixed-width field, with its padding stripped. */
  function Field(line: string, spec: ColSpec): string
  {
    Strip(Slice(line, spec.from, spec.to))
  }

  /** A field read with dtype=object: its text, or NaN when it is empty. */
  function FieldCell(tok: string): Cell
  {
    if tok == [] then Missing else Token(tok)
  }

  function FixedTokens(lines: seq<string>, spec: ColSpec): (toks: seq<string>)
    ensures |toks| == |lines|
    ensures forall i :: 0 <= i < |lines| ==> toks[i] == Field(lines[i], spec)
  {
    seq(|lines|, i requires 0 <= i < |lines| => Field(lines[i], spec))
  }

  function FixedColumn(lines: seq<string>, spec: ColSpec): (col: seq<Cell>)
    ensures |col| == |lines|
    ensures forall i :: 0 <= i < |lines| ==> col[i] == FieldCell(Field(lines[i], spec))
  {
    seq(|lines|, i requires 0 <= i < |lines| => FieldCell(Field(lines[i], spec)))
  }

  /** The columns Pres1, Pres2, Pres3 of the inferred split. */
  function PrimaryColumns(rows: seq<PrimaryRow>): (cols: seq<seq<Cell>>)
    ensures |cols| == 3 && |cols[0]| == |cols[1]| == |cols[2]| == |rows|
    ensures forall i :: 0 <= i < |rows| ==>
      cols[0][i] == rows[i].pres1 && cols[1][i] == rows[i].pres2 && cols[2][i] == rows[i].pres3
  {
    [seq(|rows|, i requires 0 <= i < |rows| => rows[i].pres1),
     seq(|rows|, i requires 0 <= i < |rows| => rows[i].pres2),
     seq(|rows|, i requires 0 <= i < |rows| => rows[i].pres3)]
  }

  /** The columns Pres1, Pres2, Pres3 read at their fixed character ranges. */
  function FixedPressureColumns(lines: seq<string>): (cols: seq<seq<Cell>>)
    ensures |cols| == 3 && |cols[0]| == |cols[1]| == |cols[2]| == |lines|
    ensures forall c :: 0 <= c < 3 ==> cols[c] == FixedColumn(lines, PRESSURE_COLUMNS[c])
  {
    [FixedColumn(lines, PRESSURE_COLUMNS[0]),
     FixedColumn(lines, PRESSURE_COLUMNS[1]),
     FixedColumn(lines, PRESSURE_COLUMNS[2])]
  }

  /** Lines 42-53: take the inferred split if every timestamp converts;
      otherwise re-read the whole file at fixed columns, once, and fail if
      that does not convert either. */
  function Extract(src: SourceFile): (r: Result<RawFrame, ParseError>)
    ensures r.Ok? ==> WellFormed(r.value)
  {
    match ToDatetime(PrimaryTokens(src.primary))
    case Some(ts) => Ok(RawFrame(InferredColumns, ts, PrimaryColumns(src.primary)))
    case None =>
      match ToDatetime(FixedTokens(src.lines, STAMP_COLUMNS))
      case Some(ts) => Ok(RawFrame(FixedColumns, ts, FixedPressureColumns(src.lines)))
      case None => Err(Unparseable)
  }

  /** Whether every token of a column converts to an instant. */
  predicate AllConvert(tokens: seq<string>)
  {
    forall i :: 0 <= i < |tokens| ==> ParseStamp(tokens[i]).Some?
  }

  /** The fallback is taken exactly when some inferred timestamp fails, it is
      tried once, and the run fails exactly when both readings fail; the
      index holds the instants of the chosen reader's tokens, row by row. */
  lemma ExtractFallsBackOnce(src: SourceFile)
    ensures var r := Extract(src);
      && (r.Ok? && r.value.strategy == InferredColumns <==> AllConvert(PrimaryTokens(src.primary)))
      && (r.Ok? && r.value.strategy == FixedColumns <==>
            !AllConvert(PrimaryTokens(src.primary)) && AllConvert(FixedTokens(src.lines, STAMP_COLUMNS)))
      && (r.Err? <==>
            !AllConvert(PrimaryTokens(src.primary)) && !AllConvert(FixedTokens(src.lines, STAMP_COLUMNS)))
    ensures var r := Extract(src);
      r.Ok? ==>
        var toks := if r.value.strategy == InferredColumns then PrimaryTokens(src.primary)
                    else FixedTokens(src.lines, STAMP_COLUMNS);
        |r.value.index| == |toks| &&
        forall i :: 0 <= i < |toks| ==> ParseStamp(toks[i]) == Some(r.value.index[i])
    ensures var r := Extract(src);
      r.Ok? ==>
        r.value.columns == if r.value.strategy == InferredColumns then PrimaryColumns(src.primary)
                           else FixedPressureColumns(src.lines)
  {
  }

  /** The inferred split keeps each row's three pressure cells as they are. */
  lemma InferredKeepsCells(src: SourceFile, i: nat)
    requires Extract(src).Ok? && Extract(src).value.strategy == InferredColumns
    requires i < |src.primary|
    ensures var cols := Extract(src).value.columns;
      var row := src.primary[i];
      cols[0][i] == row.pres1 && cols[1][i] == row.pres2 && cols[2][i] == row.pres3
  {
  }

  /** A file whose inferred timestamps do not all convert, but whose lines
      carry valid stamps at characters [13, 25), is read by the fallback,
      with exactly those instants. */
  lemma FallbackReadsFixedColumns(src: SourceFile, stamps: seq<Stamp>)
    requires !AllConvert(PrimaryTokens(src.primary))
    requires |stamps| == |src.lines|
    requires forall i :: 0 <= i < |stamps| ==> ValidStamp(stamps[i])
    requires forall i :: 0 <= i < |stamps| ==>
      |src.lines[i]| >= 25 && src.lines[i][13..25] == RenderStamp(stamps[i])
    ensures Extract(src).Ok? && Extract(src).value.strategy == FixedColumns
    ensures |Extract(src).value.index| == |stamps|
    ensures forall i :: 0 <= i < |stamps| ==> Extract(src).value.index[i] == Minutes(stamps[i])
    ensures forall c, i :: 0 <= c < 3 && 0 <= i < |stamps| ==>
      Extract(src).value.columns[c][i] == FieldCell(Field(src.lines[i], PRESSURE_COLUMNS[c]))
  {
    var toks := FixedTokens(src.lines, STAMP_COLUMNS);
    forall i | 0 <= i < |stamps| ensures ParseStamp(toks[i]) == Some(Minutes(stamps[i])) {
      FixedStampField(src.lines[i], stamps[i]);
    }
    ExtractFallsBackOnce(src);
    var cols := Extract(src).value.columns;
    assert cols == FixedPressureColumns(src.lines);
    forall c, i | 0 <= c < 3 && 0 <= i < |stamps|
      ensures cols[c][i] == FieldCell(Field(src.lines[i], PRESSURE_COLUMNS[c]))
    {
      assert cols[c] == FixedColumn(src.lines, PRESSURE_COLUMNS[c]);
    }
  }

  /** Characters [13, 25) holding a rendered stamp read as that stamp. */
  lemma FixedStampField(line: string, s: Stamp)
    requires ValidStamp(s) && |line| >= 25 && line[13..25] == RenderStamp(s)
    ensures ParseStamp(Field(line, STAMP_COLUMNS)) == Some(Minutes(s))
  {
    var tok := RenderStamp(s);
    assert Slice(line, 13, 25) == tok;
    assert Trimmed(tok) by {
      assert IsDigit(tok[0]) && IsDigit(tok[11]);
    }
    ParseRenderStamp(s);
  }

  /** A barometer reading written as whole digits, a point and decimals
      filling characters [70, 76) is read by the fallback as exactly that
      number of inHg once the column is coerced. */
  lemma {:induction false} FixedPressureField(line: string, whole: nat, ww: nat, frac: nat, fw: nat)
    requires ww >= 1 && ww + 1 + fw == 6 && whole < Pow10(ww) && frac < Pow10(fw)
    requires |line| >= 76 && line[70..76] == PointNumber(whole, ww, frac, fw)
    ensures CoerceCell(FieldCell(Field(line, PRESSURE_COLUMNS[0]))) == Num(whole as real + Scaled(frac, fw))
  {
    PointNumberField(line, PRESSURE_COLUMNS[0], whole, ww, frac, fw);
  }

  /** The same for a point number filling any fixed-width field. */
  lemma PointNumberField(line: string, spec: ColSpec, whole: nat, ww: nat, frac: nat, fw: nat)
    requires ww >= 1 && whole < Pow10(ww) && frac < Pow10(fw)
    requires spec.from <= spec.to <= |line| && line[spec.from..spec.to] == PointNumber(whole, ww, frac, fw)
    ensures CoerceCell(FieldCell(Field(line, spec))) == Num(whole as real + Scaled(frac, fw))
  {
    assert Field(line, spec) == PointNumber(whole, ww, frac, fw) by {
      PointNumberTrimmed(whole, ww, frac, fw);
      FieldOfTrimmed(line, spec, PointNumber(whole, ww, frac, fw));
    }
    PointNumberCell(whole, ww, frac, fw);
  }

  /** A field holding such a token coerces to the number it spells. */
  lemma PointNumberCell(whole: nat, ww: nat, frac: nat, fw: nat)
    requires ww >= 1 && whole < Pow10(ww) && frac < Pow10(fw)
    ensures CoerceCell(FieldCell(PointNumber(whole, ww, frac, fw))) == Num(whole as real + Scaled(frac, fw))
  {
    ParseDecimalOfDigits(whole, ww, frac, fw);
    assert PointNumber(whole, ww, frac, fw) != [];
  }

  /** Such a token starts with a digit and ends with a digit or the point. */
  lemma PointNumberTrimmed(whole: nat, ww: nat, frac: nat, fw: nat)
    requires ww >= 1
    ensures Trimmed(PointNumber(whole, ww, frac, fw))
  {
    var a, b := Digits(whole, ww), Digits(frac, fw);
    var tok := PointNumber(whole, ww, frac, fw);
    assert tok == a + "." + b;
    assert !IsPad(tok[0]) by {
      assert tok[0] == a[0] && IsDigit(a[0]);
    }
    assert !IsPad(tok[|tok| - 1]) by {
      if fw > 0 {
        assert tok[|tok| - 1] == b[fw - 1] && IsDigit(b[fw - 1]);
      } else {
        assert tok[|tok| - 1] == '.';
      }
    }
  }

  /** A field whose characters have no padding at either end is read as is. */
  lemma FieldOfTrimmed(line: string, spec: ColSpec, tok: string)
    requires spec.from <= spec.to <= |line| && line[spec.from..spec.to] == tok
    requires Trimmed(tok)
    ensures Field(line, spec) == tok
  {
    assert Slice(line, spec.from, spec.to) == tok;
  }

  // ---------------------------------------------------------------------
  // Local standard time to UTC
  // ---------------------------------------------------------------------

  /** tz_localize('EST'): a fixed UTC-5 offset all year, no daylight saving. */
  const EST_OFFSET_MINUTES := 300

  /** The UTC instant of an EST wall-clock instant. */
  function EstToUtc(local: int): int
  {
    local + EST_OFFSET_MINUTES
  }


  // ---------------------------------------------------------------------
  // Numeric coercion of the pressure columns
  // ---------------------------------------------------------------------

  /** A column pandas already holds as float64. */
  predicate IsFloatColumn(col: seq<Cell>)
  {
    forall i :: 0 <= i < |col| ==> !col[i].Token?
  }

  /** pd.to_numeric(errors='coerce') on one cell: numbers stay, text that is
      a number becomes that number, anything else becomes NaN; never an
      error. */
  function CoerceCell(c: Cell): (r: Cell)
    ensures !r.Token?
    ensures !c.Token? ==> r == c
    ensures c.Token? ==> (r.Num? <==> ParseDecimal(c.s).Some?)
    ensures c.Token? && r.Num? ==> Some(r.x) == ParseDecimal(c.s)
  {
    match c
    case Token(s) =>
      (match ParseDecimal(s) case Some(x) => Num(x) case None => Missing)
    case _ => c
  }

  function CoerceColumn(col: seq<Cell>): (r: seq<Cell>)
    ensures |r| == |col| && IsFloatColumn(r)
    ensures forall i :: 0 <= i < |col| ==> r[i] == CoerceCell(col[i])
  {
    seq(|col|, i requires 0 <= i < |col| => CoerceCell(col[i]))
  }

  /** Skipping the conversion of a float64 column (line 59) changes nothing:
      coercing it would give back the same column. */
  lemma CoerceFloatColumnIsIdentity(col: seq<Cell>)
    requires IsFloatColumn(col)
    ensures CoerceColumn(col) == col
  {
  }

  function CellValue(c: Cell): Option<real>
  {
    match c
    case Num(x) => Some(x)
    case _ => None
  }

  /** One observation record: the three barometer readings in inHg, each
      missing (NaN) or a number. */
  datatype Reading = Reading(p1: Option<real>, p2: Option<real>, p3: Option<real>)

  /** The records a parsed frame stands for once its index is in UTC and its
      pressure columns are numeric: the specification of ObsFrame. */
  function Observations(f: RawFrame): (obs: seq<Stamped<Reading>>)
    requires WellFormed(f)
    ensures |obs| == |f.index|
  {
    seq(|f.index|, i requires 0 <= i < |f.index| =>
      Stamped(EstToUtc(f.index[i]),
        Reading(CellValue(CoerceCell(f.columns[0][i])),
                CellValue(CoerceCell(f.columns[1][i])),
                CellValue(CoerceCell(f.columns[2][i])))))
  }

  /** A record's readings: a number token is kept with its value, a blank or
      non-numeric token is missing. */
  lemma ObservationReadings(f: RawFrame, i: nat, c: nat)
    requires WellFormed(f) && i < |f.index| && c < 3
    ensures var r := Observations(f)[i].v;
      var p := if c == 0 then r.p1 else if c == 1 then r.p2 else r.p3;
      var cell := f.columns[c][i];
      && (cell.Num? ==> p == Some(cell.x))
      && (cell.Missing? ==> p == None)
      && (cell.Token? ==> p == ParseDecimal(cell.s))
  {
  }

  /** The records are in the order of the file's rows, with the same repeats:
      they are sorted exactly when the local index is, and free of repeated
      instants exactly when it is, which is what the grid's first and last
      instants and the duplicate removal depend on. */
  lemma ObservationsKeepOrder(f: RawFrame)
    requires WellFormed(f)
    ensures Increasing(Observations(f)) <==>
      forall i, j :: 0 <= i < j < |f.index| ==> f.index[i] < f.index[j]
    ensures Distinct(Observations(f)) <==>
      forall i, j :: 0 <= i < j < |f.index| ==> f.index[i] != f.index[j]
  {
    var obs := Observations(f);
    assert forall i :: 0 <= i < |obs| ==> obs[i].t == f.index[i] + EST_OFFSET_MINUTES;
  }

  /** The frame the module body mutates between reading and resampling:
      the DateTime index and the columns Pres1, Pres2, Pres3. */
  class ObsFrame {
    var index: seq<int>
    var columns: seq<seq<Cell>>

    ghost predicate Valid()
      reads this
    {
      |columns| == 3 && forall c :: 0 <= c < 3 ==> |columns[c]| == |index|
    }

    constructor (raw: RawFrame)
      requires WellFormed(raw)
      ensures Valid() && index == raw.index && columns == raw.columns
    {
      index := raw.index;
      columns := raw.columns;
    }

    /** Line 55: the index is re-labelled from EST to UTC. */
    method LocalizeToUtc()
      requires Valid()
      modifies this
      ensures Valid() && columns == old(columns) && |index| == |old(index)|
      ensures forall i :: 0 <= i < |index| ==> index[i] == EstToUtc(old(index)[i])
    {
      var local := index;
      index := seq(|local|, i requires 0 <= i < |local| => EstToUtc(local[i]));
    }

    /** Lines 58-60: each pressure column that is not already float64 is
      coerced to numbers in place. */
    method CoercePressures()
      requires Valid()
      modifies this
      ensures Valid() && index == old(index)
      ensures forall c :: 0 <= c < 3 ==> columns[c] == CoerceColumn(old(columns)[c])
    {
      var c := 0;
      while c < 3
        invariant 0 <= c <= 3 && Valid() && index == old(index)
        invariant forall k :: 0 <= k < c ==> columns[k] == CoerceColumn(old(columns)[k])
        invariant forall k :: c <= k < 3 ==> columns[k] == old(columns)[k]
      {
        if !IsFloatColumn(columns[c]) {
          columns := columns[c := CoerceColumn(columns[c])];
        } else {
          CoerceFloatColumnIsIdentity(columns[c]);
        }
        c := c + 1;
      }
    }

    /** The frame's rows, read off its index and columns. */
    function Rows(): (rows: seq<Stamped<Reading>>)
      reads this
      requires Valid()
      ensures |rows| == |index|
    {
      var ix, cols := index, columns;
      seq(|ix|, i requires 0 <= i < |ix| =>
        Stamped(ix[i], Reading(CellValue(cols[0][i]), CellValue(cols[1][i]), CellValue(cols[2][i]))))
    }
  }

  /** Lines 42-60 as the script runs them on a parsed frame: build the frame,
      shift it to UTC, coerce its columns; the rows are the records
      Observations specifies. */
  method LoadObservations(raw: RawFrame) returns (obs: seq<Stamped<Reading>>)
    requires WellFormed(raw)
    ensures obs == Observations(raw)
  {
    var frame := new ObsFrame(raw);
    frame.LocalizeToUtc();
    frame.CoercePressures();
    obs := frame.Rows();
    forall i | 0 <= i < |obs| ensures obs[i] == Observations(raw)[i] {
      assert frame.index[i] == EstToUtc(raw.index[i]);
      assert forall c :: 0 <= c < 3 ==> frame.columns[c][i] == CoerceCell(raw.columns[c][i]);
    }
  }
}
