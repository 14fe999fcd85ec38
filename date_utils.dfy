/** `data_preprocessing/date_utils.py`: the parsed `Fecha pandas` column,
    the Spanish `YYYY-Mon-DD` rewrite of `Fecha`, and the `Mon YYYY` month
    label `Mes`. Parsing free text is the parameter `parse`; the day's time
    is not modelled. */
module DateUtils {
  import opened Text
  import opened Tables
  import opened Config

  type Parser = string -> Option<CalDate>

  // ---------------------------------------------------------------------
  // Integers as timestamps: nanoseconds since 1970-01-01, proleptic
  // Gregorian calendar, the date taken by flooring to whole days

  const NsPerDay: int := 86_400_000_000_000

  /** pandas' missing-time marker, the smallest 64-bit integer. */
  const NaTValue: int := -0x8000_0000_0000_0000

  /** A 64-bit integer other than the marker: pandas' timestamp range. */
  predicate InStampRange(i: int)
  {
    NaTValue < i < -NaTValue
  }

  predicate Leap(y: int)
  {
    y % 4 == 0 && (y % 100 != 0 || y % 400 == 0)
  }

  function YearDays(y: int): int
  {
    if Leap(y) then 366 else 365
  }

  function MonthDays(y: int, m: Month): Day
  {
    if m == 2 then (if Leap(y) then 29 else 28)
    else if m == 4 || m == 6 || m == 9 || m == 11 then 30
    else 31
  }

  /** Days of year `y` before the first of month `m`. */
  function DaysBeforeMonth(y: int, m: Month): nat
  {
    [0, 31, 59, 90, 120, 151, 181, 212, 243, 273, 304, 334][m - 1]
      + (if m > 2 && Leap(y) then 1 else 0)
  }

  lemma MonthStep(y: int, m: Month)
    ensures m < 12 ==> DaysBeforeMonth(y, m + 1) == DaysBeforeMonth(y, m) + MonthDays(y, m)
    ensures m == 12 ==> DaysBeforeMonth(y, m) + MonthDays(y, m) == YearDays(y)
  {
  }

  /** Days from 1970-01-01 to the first of January of `y`; negative before 1970. */
  function DaysToYear(y: int): int
    decreases if y >= 1970 then y - 1970 else 1970 - y
  {
    if y == 1970 then 0
    else if y > 1970 then DaysToYear(y - 1) + YearDays(y - 1)
    else DaysToYear(y + 1) - YearDays(y)
  }

  lemma YearStep(y: int)
    ensures DaysToYear(y + 1) == DaysToYear(y) + YearDays(y)
  {
  }

  /** The day number of a date: days since 1970-01-01. */
  function EpochDay(d: CalDate): int
  {
    DaysToYear(d.year) + DaysBeforeMonth(d.year, d.month) + d.day - 1
  }

  /** The day exists in its month. */
  predicate ValidDate(d: CalDate)
  {
    d.day <= MonthDays(d.year, d.month)
  }

  /** Day `n` counted from the first of January of `y`, as a year and a
      day of that year counted from 0. */
  function YearOfDay(y: nat, n: int): (r: (nat, nat))
    requires n >= -365 * y
    ensures r.1 < YearDays(r.0)
    ensures DaysToYear(r.0) + r.1 == DaysToYear(y) + n
    decreases if n < 0 then 1 else 0, if n < 0 then -n else n
  {
    if 0 <= n < YearDays(y) then (y, n)
    else if n >= YearDays(y) then
      YearStep(y);
      YearOfDay(y + 1, n - YearDays(y))
    else
      YearStep(y - 1);
      YearOfDay(y - 1, n + YearDays(y - 1))
  }

  /** Day `n` counted from the first of month `m` of year `y`, as a month
      and a day of that month. */
  function MonthOfDay(y: int, m: Month, n: nat): (r: (Month, Day))
    requires DaysBeforeMonth(y, m) + n < YearDays(y)
    ensures DaysBeforeMonth(y, r.0) + r.1 - 1 == DaysBeforeMonth(y, m) + n
    ensures r.1 <= MonthDays(y, r.0)
    decreases 12 - m
  {
    MonthStep(y, m);
    if n < MonthDays(y, m) then (m, n + 1)
    else MonthOfDay(y, m + 1, n - MonthDays(y, m))
  }

  /** The date of the timestamp `ns` nanoseconds after 1970-01-01: a real
      date whose day number is `ns` floored to whole days. */
  function EpochDate(ns: int): (d: CalDate)
    requires InStampRange(ns)
    ensures ValidDate(d)
    ensures EpochDay(d) == ns / NsPerDay
  {
    var yd := YearOfDay(1970, ns / NsPerDay);
    var md := MonthOfDay(yd.0, 1, yd.1);
    CalDate(yd.0, md.0, md.1)
  }

  lemma {:induction false} YearsApart(a: int, b: int)
    requires a < b
    ensures DaysToYear(a) + YearDays(a) <= DaysToYear(b)
    decreases b - a
  {
    YearStep(a);
    if a + 1 < b {
      YearsApart(a + 1, b);
      YearStep(a + 1);
    }
  }

  lemma MonthsApart(y: int, a: Month, b: Month)
    requires a < b
    ensures DaysBeforeMonth(y, a) + MonthDays(y, a) <= DaysBeforeMonth(y, b)
  {
  }

  lemma MonthsOfYear(d: CalDate)
    requires ValidDate(d)
    ensures DaysBeforeMonth(d.year, d.month) + d.day - 1 < YearDays(d.year)
  {
    MonthStep(d.year, 12);
    if d.month < 12 { MonthsApart(d.year, d.month, 12); }
  }

  /** Two real dates with the same day number are the same date, so the
      day number determines `EpochDate`. */
  lemma EpochDayInjective(a: CalDate, b: CalDate)
    requires ValidDate(a) && ValidDate(b) && EpochDay(a) == EpochDay(b)
    ensures a == b
  {
    MonthsOfYear(a);
    MonthsOfYear(b);
    if a.year < b.year { YearsApart(a.year, b.year); }
    if b.year < a.year { YearsApart(b.year, a.year); }
    if a.month < b.month { MonthsApart(a.year, a.month, b.month); }
    if b.month < a.month { MonthsApart(a.year, b.month, a.month); }
  }

  /** Timestamp 0 is 1970-01-01, and one nanosecond before it falls on
      the previous day. */
  lemma EpochStart()
    ensures EpochDate(0) == CalDate(1970, 1, 1)
    ensures EpochDate(-1) == CalDate(1969, 12, 31)
  {
    EpochZero();
    EpochBeforeZero();
  }

  lemma EpochZero()
    ensures EpochDate(0) == CalDate(1970, 1, 1)
  {
    EpochDayInjective(EpochDate(0), CalDate(1970, 1, 1));
  }

  lemma EpochBeforeZero()
    ensures EpochDate(-1) == CalDate(1969, 12, 31)
  {
    assert DaysToYear(1969) == -365;
    EpochDayInjective(EpochDate(-1), CalDate(1969, 12, 31));
  }

  /** `pd.to_datetime(x, errors='coerce')` of one cell: a timestamp stays, a
      parseable text becomes its date, an integer is read as nanoseconds
      since 1970-01-01 (outside pandas' timestamp range it becomes
      missing), anything else becomes missing. */
  function Coerce(parse: Parser, c: Cell): (r: Cell)
    ensures r.Null? || r.Date?
    ensures r.Null? <==> c.Null? || (c.Int? && !InStampRange(c.i)) || (c.Str? && parse(c.s).None?)
    ensures c.Int? && InStampRange(c.i) ==> ValidDate(r.date) && EpochDay(r.date) == c.i / NsPerDay
  {
    match c
    case Date(_) => c
    case Str(s) => (match parse(s) case Some(d) => Date(d) case None => Null)
    case Int(i) => if InStampRange(i) then Date(EpochDate(i)) else Null
    case Null => Null
  }

  function CoerceColumn(parse: Parser, col: seq<Cell>): (r: seq<Cell>)
    ensures |r| == |col|
    ensures forall i | 0 <= i < |col| :: r[i] == Coerce(parse, col[i])
  {
    seq(|col|, i requires 0 <= i < |col| => Coerce(parse, col[i]))
  }

  /** `pd.to_datetime(x)` without coercion does not raise on this cell. */
  predicate Parses(parse: Parser, c: Cell)
  {
    || c.Null? || c.Date?
    || (c.Int? && (InStampRange(c.i) || c.i == NaTValue))
    || (c.Str? && parse(c.s).Some?)
  }

  predicate AllParse(parse: Parser, col: seq<Cell>)
  {
    forall i | 0 <= i < |col| :: Parses(parse, col[i])
  }

  /** The `.dt` accessor is available: every cell is a timestamp or missing. */
  predicate DateLike(col: seq<Cell>)
  {
    forall i | 0 <= i < |col| :: col[i].Null? || col[i].Date?
  }

  /** `dt.year.astype(str)`: once the column holds a missing value pandas
      keeps the years as floats, and they render with a trailing `.0`. */
  function YearText(y: nat, asFloat: bool): string
  {
    NatToStr(y) + (if asFloat then ".0" else "")
  }

  /** `dt.day.astype(str).str.zfill(2)`, with the same float rendering. */
  function DayText(d: nat, asFloat: bool): string
  {
    if asFloat then NatToStr(d) + ".0" else Pad2(d)
  }

  function FechaText(d: CalDate, asFloat: bool): string
  {
    YearText(d.year, asFloat) + "-" + SpanishAbbrev(d.month) + "-" + DayText(d.day, asFloat)
  }

  function MesText(d: CalDate, asFloat: bool): string
  {
    SpanishAbbrev(d.month) + " " + YearText(d.year, asFloat)
  }

  /** The rewritten `Fecha` of a parsed column; missing stays missing. */
  function FechaColumn(dt: seq<Cell>): (r: seq<Cell>)
    ensures |r| == |dt|
  {
    seq(|dt|, i requires 0 <= i < |dt| =>
      if dt[i].Date? then Str(FechaText(dt[i].date, HasNull(dt))) else Null)
  }

  /** The final `Mes` of a timestamp column; missing stays missing. */
  function MesColumn(dt: seq<Cell>): (r: seq<Cell>)
    ensures |r| == |dt|
  {
    seq(|dt|, i requires 0 <= i < |dt| =>
      if dt[i].Date? then Str(MesText(dt[i].date, HasNull(dt))) else Null)
  }

  // ---------------------------------------------------------------------
  // agregar_nueva_fecha

  /** What `agregar_nueva_fecha(df, fecha_col)` leaves in the frame, or the
      exception it raises. The strict second parse always reads `Fecha`. */
  function NuevaFecha(parse: Parser, t: Table, fechaCol: string): Result<Table>
    requires WellFormed(t)
  {
    if fechaCol !in t.cols then Err(KeyError(fechaCol))
    else
      var t1 := SetCol(t, "Fecha pandas", CoerceColumn(parse, t.cols[fechaCol]));
      if "Fecha" !in t1.cols then Err(KeyError("Fecha"))
      else if !AllParse(parse, t1.cols["Fecha"]) then Err(ParseError("Fecha"))
      else Ok(SetCol(t1, "Fecha", FechaColumn(CoerceColumn(parse, t1.cols["Fecha"]))))
  }

  method AgregarNuevaFecha(f: Frame, parse: Parser, fechaCol: string) returns (o: Outcome)
    requires f.Valid()
    modifies f
    ensures f.Valid()
    ensures Agrees(o, NuevaFecha(parse, old(f.Value()), fechaCol), f.Value())
  {
    if fechaCol !in f.cols {
      return Fail(KeyError(fechaCol));
    }
    f.SetColumn("Fecha pandas", CoerceColumn(parse, f.cols[fechaCol]));
    if "Fecha" !in f.cols {
      return Fail(KeyError("Fecha"));
    }
    var raw := f.cols["Fecha"];
    if !AllParse(parse, raw) {
      return Fail(ParseError("Fecha"));
    }
    f.SetColumn("Fecha", FechaColumn(CoerceColumn(parse, raw)));
    o := Pass;
  }

  /** The step raises exactly when `fecha_col` or `Fecha` is missing, or a
      `Fecha` cell is neither missing nor parseable. */
  lemma NuevaFechaRaises(parse: Parser, t: Table, fechaCol: string)
    requires WellFormed(t)
    ensures fechaCol !in t.cols ==> NuevaFecha(parse, t, fechaCol) == Err(KeyError(fechaCol))
    ensures fechaCol in t.cols && "Fecha" !in t.cols ==>
      NuevaFecha(parse, t, fechaCol) == Err(KeyError("Fecha"))
    ensures fechaCol in t.cols && "Fecha" in t.cols ==>
      (NuevaFecha(parse, t, fechaCol).Err? <==>
       exists i | 0 <= i < t.rows :: !Parses(parse, t.cols["Fecha"][i]))
  {
  }

  /** On success only `Fecha pandas` (added at the end when new) and `Fecha`
      are written; `Fecha pandas` is the coercing parse of `fecha_col`, and
      every other column and the row count are unchanged. */
  lemma NuevaFechaWrites(parse: Parser, t: Table, fechaCol: string)
    requires WellFormed(t)
    requires NuevaFecha(parse, t, fechaCol).Ok?
    ensures var u := NuevaFecha(parse, t, fechaCol).value;
      && WellFormed(u) && u.rows == t.rows
      && u.names == (if "Fecha pandas" in t.cols then t.names else t.names + ["Fecha pandas"])
      && u.cols["Fecha pandas"] == CoerceColumn(parse, t.cols[fechaCol])
      && u.cols["Fecha"] == FechaColumn(CoerceColumn(parse, t.cols["Fecha"]))
      && forall n | n != "Fecha" && n != "Fecha pandas" :: SameCol(t, u, n)
  {
  }

  // ---------------------------------------------------------------------
  // columna_mes

  /** `strftime('%b')` of a timestamp column. */
  function EnglishColumn(col: seq<Cell>): (r: seq<Cell>)
    ensures |r| == |col|
  {
    seq(|col|, i requires 0 <= i < |col| =>
      if col[i].Date? then Str(EnglishAbbrev(col[i].date.month)) else Null)
  }

  /** `.map(meses_esp)`: a text that is not a key becomes missing. */
  function SpanishColumn(col: seq<Cell>): (r: seq<Cell>)
    ensures |r| == |col|
  {
    seq(|col|, i requires 0 <= i < |col| =>
      if col[i].Str? && col[i].s in MesesEsp then Str(MesesEsp[col[i].s]) else Null)
  }

  /** `mes + ' ' + dt.year.astype(str)`: a missing label stays missing. */
  function WithYear(mes: seq<Cell>, dt: seq<Cell>): (r: seq<Cell>)
    requires |mes| == |dt|
    ensures |r| == |mes|
  {
    seq(|mes|, i requires 0 <= i < |mes| =>
      if !mes[i].Str? then Null
      else if dt[i].Date? then Str(mes[i].s + " " + YearText(dt[i].date.year, HasNull(dt)))
      else Str(mes[i].s + " nan"))
  }

  /** What `columna_mes(df, fecha_col)` leaves in the frame, or the
      exception it raises. Reading the year from `Mes` itself fails once
      `Mes` holds labels. */
  function Mes(t: Table, fechaCol: string): Result<Table>
    requires WellFormed(t)
  {
    if fechaCol !in t.cols then Err(KeyError(fechaCol))
    else if !DateLike(t.cols[fechaCol]) then Err(AccessorError(fechaCol))
    else if fechaCol == "Mes" && exists i | 0 <= i < t.rows :: t.cols["Mes"][i].Date? then
      Err(AccessorError("Mes"))
    else Ok(SetCol(t, "Mes", MesColumn(t.cols[fechaCol])))
  }

  lemma ThreeWrites(col: seq<Cell>)
    requires DateLike(col)
    ensures WithYear(SpanishColumn(EnglishColumn(col)), col) == MesColumn(col)
  {
    var a := WithYear(SpanishColumn(EnglishColumn(col)), col);
    forall i | 0 <= i < |col| ensures a[i] == MesColumn(col)[i] {
      if col[i].Date? {
        assert EnglishColumn(col)[i] == Str(EnglishAbbrev(col[i].date.month));
      }
    }
  }

  lemma LabelsNotDates(col: seq<Cell>)
    requires DateLike(col)
    ensures DateLike(SpanishColumn(EnglishColumn(col))) <==> forall i | 0 <= i < |col| :: col[i].Null?
  {
    var s := SpanishColumn(EnglishColumn(col));
    if DateLike(s) {
      forall i | 0 <= i < |col| ensures col[i].Null? {
        assert s[i].Null? || s[i].Date?;
      }
    }
  }

  /** After the first two writes of `Mes`, the third one succeeds exactly
      when the specification does, and gives the specified table. */
  lemma MesSteps(t: Table, fechaCol: string)
    requires WellFormed(t) && fechaCol in t.cols && DateLike(t.cols[fechaCol])
    ensures var e := EnglishColumn(t.cols[fechaCol]);
      var t2 := SetCol(SetCol(t, "Mes", e), "Mes", SpanishColumn(e));
      var dt := t2.cols[fechaCol];
      && (DateLike(dt) ==> Mes(t, fechaCol) == Ok(SetCol(t2, "Mes", WithYear(SpanishColumn(e), dt))))
      && (!DateLike(dt) ==> Mes(t, fechaCol) == Err(AccessorError(fechaCol)))
  {
    var col := t.cols[fechaCol];
    var e := EnglishColumn(col);
    var t1 := SetCol(t, "Mes", e);
    var t2 := SetCol(t1, "Mes", SpanishColumn(e));
    var dt := t2.cols[fechaCol];
    SetColTwice(t, "Mes", e, SpanishColumn(e));
    LabelsNotDates(col);
    if DateLike(dt) {
      var w := WithYear(SpanishColumn(e), dt);
      SetColTwice(t, "Mes", SpanishColumn(e), w);
      if fechaCol == "Mes" {
        assert forall i | 0 <= i < |col| :: col[i].Null?;
        assert w == MesColumn(col) by {
          forall i | 0 <= i < |col| ensures w[i] == MesColumn(col)[i] {}
        }
      } else {
        ThreeWrites(col);
      }
    }
  }

  /** `columna_mes` writes `Mes` three times: the English abbreviation, its
      Spanish translation, then the label with the year. */
  method ColumnaMes(f: Frame, fechaCol: string) returns (o: Outcome)
    requires f.Valid()
    modifies f
    ensures f.Valid()
    ensures Agrees(o, Mes(old(f.Value()), fechaCol), f.Value())
  {
    if fechaCol !in f.cols {
      return Fail(KeyError(fechaCol));
    }
    var col := f.cols[fechaCol];
    if !DateLike(col) {
      return Fail(AccessorError(fechaCol));
    }
    MesSteps(f.Value(), fechaCol);
    f.SetColumn("Mes", EnglishColumn(col));
    f.SetColumn("Mes", SpanishColumn(f.cols["Mes"]));
    var dt := f.cols[fechaCol];
    if !DateLike(dt) {
      return Fail(AccessorError(fechaCol));
    }
    f.SetColumn("Mes", WithYear(f.cols["Mes"], dt));
    o := Pass;
  }

  /** On success only `Mes` is written (added at the end when new); missing
      timestamps give a missing label; every other column and the row count
      are unchanged. */
  lemma MesWrites(t: Table, fechaCol: string)
    requires WellFormed(t) && Mes(t, fechaCol).Ok?
    ensures var u := Mes(t, fechaCol).value;
      && WellFormed(u) && u.rows == t.rows
      && u.names == (if "Mes" in t.cols then t.names else t.names + ["Mes"])
      && (forall i | 0 <= i < t.rows :: u.cols["Mes"][i].Null? <==> t.cols[fechaCol][i].Null?)
      && forall n | n != "Mes" :: SameCol(t, u, n)
  {
  }

  // ---------------------------------------------------------------------
  // Reading the labels back

  /** `2025-03-05` is written `2025-Mar-05`. */
  lemma FechaExample()
    ensures FechaText(CalDate(2025, 3, 5), false) == "2025-Mar-05"
  {
    assert NatToStr(20) == "20";
    assert NatToStr(2025) == "2025";
    assert YearText(2025, false) == "2025";
    assert DayText(5, false) == "05";
  }

  /** A January 2025 timestamp gets the label `Ene 2025`. */
  lemma MesExample()
    ensures MesText(CalDate(2025, 1, 20), false) == "Ene 2025"
  {
    assert NatToStr(2025) == "2025";
  }

  lemma YearTextPlain(y: nat, asFloat: bool)
    ensures '-' !in YearText(y, asFloat) && ' ' !in YearText(y, asFloat)
  {
    var s := YearText(y, asFloat);
    assert forall i | 0 <= i < |s| :: IsDigit(s[i]) || s[i] == '.';
  }

  lemma SpanishPlain(m: Month)
    ensures '-' !in SpanishAbbrev(m) && ' ' !in SpanishAbbrev(m)
  {
    SpanishShape(m);
  }

  /** The three `-`-separated fields of a rewritten `Fecha`. */
  lemma FechaFields(d: CalDate, asFloat: bool)
    ensures Split(FechaText(d, asFloat), '-') ==
      [YearText(d.year, asFloat), SpanishAbbrev(d.month), DayText(d.day, asFloat)]
  {
    var parts := [YearText(d.year, asFloat), SpanishAbbrev(d.month), DayText(d.day, asFloat)];
    YearTextPlain(d.year, asFloat);
    SpanishPlain(d.month);
    var dd := DayText(d.day, asFloat);
    assert forall i | 0 <= i < |dd| :: IsDigit(dd[i]) || dd[i] == '.';
    Join3("-", parts[0], parts[1], parts[2]);
    SplitJoin(parts, '-');
  }

  /** The two space-separated fields of a `Mes` label. */
  lemma MesFields(d: CalDate, asFloat: bool)
    ensures Split(MesText(d, asFloat), ' ') == [SpanishAbbrev(d.month), YearText(d.year, asFloat)]
  {
    var parts := [SpanishAbbrev(d.month), YearText(d.year, asFloat)];
    YearTextPlain(d.year, asFloat);
    SpanishPlain(d.month);
    Join2(" ", parts[0], parts[1]);
    SplitJoin(parts, ' ');
  }

  /** Decoding a rewritten `Fecha` (all rows parsed) gives the date back. */
  lemma FechaRoundTrip(d: CalDate)
    ensures var p := Split(FechaText(d, false), '-');
      && |p| == 3 && IsDecimal(p[0]) && IsDecimal(p[2])
      && DecimalValue(p[0]) == d.year
      && MonthOfSpanish(p[1]) == Some(d.month)
      && DecimalValue(p[2]) == d.day
  {
    FechaFields(d, false);
    assert YearText(d.year, false) == NatToStr(d.year);
    DecimalRoundTrip(d.year);
    MonthOfSpanishRoundTrip(d.month);
  }

  /** The month label's key: the year, and the month recovered through
      the reversed `meses_esp`. */
  function MesKey(text: string): (k: Option<(nat, Month)>)
  {
    var p := Split(text, ' ');
    if |p| == 2 && IsDecimal(p[1]) && MonthOfSpanish(p[0]).Some? then
      Some((DecimalValue(p[1]), MonthOfSpanish(p[0]).value))
    else None
  }

  lemma MesKeyRoundTrip(d: CalDate)
    ensures MesKey(MesText(d, false)) == Some((d.year, d.month))
  {
    MesFields(d, false);
    assert YearText(d.year, false) == NatToStr(d.year);
    DecimalRoundTrip(d.year);
    MonthOfSpanishRoundTrip(d.month);
  }

  predicate KeyLess(a: (nat, Month), b: (nat, Month))
  {
    a.0 < b.0 || (a.0 == b.0 && a.1 < b.1)
  }

  predicate DateLeq(a: CalDate, b: CalDate)
  {
    a.year < b.year || (a.year == b.year && (a.month < b.month || (a.month == b.month && a.day <= b.day)))
  }

  /** Ordering month labels by (year, recovered month) agrees with ordering
      their timestamps: an earlier label means an earlier timestamp, and an
      earlier-or-equal timestamp never gets a later label. */
  lemma MesOrder(d1: CalDate, d2: CalDate)
    ensures var k1, k2 := MesKey(MesText(d1, false)), MesKey(MesText(d2, false));
      && k1.Some? && k2.Some?
      && (KeyLess(k1.value, k2.value) ==> DateLeq(d1, d2) && d1 != d2)
      && (DateLeq(d1, d2) ==> !KeyLess(k2.value, k1.value))
  {
    MesKeyRoundTrip(d1);
    MesKeyRoundTrip(d2);
  }

  /** The two columns the pipeline's date steps leave, as functions of the
      parsed `Fecha`. */
  lemma DateStepsColumns(parse: Parser, t: Table)
    requires WellFormed(t) && NuevaFecha(parse, t, "Fecha").Ok?
    ensures var u := NuevaFecha(parse, t, "Fecha").value;
      var dt := CoerceColumn(parse, t.cols["Fecha"]);
      && Mes(u, "Fecha pandas").Ok?
      && var v := Mes(u, "Fecha pandas").value;
      && v.rows == t.rows
      && v.cols["Fecha"] == FechaColumn(dt)
      && v.cols["Mes"] == MesColumn(dt)
  {
    var u := NuevaFecha(parse, t, "Fecha").value;
    var dt := CoerceColumn(parse, t.cols["Fecha"]);
    assert u.cols["Fecha pandas"] == dt;
    assert DateLike(dt);
  }

  /** Both missing, or the `YYYY-Mon-DD` text and the `Mon YYYY` label
      carry the same month token and the same year token. */
  predicate SameMonthYear(fe: Cell, me: Cell)
  {
    && (fe.Null? <==> me.Null?)
    && (fe.Str? && me.Str? ==>
          var a, b := Split(fe.s, '-'), Split(me.s, ' ');
          |a| == 3 && |b| == 2 && a[1] == b[0] && a[0] == b[1])
  }

  lemma RowAgrees(dt: seq<Cell>, i: int)
    requires 0 <= i < |dt|
    ensures SameMonthYear(FechaColumn(dt)[i], MesColumn(dt)[i])
  {
    if dt[i].Date? {
      FechaFields(dt[i].date, HasNull(dt));
      MesFields(dt[i].date, HasNull(dt));
    }
  }

  /** Run as the normalisers run them (`agregar_nueva_fecha` on `Fecha`, then
      `columna_mes` on `Fecha pandas`): both succeed once `Fecha` parses,
      and on every row `Fecha` and `Mes` are both missing or carry the
      same month token and the same year token. */
  lemma FechaMesAgree(parse: Parser, t: Table)
    requires WellFormed(t) && NuevaFecha(parse, t, "Fecha").Ok?
    ensures var u := NuevaFecha(parse, t, "Fecha").value;
      && Mes(u, "Fecha pandas").Ok?
      && var v := Mes(u, "Fecha pandas").value;
      && v.rows == t.rows
      && forall i | 0 <= i < t.rows :: SameMonthYear(v.cols["Fecha"][i], v.cols["Mes"][i])
  {
    DateStepsColumns(parse, t);
    var dt := CoerceColumn(parse, t.cols["Fecha"]);
    forall i | 0 <= i < t.rows
      ensures SameMonthYear(FechaColumn(dt)[i], MesColumn(dt)[i])
    {
      RowAgrees(dt, i);
    }
  }
}
