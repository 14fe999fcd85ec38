/** `report_generator.py`: the data rules around the report. Each location
    keeps only its own raw rows, which go through the three normalisers;
    the month under exclusion is then dropped from the full views. The
    per-location summary counts the raw rows of each record type. The
    report loop names each location's sections with a short prefix, and a
    report saved to disk gets a file name built from the locations and the
    date. */
module ReportGenerator {
  import opened Text
  import opened Tables
  import opened DateUtils
  import Pipeline

  const SedeCol: string := "Sede"
  const MesCol: string := "Mes"
  const FechaCol: string := "Fecha"

  // ---------------------------------------------------------------------
  // Row masks

  /** `df[col] == v` as a row mask. */
  function Matches(col: seq<Cell>, v: Cell): (keep: seq<bool>)
    ensures |keep| == |col|
    ensures forall i | 0 <= i < |col| :: keep[i] == (col[i] == v)
  {
    seq(|col|, i requires 0 <= i < |col| => col[i] == v)
  }

  /** `df[col] != v` as a row mask (a missing cell differs from any text). */
  function Differs(col: seq<Cell>, v: Cell): (keep: seq<bool>)
    ensures |keep| == |col|
    ensures forall i | 0 <= i < |col| :: keep[i] == (col[i] != v)
  {
    seq(|col|, i requires 0 <= i < |col| => col[i] != v)
  }

  /** The rows a `==` mask keeps are the occurrences of `v`. */
  lemma {:induction false} CountMatches(col: seq<Cell>, v: Cell)
    ensures Count(Matches(col, v)) == multiset(col)[v]
  {
    if |col| > 0 {
      CountMatches(col[1..], v);
      assert Matches(col, v)[1..] == Matches(col[1..], v);
      assert col == [col[0]] + col[1..];
    }
  }

  /** The rows a `!=` mask keeps are all but the occurrences of `v`. */
  lemma {:induction false} CountDiffers(col: seq<Cell>, v: Cell)
    ensures Count(Differs(col, v)) == |col| - multiset(col)[v]
  {
    if |col| > 0 {
      CountDiffers(col[1..], v);
      assert Differs(col, v)[1..] == Differs(col[1..], v);
      assert col == [col[0]] + col[1..];
    }
  }

  /** Every cell a `==` mask keeps is `v`. */
  lemma {:induction false} PickMatches(col: seq<Cell>, v: Cell)
    ensures forall x | x in Pick(col, Matches(col, v)) :: x == v
  {
    if |col| > 0 {
      PickMatches(col[1..], v);
      assert Matches(col, v)[1..] == Matches(col[1..], v);
    }
  }

  /** No cell a `!=` mask keeps is `v`. */
  lemma {:induction false} PickDiffers(col: seq<Cell>, v: Cell)
    ensures forall x | x in Pick(col, Differs(col, v)) :: x != v
  {
    if |col| > 0 {
      PickDiffers(col[1..], v);
      assert Differs(col, v)[1..] == Differs(col[1..], v);
    }
  }

  /** A mask that keeps every row keeps the column as it is. */
  lemma {:induction false} PickAll<T>(s: seq<T>, keep: seq<bool>)
    requires |s| == |keep| && forall i | 0 <= i < |keep| :: keep[i]
    ensures Pick(s, keep) == s && Count(keep) == |keep|
  {
    if |s| > 0 {
      PickAll(s[1..], keep[1..]);
      assert [s[0]] + s[1..] == s;
    }
  }

  // ---------------------------------------------------------------------
  // process_location_data

  /** `df[df['Sede'] == location]`: the rows of one location, in order. */
  function AtLocation(t: Table, loc: string): (r: Result<Table>)
    requires WellFormed(t)
    ensures r.Err? <==> SedeCol !in t.cols
    ensures r.Err? ==> r.error == KeyError(SedeCol)
    ensures r.Ok? ==> && WellFormed(r.value) && r.value.names == t.names
                      && r.value.rows == multiset(t.cols[SedeCol])[Str(loc)]
    ensures r.Ok? ==> forall i | 0 <= i < r.value.rows :: r.value.cols[SedeCol][i] == Str(loc)
  {
    if SedeCol !in t.cols then Err(KeyError(SedeCol))
    else
      var keep := Matches(t.cols[SedeCol], Str(loc));
      CountMatches(t.cols[SedeCol], Str(loc));
      PickMatches(t.cols[SedeCol], Str(loc));
      var u := FilterRows(t, keep);
      assert forall i | 0 <= i < u.rows :: u.cols[SedeCol][i] in Pick(t.cols[SedeCol], keep);
      Ok(u)
  }

  /** `after` is `before` without the rows whose `Mes` is `mes`: the other
      rows stay, in their order, and no row of that month is left. */
  ghost predicate Excluded(before: Table, after: Table, mes: string)
  {
    && WellFormed(before) && WellFormed(after)
    && MesCol in before.cols && MesCol in after.cols
    && after.names == before.names && after.cols.Keys == before.cols.Keys
    && after.rows == before.rows - multiset(before.cols[MesCol])[Str(mes)]
    && (forall i | 0 <= i < after.rows :: after.cols[MesCol][i] != Str(mes))
    && forall n | n in before.cols :: after.cols[n] == Pick(before.cols[n], Differs(before.cols[MesCol], Str(mes)))
  }

  /** `df[df['Mes'] != mes_excluir]`. */
  function WithoutMonth(t: Table, mes: string): (r: Result<Table>)
    requires WellFormed(t)
    ensures r.Err? <==> MesCol !in t.cols
    ensures r.Err? ==> r.error == KeyError(MesCol)
    ensures r.Ok? ==> Excluded(t, r.value, mes)
  {
    if MesCol !in t.cols then Err(KeyError(MesCol))
    else
      var keep := Differs(t.cols[MesCol], Str(mes));
      CountDiffers(t.cols[MesCol], Str(mes));
      PickDiffers(t.cols[MesCol], Str(mes));
      var u := FilterRows(t, keep);
      assert forall i | 0 <= i < u.rows :: u.cols[MesCol][i] in Pick(t.cols[MesCol], keep);
      Ok(u)
  }

  /** A table with no row of the month loses nothing. */
  lemma WithoutMonthNoop(t: Table, mes: string)
    requires WellFormed(t) && MesCol in t.cols && Str(mes) !in t.cols[MesCol]
    ensures WithoutMonth(t, mes) == Ok(t)
  {
    var keep := Differs(t.cols[MesCol], Str(mes));
    forall n | n in t.cols ensures Pick(t.cols[n], keep) == t.cols[n] {
      PickAll(t.cols[n], keep);
    }
    PickAll(t.cols[MesCol], keep);
    var u := WithoutMonth(t, mes).value;
    assert u.cols == t.cols;
  }

  /** Excluding a month twice is excluding it once. */
  lemma WithoutMonthIdempotent(t: Table, mes: string)
    requires WellFormed(t) && WithoutMonth(t, mes).Ok?
    ensures WithoutMonth(WithoutMonth(t, mes).value, mes) == WithoutMonth(t, mes)
  {
    var u := WithoutMonth(t, mes).value;
    assert Str(mes) !in u.cols[MesCol] by {
      forall x | x in u.cols[MesCol] ensures x != Str(mes) {
        var i :| 0 <= i < |u.cols[MesCol]| && u.cols[MesCol][i] == x;
      }
    }
    WithoutMonthNoop(u, mes);
  }

  /** The location's rows of each raw table, through its normaliser: the
      three full views before any month is excluded. */
  function Normalised(parse: Parser, prev: Table, roed: Table, lamp: Table, loc: string)
    : (r: Result<(Table, Table, Table)>)
    requires WellFormed(prev) && WellFormed(roed) && WellFormed(lamp)
    ensures r.Ok? ==> WellFormed(r.value.0) && WellFormed(r.value.1) && WellFormed(r.value.2)
  {
    var p :- AtLocation(prev, loc);
    var q :- AtLocation(roed, loc);
    var l :- AtLocation(lamp, loc);
    var pv :- Pipeline.Preventivos(parse, p);
    var rv :- Pipeline.Roedores(parse, q);
    var lv :- Pipeline.Lamparas(parse, l);
    Ok((pv.1, rv.1, lv.1))
  }

  /** The steps of `process_location_data` before its exception wrapper. */
  function Process(parse: Parser, prev: Table, roed: Table, lamp: Table, loc: string, mes: string)
    : Result<(Table, Table, Table)>
    requires WellFormed(prev) && WellFormed(roed) && WellFormed(lamp)
  {
    var v :- Normalised(parse, prev, roed, lamp, loc);
    if mes == "" then Ok(v)
    else
      var a :- WithoutMonth(v.0, mes);
      var b :- WithoutMonth(v.1, mes);
      var c :- WithoutMonth(v.2, mes);
      Ok((a, b, c))
  }

  /** `process_location_data(prev, roed, lamp, location, mes_excluir)`: the
      full views of the three normalisers on the location's rows; an empty
      `mes_excluir` (Python's falsy `''` or `None`) excludes nothing. Any
      exception is re-raised as a failure of that location. */
  function ProcessLocation(parse: Parser, prev: Table, roed: Table, lamp: Table, loc: string, mes: string)
    : (r: Result<(Table, Table, Table)>)
    requires WellFormed(prev) && WellFormed(roed) && WellFormed(lamp)
    ensures r.Err? ==> r.error.LocationFailed? && r.error.location == loc
    ensures r.Ok? ==> SedeCol in prev.cols && SedeCol in roed.cols && SedeCol in lamp.cols
  {
    var r := Process(parse, prev, roed, lamp, loc, mes);
    if r.Err? then Err(LocationFailed(loc, r.error)) else r
  }

  /** With nothing excluded, each full view has one row per raw row of the
      location: only that location's rows are processed, and no step adds or
      drops rows. */
  lemma LocationRows(parse: Parser, prev: Table, roed: Table, lamp: Table, loc: string)
    requires WellFormed(prev) && WellFormed(roed) && WellFormed(lamp)
    requires ProcessLocation(parse, prev, roed, lamp, loc, "").Ok?
    ensures var r := ProcessLocation(parse, prev, roed, lamp, loc, "").value;
      && r.0.rows == multiset(prev.cols[SedeCol])[Str(loc)]
      && r.1.rows == multiset(roed.cols[SedeCol])[Str(loc)]
      && r.2.rows == multiset(lamp.cols[SedeCol])[Str(loc)]
  {
    var p := AtLocation(prev, loc).value;
    var q := AtLocation(roed, loc).value;
    var l := AtLocation(lamp, loc).value;
    var pv := Pipeline.Preventivos(parse, p);
    var rv := Pipeline.Roedores(parse, q);
    var lv := Pipeline.Lamparas(parse, l);
    assert pv.Ok? && rv.Ok? && lv.Ok?;
    assert Normalised(parse, prev, roed, lamp, loc).value == (pv.value.1, rv.value.1, lv.value.1);
  }

  /** With a month to exclude, each full view is the one without exclusion
      minus exactly the rows of that month; the location fails with the same
      error whenever it fails without exclusion. */
  lemma LocationExcludes(parse: Parser, prev: Table, roed: Table, lamp: Table, loc: string, mes: string)
    requires WellFormed(prev) && WellFormed(roed) && WellFormed(lamp) && mes != ""
    ensures var s := ProcessLocation(parse, prev, roed, lamp, loc, "");
      var r := ProcessLocation(parse, prev, roed, lamp, loc, mes);
      && (s.Err? ==> r == s)
      && (r.Ok? ==> && s.Ok?
                    && Excluded(s.value.0, r.value.0, mes)
                    && Excluded(s.value.1, r.value.1, mes)
                    && Excluded(s.value.2, r.value.2, mes))
  {
    var v := Normalised(parse, prev, roed, lamp, loc);
    if v.Ok? {
      var r := Process(parse, prev, roed, lamp, loc, mes);
      if r.Ok? {
        assert r.value == (WithoutMonth(v.value.0, mes).value, WithoutMonth(v.value.1, mes).value, WithoutMonth(v.value.2, mes).value);
      }
    }
  }

  // ---------------------------------------------------------------------
  // generate_report_for_locations

  /** The `locations` argument: one location name, or a list of them. */
  datatype Locations = One(name: string) | Many(names: seq<string>)

  /** A single name is wrapped into a one-element list. */
  function AsList(locations: Locations): (r: seq<string>)
    ensures locations.One? ==> |r| == 1 && r[0] == locations.name
    ensures locations.Many? ==> r == locations.names
  {
    match locations
    case One(n) => [n]
    case Many(ns) => ns
  }

  /** The prefix of a location's plot and table names. */
  function Prefix(loc: string): (p: string)
    ensures p == "med" <==> loc == "Medellín"
    ensures p == "rio" <==> loc != "Medellín"
  {
    if loc == "Medellín" then "med" else "rio"
  }

  /** One character of `.replace('í', 'i').replace('ó', 'o')`. */
  function PlainChar(c: char): char
  {
    if c == 'í' then 'i' else if c == 'ó' then 'o' else c
  }

  /** `.replace('í', 'i').replace('ó', 'o')` */
  function Plain(s: string): (r: string)
    ensures |r| == |s| && forall i | 0 <= i < |s| :: r[i] == PlainChar(s[i])
  {
    seq(|s|, i requires 0 <= i < |s| => PlainChar(s[i]))
  }

  /** The file name of a report saved to disk on the day `today`
      (`YYYY-MM-DD`). */
  function FileName(locs: seq<string>, today: string): string
  {
    "Informe_" + Plain(Join("_", locs)) + "_" + today + ".docx"
  }

  /** Every location name with its accents replaced. */
  function PlainAll(locs: seq<string>): (r: seq<string>)
    ensures |r| == |locs| && forall i | 0 <= i < |locs| :: r[i] == Plain(locs[i])
  {
    seq(|locs|, i requires 0 <= i < |locs| => Plain(locs[i]))
  }

  /** Replacing accents commutes with joining on `_`. */
  lemma {:induction false} PlainJoin(locs: seq<string>)
    requires |locs| >= 1
    ensures Plain(Join("_", locs)) == Join("_", PlainAll(locs))
  {
    if |locs| > 1 {
      var rest := Join("_", locs[1..]);
      var x := Plain(locs[0]);
      var y := Join("_", PlainAll(locs[1..]));
      assert Plain(rest) == y by {
        PlainJoin(locs[1..]);
      }
      assert Plain(Join("_", locs)) == x + ("_" + Plain(rest)) by {
        assert Join("_", locs) == locs[0] + ("_" + rest);
        PlainAppend(locs[0], "_" + rest);
        PlainAppend("_", rest);
        assert Plain("_") == "_";
      }
      assert Join("_", PlainAll(locs)) == x + "_" + y by {
        var ps := PlainAll(locs);
        assert ps[1..] == PlainAll(locs[1..]);
      }
      assert x + ("_" + y) == x + "_" + y;
    }
  }

  lemma PlainAppend(a: string, b: string)
    ensures Plain(a + b) == Plain(a) + Plain(b)
  {
    var l, r := Plain(a + b), Plain(a) + Plain(b);
    assert |l| == |r|;
    forall i | 0 <= i < |l| ensures l[i] == r[i] {
      if i < |a| {
        assert (a + b)[i] == a[i];
      } else {
        assert (a + b)[i] == b[i - |a|];
      }
    }
  }

  /** Appending one part to a non-empty join. */
  lemma {:induction false} JoinSnoc(xs: seq<string>, y: string)
    requires |xs| >= 1
    ensures Join("_", xs + [y]) == Join("_", xs) + "_" + y
  {
    if |xs| == 1 {
      assert xs + [y] == [xs[0], y];
      Join2("_", xs[0], y);
    } else {
      JoinSnoc(xs[1..], y);
      assert (xs + [y])[1..] == xs[1..] + [y];
    }
  }

  /** The file name can be read back: split on `_` it gives `Informe`, the
      locations without accents, and the date with its extension, as long as
      no location and not the date contain `_`. */
  lemma FileNameParts(locs: seq<string>, today: string)
    requires |locs| >= 1
    requires forall l | l in locs :: '_' !in l
    requires '_' !in today
    ensures Split(FileName(locs, today), '_') == ["Informe"] + PlainAll(locs) + [today + ".docx"]
  {
    var last := today + ".docx";
    var parts := PlainAll(locs) + [last];
    assert forall x | x in parts :: '_' !in x by {
      PlainAllNoUnderscore(locs);
      assert '_' !in last;
    }
    SplitJoin(parts, '_');
    FileNameJoin(locs, today);
    SplitAt("Informe", '_', Join("_", parts));
    assert ["Informe"] + PlainAll(locs) + [last] == ["Informe"] + parts;
  }

  /** The file name is `Informe`, then the plain locations and the dated
      extension joined on `_`. */
  lemma FileNameJoin(locs: seq<string>, today: string)
    requires |locs| >= 1
    ensures FileName(locs, today) == "Informe" + ['_'] + Join("_", PlainAll(locs) + [today + ".docx"])
  {
    PlainJoin(locs);
    JoinSnoc(PlainAll(locs), today + ".docx");
  }

  lemma PlainAllNoUnderscore(locs: seq<string>)
    requires forall l | l in locs :: '_' !in l
    ensures forall x | x in PlainAll(locs) :: '_' !in x
  {
    var ps := PlainAll(locs);
    forall x | x in ps ensures '_' !in x {
      var i :| 0 <= i < |ps| && ps[i] == x;
      assert locs[i] in locs;
      PlainNoUnderscore(locs[i]);
    }
  }

  lemma PlainNoUnderscore(s: string)
    requires '_' !in s
    ensures '_' !in Plain(s)
  {
    var r := Plain(s);
    forall i | 0 <= i < |r| ensures r[i] != '_' {
      assert s[i] in s;
    }
  }

  /** What the report receives for one location: the name prefix of its
      plots and tables and its three full views. */
  datatype Section = Section(prefix: string, prev: Table, roed: Table, lamp: Table)

  /** A generated report: its sections, one per location in order, and the
      file name when it is saved to disk instead of returned as a buffer. */
  datatype Report = Report(sections: seq<Section>, fileName: Option<string>)

  /** The section of one location, or the failure of its processing. */
  function SectionOf(parse: Parser, prev: Table, roed: Table, lamp: Table, loc: string, mes: string)
    : Result<Section>
    requires WellFormed(prev) && WellFormed(roed) && WellFormed(lamp)
  {
    match ProcessLocation(parse, prev, roed, lamp, loc, mes)
    case Err(e) => Err(e)
    case Ok((a, b, c)) => Ok(Section(Prefix(loc), a, b, c))
  }

  /** The loop of `generate_report_for_locations`: the locations in order,
      each through `step`, whose results are collected in order; the first
      failure ends the loop. */
  method CollectSections<T>(locs: seq<string>, step: string -> Result<T>) returns (r: Result<seq<T>>)
    ensures r.Ok? <==> forall i | 0 <= i < |locs| :: step(locs[i]).Ok?
    ensures r.Ok? ==> |r.value| == |locs| && forall i | 0 <= i < |locs| :: step(locs[i]) == Ok(r.value[i])
    ensures r.Err? ==> exists k | 0 <= k < |locs| ::
                         step(locs[k]) == Err(r.error) && forall i | 0 <= i < k :: step(locs[i]).Ok?
  {
    var done: seq<T> := [];
    var k := 0;
    while k < |locs|
      invariant 0 <= k <= |locs| && |done| == k
      invariant forall i | 0 <= i < k :: step(locs[i]) == Ok(done[i])
    {
      var s := step(locs[k]);
      if s.Err? {
        return Err(s.error);
      }
      done := done + [s.value];
      k := k + 1;
    }
    r := Ok(done);
  }

  /** `generate_report_for_locations` on already loaded raw tables: the
      sections of the locations in order, or the first location's failure
      wrapped as a report failure; a file name only when no buffer is
      asked for. `section` is the per-location step, `SectionOf` on these
      tables and this month. */
  method GenerateReport(parse: Parser, prev: Table, roed: Table, lamp: Table, locations: Locations,
                        mes: string, returnBuffer: bool, today: string,
                        section: string -> Result<Section>) returns (r: Result<Report>)
    requires WellFormed(prev) && WellFormed(roed) && WellFormed(lamp)
    requires forall loc {:trigger SectionOf(parse, prev, roed, lamp, loc, mes)} ::
      section(loc) == SectionOf(parse, prev, roed, lamp, loc, mes)
    ensures var locs := AsList(locations);
      r.Ok? <==> forall i | 0 <= i < |locs| :: section(locs[i]).Ok?
    ensures var locs := AsList(locations);
      r.Ok? ==> && |r.value.sections| == |locs|
                && (forall i | 0 <= i < |locs| :: section(locs[i]) == Ok(r.value.sections[i]))
                && (r.value.fileName.Some? <==> !returnBuffer)
                && (r.value.fileName.Some? ==> r.value.fileName.value == FileName(locs, today))
    ensures var locs := AsList(locations);
      r.Err? ==> exists k | 0 <= k < |locs| ::
                   && section(locs[k]).Err?
                   && r.error == ReportFailed(section(locs[k]).error)
                   && forall i | 0 <= i < k :: section(locs[i]).Ok?
  {
    var locs := AsList(locations);
    var sections := CollectSections(locs, section);
    if sections.Err? {
      return Err(ReportFailed(sections.error));
    }
    if returnBuffer {
      r := Ok(Report(sections.value, None));
    } else {
      r := Ok(Report(sections.value, Some(FileName(locs, today))));
    }
  }

  /** A location's section carries its prefix and the full views that
      `process_location_data` returns for it. */
  lemma SectionContents(parse: Parser, prev: Table, roed: Table, lamp: Table, loc: string, mes: string)
    requires WellFormed(prev) && WellFormed(roed) && WellFormed(lamp)
    ensures var s := SectionOf(parse, prev, roed, lamp, loc, mes);
      var p := ProcessLocation(parse, prev, roed, lamp, loc, mes);
      && (s.Ok? <==> p.Ok?)
      && (s.Err? ==> s.error == p.error && s.error.LocationFailed? && s.error.location == loc)
      && (s.Ok? ==> s.value == Section(Prefix(loc), p.value.0, p.value.1, p.value.2))
  {
  }

  // ---------------------------------------------------------------------
  // get_data_summary

  /** The non-missing text cells of a column, in order. */
  function Texts(col: seq<Cell>): (r: seq<string>)
    ensures forall x | x in r :: Str(x) in col
    ensures forall c | c in col && c.Str? :: c.s in r
  {
    if |col| == 0 then []
    else
      var rest := Texts(col[1..]);
      assert forall c | c in col[1..] :: c in col;
      assert col == [col[0]] + col[1..];
      if col[0].Str? then [col[0].s] + rest else rest
  }

  /** `f"{df['Fecha'].min()} - {df['Fecha'].max()}"` on a text column; with
      every cell missing pandas prints `nan` for both ends. */
  function DateRange(t: Table): (r: Result<string>)
    requires WellFormed(t)
    ensures r.Ok? ==> FechaCol in t.cols
    ensures FechaCol in t.cols && (forall c | c in t.cols[FechaCol] :: c.Str?) && t.rows > 0 ==>
      r.Ok? && exists lo, hi | Str(lo) in t.cols[FechaCol] && Str(hi) in t.cols[FechaCol] ::
        && r.value == lo + " - " + hi
        && forall c | c in t.cols[FechaCol] :: !Less(c.s, lo) && !Less(hi, c.s)
  {
    if FechaCol !in t.cols then Err(KeyError(FechaCol))
    else if exists c | c in t.cols[FechaCol] :: !c.Null? && !c.Str? then Err(CompareError(FechaCol))
    else
      var xs := Texts(t.cols[FechaCol]);
      if |xs| == 0 then Ok("nan - nan")
      else
        var lo, hi := MinStr(xs), MaxStr(xs);
        assert t.cols[FechaCol][0] in t.cols[FechaCol];
        Ok(lo + " - " + hi)
  }

  /** The summary of one location. */
  datatype LocationSummary = LocationSummary(
    preventivos: nat, roedores: nat, lamparas: nat, total: nat, dateRange: Option<string>)

  /** The body of `get_data_summary`'s loop for one location. */
  function SummaryOf(prev: Table, roed: Table, lamp: Table, loc: string): (r: Result<LocationSummary>)
    requires WellFormed(prev) && WellFormed(roed) && WellFormed(lamp)
    ensures r.Err? <==> || SedeCol !in prev.cols || SedeCol !in roed.cols || SedeCol !in lamp.cols
                        || (AtLocation(prev, loc).value.rows > 0 && DateRange(AtLocation(prev, loc).value).Err?)
  {
    var p :- AtLocation(prev, loc);
    var q :- AtLocation(roed, loc);
    var l :- AtLocation(lamp, loc);
    if p.rows > 0 then
      var range :- DateRange(p);
      Ok(LocationSummary(p.rows, q.rows, l.rows, p.rows + q.rows + l.rows, Some(range)))
    else
      Ok(LocationSummary(p.rows, q.rows, l.rows, p.rows + q.rows + l.rows, None))
  }

  /** The counts are the raw rows of each record type at the location, the
      total is their sum, and a date range is given exactly when the
      location has a preventive row. */
  lemma SummaryCounts(prev: Table, roed: Table, lamp: Table, loc: string)
    requires WellFormed(prev) && WellFormed(roed) && WellFormed(lamp)
    requires SummaryOf(prev, roed, lamp, loc).Ok?
    ensures var s := SummaryOf(prev, roed, lamp, loc).value;
      && s.preventivos == multiset(prev.cols[SedeCol])[Str(loc)]
      && s.roedores == multiset(roed.cols[SedeCol])[Str(loc)]
      && s.lamparas == multiset(lamp.cols[SedeCol])[Str(loc)]
      && s.total == s.preventivos + s.roedores + s.lamparas
      && (s.dateRange.Some? <==> Str(loc) in prev.cols[SedeCol])
  {
  }

  /** The loop of `get_data_summary`: `summary[location] = step(location)`
      for the locations in order; the first failure ends the loop. */
  method FillSummary<T>(locs: seq<string>, step: string -> Result<T>) returns (r: Result<map<string, T>>)
    ensures r.Ok? <==> forall i | 0 <= i < |locs| :: step(locs[i]).Ok?
    ensures r.Ok? ==> && r.value.Keys == set l | l in locs
                      && forall l | l in locs :: l in r.value && step(l) == Ok(r.value[l])
    ensures r.Err? ==> exists k | 0 <= k < |locs| ::
                         step(locs[k]) == Err(r.error) && forall i | 0 <= i < k :: step(locs[i]).Ok?
  {
    var summary: map<string, T> := map[];
    var k := 0;
    while k < |locs|
      invariant 0 <= k <= |locs|
      invariant forall i | 0 <= i < k :: step(locs[i]).Ok?
      invariant summary.Keys == set l | l in locs[..k]
      invariant forall l | l in locs[..k] :: l in summary && step(l) == Ok(summary[l])
    {
      var location := locs[k];
      var s := step(location);
      if s.Err? {
        return Err(s.error);
      }
      assert locs[..k + 1] == locs[..k] + [location];
      summary := summary[location := s.value];
      k := k + 1;
    }
    assert locs[..k] == locs;
    r := Ok(summary);
  }

  /** `get_data_summary(prev, roed, lamp, locations)`: one summary per
      location, or the first location's failure wrapped as a summary
      failure. */
  method DataSummary(prev: Table, roed: Table, lamp: Table, locations: seq<string>)
    returns (r: Result<map<string, LocationSummary>>)
    requires WellFormed(prev) && WellFormed(roed) && WellFormed(lamp)
    ensures r.Ok? <==> forall i | 0 <= i < |locations| :: SummaryOf(prev, roed, lamp, locations[i]).Ok?
    ensures r.Ok? ==> && r.value.Keys == set l | l in locations
                      && forall l | l in locations :: l in r.value && SummaryOf(prev, roed, lamp, l) == Ok(r.value[l])
    ensures r.Err? ==> exists k | 0 <= k < |locations| ::
                         && SummaryOf(prev, roed, lamp, locations[k]).Err?
                         && r.error == SummaryFailed(SummaryOf(prev, roed, lamp, locations[k]).error)
                         && forall i | 0 <= i < k :: SummaryOf(prev, roed, lamp, locations[i]).Ok?
  {
    var step := loc => SummaryOf(prev, roed, lamp, loc);
    assert forall loc :: step(loc) == SummaryOf(prev, roed, lamp, loc);
    var summary := FillSummary(locations, step);
    if summary.Err? {
      return Err(SummaryFailed(summary.error));
    }
    r := Ok(summary.value);
  }
}
