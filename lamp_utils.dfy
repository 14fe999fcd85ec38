/** `data_preprocessing/lamp_utils.py`: the lamp-inspection helpers.
    `agregar_columna_lampara` changes the frame in place;
    `ordenar_columnas_lamparas` only reads it. */
module LampUtils {
  import opened Text
  import opened Tables

  // ---------------------------------------------------------------------
  // agregar_columna_lampara

  const Rionegro: string := "Lámpara Rionegro"
  const Medellin: string := "Lámparas Medellín"

  /** A column pandas holds as floats: numbers only, with a gap. */
  predicate FloatColumn(col: seq<Cell>)
  {
    HasNull(col) && forall i | 0 <= i < |col| :: col[i].Null? || col[i].Int?
  }

  /** `fillna('').astype(str)` of cell `i`: a gap becomes the empty text,
      and a number in a float column keeps its `.0`. */
  function FilledText(col: seq<Cell>, i: int): (s: string)
    requires 0 <= i < |col|
    ensures col[i].Null? ==> s == ""
    ensures col[i].Str? ==> s == col[i].s
  {
    if col[i].Null? then ""
    else if FloatColumn(col) then IntToStr(col[i].i) + ".0"
    else CellText(col[i])
  }

  function LamparaColumn(r: seq<Cell>, m: seq<Cell>): (c: seq<Cell>)
    requires |r| == |m|
    ensures |c| == |r|
    ensures forall i | 0 <= i < |r| :: c[i] == Str(Strip(FilledText(r, i) + " " + FilledText(m, i)))
  {
    seq(|r|, i requires 0 <= i < |r| => Str(Strip(FilledText(r, i) + " " + FilledText(m, i))))
  }

  /** What `agregar_columna_lampara` leaves in the frame: `Lámpara` written,
      the two city columns dropped; or the `KeyError` of the first city
      column that is missing (Rionegro is read first). */
  function Lampara(t: Table): Result<Table>
    requires WellFormed(t)
  {
    if Rionegro !in t.cols then Err(KeyError(Rionegro))
    else if Medellin !in t.cols then Err(KeyError(Medellin))
    else
      var c := LamparaColumn(t.cols[Rionegro], t.cols[Medellin]);
      Ok(Drop(SetCol(t, "Lámpara", c), [Rionegro, Medellin]))
  }

  method AgregarColumnaLampara(f: Frame) returns (o: Outcome)
    requires f.Valid()
    modifies f
    ensures f.Valid()
    ensures Agrees(o, Lampara(old(f.Value())), f.Value())
  {
    if Rionegro !in f.cols {
      return Fail(KeyError(Rionegro));
    }
    if Medellin !in f.cols {
      return Fail(KeyError(Medellin));
    }
    f.SetColumn("Lámpara", LamparaColumn(f.cols[Rionegro], f.cols[Medellin]));
    f.DropColumns([Rionegro, Medellin]);
    o := Pass;
  }

  /** One lamp cell: a single present text is kept as it is, two present
      texts are joined by one space, and two gaps give the empty text. */
  lemma LamparaText(a: string, b: string)
    requires Stripped(a) && Stripped(b)
    ensures Strip("" + " " + "") == ""
    ensures Strip(a + " " + "") == a
    ensures Strip("" + " " + b) == b
    ensures |a| > 0 && |b| > 0 ==> Strip(a + " " + b) == a + " " + b
  {
    assert "" + " " + "" == " " + "";
    StripPadLeft("");
    assert a + " " + "" == a + " ";
    StripPadRight(a);
    assert "" + " " + b == " " + b;
    StripPadLeft(b);
    if |a| > 0 && |b| > 0 {
      StripJoined(a, b);
    }
  }

  /** `Lámpara` exists and the two city columns are gone; every other
      column is kept. The call raises exactly when a city column is
      missing. */
  lemma LamparaEffect(t: Table)
    requires WellFormed(t)
    ensures Lampara(t).Err? <==> Rionegro !in t.cols || Medellin !in t.cols
    ensures Lampara(t).Ok? ==> var u := Lampara(t).value;
      && WellFormed(u) && u.rows == t.rows
      && Rionegro !in u.cols && Medellin !in u.cols && "Lámpara" in u.cols
      && u.cols["Lámpara"] == LamparaColumn(t.cols[Rionegro], t.cols[Medellin])
      && forall n | n in t.cols && n != "Lámpara" && n != Rionegro && n != Medellin ::
           n in u.cols && u.cols[n] == t.cols[n]
  {
    if Rionegro in t.cols && Medellin in t.cols {
      var c := LamparaColumn(t.cols[Rionegro], t.cols[Medellin]);
      SetThenDropTwo(t, "Lámpara", c, Rionegro, Medellin);
    }
  }

  /** A Rionegro gap beside a Medellín text yields that text. */
  lemma LamparaExample()
    ensures var t := Table([Rionegro, Medellin], map[Rionegro := [Null], Medellin := [Str("A12")]], 1);
      WellFormed(t) && Lampara(t).Ok? && Lampara(t).value.cols["Lámpara"] == [Str("A12")]
  {
    var t := Table([Rionegro, Medellin], map[Rionegro := [Null], Medellin := [Str("A12")]], 1);
    assert WellFormed(t);
    assert t.cols[Rionegro] == [Null] && t.cols[Medellin] == [Str("A12")];
    assert Stripped("A12");
    GapThenText("A12");
  }

  /** One row with a Rionegro gap: the column holds the Medellín text. */
  lemma GapThenText(b: string)
    requires Stripped(b)
    ensures LamparaColumn([Null], [Str(b)]) == [Str(b)]
  {
    var c := LamparaColumn([Null], [Str(b)]);
    assert FilledText([Null], 0) == "";
    assert FilledText([Str(b)], 0) == b;
    LamparaText(b, b);
    assert c[0] == Str(b);
  }

  // ---------------------------------------------------------------------
  // ordenar_columnas_lamparas

  const EstadoPrefix: string := "Estado de la lámpara/"
  const CantidadPrefix: string := "Cantidad de "
  const EspeciesPrefix: string := "Especies encontradas/"

  const Lead: seq<string> := ["ID", "Fecha"]
  const Head: seq<string> := ["Mes", "Sede", "Técnicos", "Lámpara", "Estado de la lámpara"]
  const Tube: seq<string> := ["Estado del tubo", "Especies encontradas"]

  function MainColumns(names: seq<string>): seq<string>
  {
    Lead + Head + Tube + Select(names, CantidadPrefix) + ["Observaciones"]
  }

  function AllColumns(names: seq<string>): seq<string>
  {
    Lead + ["Fecha pandas"] + Head + Select(names, EstadoPrefix) + Tube
      + Select(names, CantidadPrefix) + ["Observaciones"]
  }

  /** `ordenar_columnas_lamparas(df)`: the main view and the full view. */
  function OrdenarColumnasLamparas(t: Table): Result<(Table, Table)>
    requires WellFormed(t)
  {
    ProjectBoth(t, MainColumns(t.names), AllColumns(t.names))
  }

  lemma FixedNames()
    ensures NoDups(Lead + ["Fecha pandas"] + Head + Tube + ["Observaciones"])
    ensures NoDups(Lead + Head + Tube + ["Observaciones"])
    ensures "Fecha pandas" !in Lead + Head + Tube + ["Observaciones"]
    ensures forall x | x in Lead + ["Fecha pandas"] + Head + Tube + ["Observaciones"] ::
      !(CantidadPrefix <= x) && !(EstadoPrefix <= x) && !(EspeciesPrefix <= x)
  {
    forall x | x in Lead + ["Fecha pandas"] + Head + Tube + ["Observaciones"]
      ensures !(CantidadPrefix <= x) && !(EstadoPrefix <= x) && !(EspeciesPrefix <= x)
    {
      assert |x| < |EstadoPrefix| && |x| < |EspeciesPrefix|;
      assert |x| < |CantidadPrefix| || x[0] != 'C';
    }
  }

  lemma OrdenarLamparasRaises(t: Table)
    requires WellFormed(t)
    ensures var r := OrdenarColumnasLamparas(t);
      var fixed := Lead + ["Fecha pandas"] + Head + Tube + ["Observaciones"];
      && (r.Err? <==> exists n | n in fixed :: n !in t.cols)
      && (r.Err? ==> r.error.KeyError? && r.error.name in fixed && r.error.name !in t.cols)
  {
    var fixed := Lead + ["Fecha pandas"] + Head + Tube + ["Observaciones"];
    var main, all := MainColumns(t.names), AllColumns(t.names);
    assert forall n | n in main :: n in fixed || n in t.names;
    assert forall n | n in all :: n in fixed || n in t.names;
    assert forall n | n in fixed :: n in all;
  }

  /** A family column never carries the species prefix. */
  lemma FamiliesNotSpecies(names: seq<string>, x: string)
    requires x in Select(names, EstadoPrefix) || x in Select(names, CantidadPrefix)
    ensures !(EspeciesPrefix <= x)
  {
    if x in Select(names, EstadoPrefix) {
      PrefixesDiffer(EstadoPrefix, EspeciesPrefix, x, 2);
    } else {
      PrefixesDiffer(CantidadPrefix, EspeciesPrefix, x, 0);
    }
  }

  /** Each view has the listed names in order, all distinct, with the
      frame's rows and values; the full view holds every lamp-state and
      count column, the main view none of the lamp-state columns, and
      neither view any per-species column. */
  lemma OrdenarLamparasShape(t: Table)
    requires WellFormed(t) && OrdenarColumnasLamparas(t).Ok?
    ensures var (main, all) := OrdenarColumnasLamparas(t).value;
      && main.names == MainColumns(t.names) && all.names == AllColumns(t.names)
      && WellFormed(main) && WellFormed(all)
      && main.rows == t.rows && all.rows == t.rows
      && (forall n | n in all.cols :: n in t.cols && all.cols[n] == t.cols[n])
      && (forall n | n in t.cols && (EstadoPrefix <= n || CantidadPrefix <= n) :: n in all.cols)
      && (forall n | n in main.cols :: !(EstadoPrefix <= n) && n != "Fecha pandas")
      && (forall n | n in all.cols :: !(EspeciesPrefix <= n))
  {
    ColumnLists(t.names);
  }

  /** The two column lists, apart from any frame: both free of repeats, the
      full one holding every lamp-state and count name, the main one no
      lamp-state name and no `Fecha pandas`, neither a species name. */
  lemma ColumnLists(names: seq<string>)
    requires NoDups(names)
    ensures var main, all := MainColumns(names), AllColumns(names);
      && NoDups(main) && NoDups(all)
      && (forall n | n in names && (EstadoPrefix <= n || CantidadPrefix <= n) :: n in all)
      && (forall n | n in main :: !(EstadoPrefix <= n) && n != "Fecha pandas")
      && (forall n | n in all :: !(EspeciesPrefix <= n))
  {
    var main, all := MainColumns(names), AllColumns(names);
    var e, c := Select(names, EstadoPrefix), Select(names, CantidadPrefix);
    var fixed := Lead + ["Fecha pandas"] + Head + Tube + ["Observaciones"];
    FixedNames();
    assert forall x | x in Lead + Head + Tube + ["Observaciones"] :: x in fixed;
    NoDupsOneFamily(Lead + Head + Tube, CantidadPrefix, names, ["Observaciones"]);
    NoDupsTwoFamilies(Lead + ["Fecha pandas"] + Head, EstadoPrefix, names, Tube, CantidadPrefix, ["Observaciones"]);
    forall x | x in c ensures !(EstadoPrefix <= x) {
      PrefixesDiffer(CantidadPrefix, EstadoPrefix, x, 0);
    }
    forall x | x in e + c ensures !(EspeciesPrefix <= x) {
      FamiliesNotSpecies(names, x);
    }
    assert forall x | x in main :: x in fixed || x in c;
    assert forall x | x in all :: x in fixed || x in e + c;
  }

  /** The main view is the full view without `Fecha pandas` and the
      lamp-state columns, in the same order. */
  lemma OrdenarLamparasNested(names: seq<string>)
    ensures Subseq(MainColumns(names), AllColumns(names))
  {
    var c := Select(names, CantidadPrefix);
    SubseqInsert2(Lead, ["Fecha pandas"], Head, Select(names, EstadoPrefix), Tube + c + ["Observaciones"]);
    assert Lead + Head + (Tube + c + ["Observaciones"]) == MainColumns(names);
    assert Lead + ["Fecha pandas"] + Head + Select(names, EstadoPrefix) + (Tube + c + ["Observaciones"])
      == AllColumns(names);
  }
}
