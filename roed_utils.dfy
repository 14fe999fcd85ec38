/** `data_preprocessing/roed_utils.py`: the rodent-station helpers.
    `agregar_columna_num_estacion` and `unir_columna_consumido` change the
    frame in place; `ordenar_columnas_roedores` only reads it. */
module RoedUtils {
  import opened Text
  import opened Tables
  import GeneralUtils

  // ---------------------------------------------------------------------
  // agregar_columna_num_estacion

  const Medellin: string := "Número de estación Medellín"
  const Rionegro: string := "Número de estación Rionegro"
  const Numero: string := "Numero de estación"

  /** `fillna(0).astype(int)` of a whole column; `None` where the cast raises. */
  function StationNumbers(col: seq<Cell>): (r: Option<seq<int>>)
    ensures r.Some? <==> GeneralUtils.Castable(col)
    ensures r.Some? ==> |r.value| == |col|
    ensures r.Some? ==> forall i | 0 <= i < |col| :: r.value[i] == GeneralUtils.ZeroCell(col[i]).value
  {
    if GeneralUtils.Castable(col) then
      Some(seq(|col|, i requires 0 <= i < |col| => GeneralUtils.ZeroCell(col[i]).value))
    else None
  }

  /** `(Rionegro + Medellin).astype(int)` */
  function Sums(r: seq<int>, m: seq<int>): (c: seq<Cell>)
    requires |r| == |m|
    ensures |c| == |r| && forall i | 0 <= i < |r| :: c[i] == Int(r[i] + m[i])
  {
    seq(|r|, i requires 0 <= i < |r| => Int(r[i] + m[i]))
  }

  /** What `agregar_columna_num_estacion` leaves in the frame: the two
      numbers added into `Numero de estación` and the city columns dropped.
      Medellín is read and cast before Rionegro, so its error is the one
      reported. */
  function NumEstacion(t: Table): Result<Table>
    requires WellFormed(t)
  {
    if Medellin !in t.cols then Err(KeyError(Medellin))
    else if StationNumbers(t.cols[Medellin]).None? then Err(CastError(Medellin))
    else if Rionegro !in t.cols then Err(KeyError(Rionegro))
    else if StationNumbers(t.cols[Rionegro]).None? then Err(CastError(Rionegro))
    else
      var m, r := StationNumbers(t.cols[Medellin]).value, StationNumbers(t.cols[Rionegro]).value;
      Ok(Drop(SetCol(t, Numero, Sums(r, m)), [Medellin, Rionegro]))
  }

  method AgregarColumnaNumEstacion(f: Frame) returns (o: Outcome)
    requires f.Valid()
    modifies f
    ensures f.Valid()
    ensures Agrees(o, NumEstacion(old(f.Value())), f.Value())
  {
    if Medellin !in f.cols {
      return Fail(KeyError(Medellin));
    }
    var m := StationNumbers(f.cols[Medellin]);
    if m.None? {
      return Fail(CastError(Medellin));
    }
    if Rionegro !in f.cols {
      return Fail(KeyError(Rionegro));
    }
    var r := StationNumbers(f.cols[Rionegro]);
    if r.None? {
      return Fail(CastError(Rionegro));
    }
    f.SetColumn(Numero, Sums(r.value, m.value));
    f.DropColumns([Medellin, Rionegro]);
    o := Pass;
  }

  /** The call raises exactly when a city column is missing or holds a
      cell the integer cast rejects. */
  lemma NumEstacionRaises(t: Table)
    requires WellFormed(t)
    ensures NumEstacion(t).Err? <==>
      Medellin !in t.cols || Rionegro !in t.cols ||
      !GeneralUtils.Castable(t.cols[Medellin]) || !GeneralUtils.Castable(t.cols[Rionegro])
  {
  }

  /** The frame the call returns: the summed number written, then the two
      city columns dropped. */
  lemma NumEstacionValue(t: Table)
    requires WellFormed(t) && NumEstacion(t).Ok?
    ensures Medellin in t.cols && Rionegro in t.cols
    ensures GeneralUtils.Castable(t.cols[Medellin]) && GeneralUtils.Castable(t.cols[Rionegro])
    ensures var c := Sums(StationNumbers(t.cols[Rionegro]).value, StationNumbers(t.cols[Medellin]).value);
      && NumEstacion(t) == Ok(Drop(SetCol(t, Numero, c), [Medellin, Rionegro]))
      && Numero in NumEstacion(t).value.cols && NumEstacion(t).value.cols[Numero] == c
  {
    var c := Sums(StationNumbers(t.cols[Rionegro]).value, StationNumbers(t.cols[Medellin]).value);
    SetThenDrop(t, Numero, c, [Medellin, Rionegro]);
  }

  /** The city columns are gone, the number is there, and every other
      column is kept. */
  lemma NumEstacionEffect(t: Table)
    requires WellFormed(t) && NumEstacion(t).Ok?
    ensures var u := NumEstacion(t).value;
      && WellFormed(u) && u.rows == t.rows
      && Medellin !in u.cols && Rionegro !in u.cols && Numero in u.cols
      && (forall n | n in t.cols && n != Numero && n != Medellin && n != Rionegro ::
            n in u.cols && u.cols[n] == t.cols[n])
      && (forall n | n in u.cols && n != Numero :: n in t.cols)
  {
    NumEstacionValue(t);
    var c := Sums(StationNumbers(t.cols[Rionegro]).value, StationNumbers(t.cols[Medellin]).value);
    SetThenDropTwo(t, Numero, c, Medellin, Rionegro);
  }

  /** A station is numbered in one city's column, the other being empty,
      so the merged number is that city's number; empty in both gives 0. */
  lemma NumEstacionRows(t: Table)
    requires WellFormed(t) && NumEstacion(t).Ok?
    ensures var u := NumEstacion(t).value;
      && Medellin in t.cols && Rionegro in t.cols && Numero in u.cols && |u.cols[Numero]| == t.rows
      && forall i | 0 <= i < t.rows ::
           var m, r := t.cols[Medellin][i], t.cols[Rionegro][i];
           && u.cols[Numero][i].Int?
           && (m.Null? && r.Null? ==> u.cols[Numero][i] == Int(0))
           && (m.Null? && r.Int? ==> u.cols[Numero][i] == r)
           && (m.Int? && r.Int? ==> u.cols[Numero][i] == Int(m.i + r.i))
           && (m.Int? && r.Null? ==> u.cols[Numero][i] == m)
  {
    NumEstacionValue(t);
    StationSums(t.cols[Medellin], t.cols[Rionegro]);
  }

  /** Row by row, the sum of two castable station columns. */
  lemma StationSums(mc: seq<Cell>, rc: seq<Cell>)
    requires |mc| == |rc| && GeneralUtils.Castable(mc) && GeneralUtils.Castable(rc)
    ensures var c := Sums(StationNumbers(rc).value, StationNumbers(mc).value);
      forall i | 0 <= i < |mc| ::
        var m, r := mc[i], rc[i];
        && c[i].Int?
        && (m.Null? && r.Null? ==> c[i] == Int(0))
        && (m.Null? && r.Int? ==> c[i] == r)
        && (m.Int? && r.Int? ==> c[i] == Int(m.i + r.i))
        && (m.Int? && r.Null? ==> c[i] == m)
  {
  }

  /** Medellín's error is reported when both cities' columns are bad. */
  lemma NumEstacionMedellinFirst(t: Table)
    requires WellFormed(t)
    requires Medellin !in t.cols || !GeneralUtils.Castable(t.cols[Medellin])
    ensures NumEstacion(t).Err?
    ensures NumEstacion(t).error == KeyError(Medellin) || NumEstacion(t).error == CastError(Medellin)
  {
  }

  // ---------------------------------------------------------------------
  // unir_columna_consumido

  const Consumido: string := "Estado de la estación/Consumido"
  const Cambio: string := "Estado de la estación/Cambio de cebo por consumo"

  /** `a + b` of two cells: a gap on either side gives a gap, numbers add,
      texts concatenate; any other pair raises. */
  function AddCells(a: Cell, b: Cell): (r: Option<Cell>)
    ensures r.Some? ==> (r.value.Null? <==> a.Null? || b.Null?)
  {
    if a.Null? || b.Null? then Some(Null)
    else if a.Int? && b.Int? then Some(Int(a.i + b.i))
    else if a.Str? && b.Str? then Some(Str(a.s + b.s))
    else None
  }

  predicate Addable(a: seq<Cell>, b: seq<Cell>)
    requires |a| == |b|
  {
    forall i | 0 <= i < |a| :: AddCells(a[i], b[i]).Some?
  }

  function AddColumns(a: seq<Cell>, b: seq<Cell>): (r: seq<Cell>)
    requires |a| == |b| && Addable(a, b)
    ensures |r| == |a|
    ensures forall i | 0 <= i < |a| :: r[i] == AddCells(a[i], b[i]).value
  {
    seq(|a|, i requires 0 <= i < |a| => AddCells(a[i], b[i]).value)
  }

  /** What `unir_columna_consumido` leaves in the frame: the bait-change
      count replaced by the sum of both counts and the consumed column
      dropped. Consumido is read first. */
  function UnirConsumido(t: Table): Result<Table>
    requires WellFormed(t)
  {
    if Consumido !in t.cols then Err(KeyError(Consumido))
    else if Cambio !in t.cols then Err(KeyError(Cambio))
    else if !Addable(t.cols[Consumido], t.cols[Cambio]) then Err(CompareError(Consumido))
    else Ok(Drop(SetCol(t, Cambio, AddColumns(t.cols[Consumido], t.cols[Cambio])), [Consumido]))
  }

  method UnirColumnaConsumido(f: Frame) returns (o: Outcome)
    requires f.Valid()
    modifies f
    ensures f.Valid()
    ensures Agrees(o, UnirConsumido(old(f.Value())), f.Value())
  {
    if Consumido !in f.cols {
      return Fail(KeyError(Consumido));
    }
    if Cambio !in f.cols {
      return Fail(KeyError(Cambio));
    }
    if !Addable(f.cols[Consumido], f.cols[Cambio]) {
      return Fail(CompareError(Consumido));
    }
    f.SetColumn(Cambio, AddColumns(f.cols[Consumido], f.cols[Cambio]));
    f.DropColumns([Consumido]);
    o := Pass;
  }

  /** The consumed column is gone and its count is folded into the
      bait-change column, which keeps its position; on counts (integers
      that are never negative) the merged count is positive exactly when
      either count was. */
  lemma UnirConsumidoEffect(t: Table)
    requires WellFormed(t) && UnirConsumido(t).Ok?
    ensures var u := UnirConsumido(t).value;
      && WellFormed(u) && u.rows == t.rows
      && u.names == Without(t.names, [Consumido])
      && Consumido !in u.cols && Cambio in u.cols
      && (forall n | n in t.cols && n != Consumido && n != Cambio :: n in u.cols && u.cols[n] == t.cols[n])
      && forall i | 0 <= i < t.rows ::
           var a, b := t.cols[Consumido][i], t.cols[Cambio][i];
           (a.Int? && b.Int? && a.i >= 0 && b.i >= 0 ==>
              u.cols[Cambio][i].Int? && (u.cols[Cambio][i].i > 0 <==> a.i > 0 || b.i > 0))
  {
    UnirConsumidoValue(t);
  }

  /** The frame the merge returns: the summed column written, then the
      consumed column dropped. */
  lemma UnirConsumidoValue(t: Table)
    requires WellFormed(t) && UnirConsumido(t).Ok?
    ensures Consumido in t.cols && Cambio in t.cols && Addable(t.cols[Consumido], t.cols[Cambio])
    ensures var c := AddColumns(t.cols[Consumido], t.cols[Cambio]);
      && UnirConsumido(t) == Ok(Drop(SetCol(t, Cambio, c), [Consumido]))
      && var u := UnirConsumido(t).value;
      && WellFormed(u) && u.rows == t.rows
      && u.names == Without(t.names, [Consumido])
      && Consumido !in u.cols && Cambio in u.cols && u.cols[Cambio] == c
      && forall m | m in t.cols && m != Cambio && m != Consumido :: m in u.cols && u.cols[m] == t.cols[m]
  {
    SetThenDrop(t, Cambio, AddColumns(t.cols[Consumido], t.cols[Cambio]), [Consumido]);
  }

  /** On two integer counts the merged cell is their sum. */
  lemma UnirConsumidoSum(t: Table)
    requires WellFormed(t) && UnirConsumido(t).Ok?
    ensures var u := UnirConsumido(t).value;
      && Cambio in u.cols && |u.cols[Cambio]| == t.rows
      && forall i | 0 <= i < t.rows ::
           var a, b := t.cols[Consumido][i], t.cols[Cambio][i];
           a.Int? && b.Int? ==> u.cols[Cambio][i] == Int(a.i + b.i)
  {
    UnirConsumidoValue(t);
  }

  /** The merge raises exactly when a column is missing or a row pairs cells
      that cannot be added. */
  lemma UnirConsumidoRaises(t: Table)
    requires WellFormed(t)
    ensures UnirConsumido(t).Err? <==>
      Consumido !in t.cols || Cambio !in t.cols || !Addable(t.cols[Consumido], t.cols[Cambio])
  {
  }

  // ---------------------------------------------------------------------
  // ordenar_columnas_roedores

  const PlaguicidaPrefix: string := "Plaguicida/"
  const EstadoPrefix: string := "Estado de la estación/"

  const Lead: seq<string> := ["ID", "Fecha"]
  const Head: seq<string> := ["Mes", "Sede", "Técnicos", "Numero de estación", "Estado de la estación"]
  const Trail: seq<string> := ["Localización", "Observaciones"]

  function MainColumns(names: seq<string>): seq<string>
  {
    Lead + Head + Select(names, EstadoPrefix) + ["Plaguicidas utilizados"] + Trail
  }

  function AllColumns(names: seq<string>): seq<string>
  {
    Lead + ["Fecha pandas"] + Head + Select(names, EstadoPrefix)
      + ["Plaguicidas utilizados"] + Select(names, PlaguicidaPrefix) + Trail
  }

  /** `ordenar_columnas_roedores(df)`: the main view and the full view. */
  function OrdenarColumnasRoedores(t: Table): Result<(Table, Table)>
    requires WellFormed(t)
  {
    ProjectBoth(t, MainColumns(t.names), AllColumns(t.names))
  }

  lemma FixedNames()
    ensures NoDups(Lead + ["Fecha pandas"] + Head + ["Plaguicidas utilizados"] + Trail)
    ensures NoDups(Lead + Head + (["Plaguicidas utilizados"] + Trail))
    ensures "Fecha pandas" !in Lead + Head + (["Plaguicidas utilizados"] + Trail)
    ensures forall x | x in Lead + ["Fecha pandas"] + Head + ["Plaguicidas utilizados"] + Trail ::
      !(EstadoPrefix <= x) && !(PlaguicidaPrefix <= x)
    ensures forall x | x in Lead + Head + (["Plaguicidas utilizados"] + Trail) ::
      !(EstadoPrefix <= x) && !(PlaguicidaPrefix <= x)
  {
    forall x | x in Lead + Head + (["Plaguicidas utilizados"] + Trail)
      ensures !(EstadoPrefix <= x) && !(PlaguicidaPrefix <= x)
    {
      assert |x| < |EstadoPrefix| || x[0] != 'E';
      assert |x| < |PlaguicidaPrefix| || x[0] != 'P' || x[10] != '/';
    }
    forall x | x in Lead + ["Fecha pandas"] + Head + ["Plaguicidas utilizados"] + Trail
      ensures !(EstadoPrefix <= x) && !(PlaguicidaPrefix <= x)
    {
      assert |x| < |EstadoPrefix| || x[0] != 'E';
      assert |x| < |PlaguicidaPrefix| || x[0] != 'P' || x[10] != '/';
    }
  }

  /** Both views raise exactly when a fixed column is missing; in
      particular both need `Localización`. */
  lemma OrdenarRoedoresRaises(t: Table)
    requires WellFormed(t)
    ensures var r := OrdenarColumnasRoedores(t);
      var fixed := Lead + ["Fecha pandas"] + Head + ["Plaguicidas utilizados"] + Trail;
      && (r.Err? <==> exists n | n in fixed :: n !in t.cols)
      && (r.Err? ==> r.error.KeyError? && r.error.name in fixed && r.error.name !in t.cols)
      && ("Localización" !in t.cols ==> r.Err?)
  {
    var fixed := Lead + ["Fecha pandas"] + Head + ["Plaguicidas utilizados"] + Trail;
    var main, all := MainColumns(t.names), AllColumns(t.names);
    assert forall n | n in main :: n in fixed || n in t.names;
    assert forall n | n in all :: n in fixed || n in t.names;
    assert forall n | n in fixed :: n in all;
    assert "Localización" in Trail;
    assert "Localización" in main;
  }

  /** Each view has the listed names in order, all distinct, with the
      frame's rows and values. */
  lemma OrdenarRoedoresShape(t: Table)
    requires WellFormed(t) && OrdenarColumnasRoedores(t).Ok?
    ensures var (main, all) := OrdenarColumnasRoedores(t).value;
      && main.names == MainColumns(t.names) && all.names == AllColumns(t.names)
      && WellFormed(main) && WellFormed(all)
      && main.rows == t.rows && all.rows == t.rows
      && (forall n | n in all.cols :: n in t.cols && all.cols[n] == t.cols[n])
  {
    ColumnListsDistinct(t.names);
  }

  /** The two column lists, apart from any frame, are free of repeats. */
  lemma ColumnListsDistinct(names: seq<string>)
    requires NoDups(names)
    ensures NoDups(MainColumns(names)) && NoDups(AllColumns(names))
  {
    var main := MainColumns(names);
    var e := Select(names, EstadoPrefix);
    FixedNames();
    NoDupsOneFamily(Lead + Head, EstadoPrefix, names, ["Plaguicidas utilizados"] + Trail);
    assert Lead + Head + e + (["Plaguicidas utilizados"] + Trail) == main;
    NoDupsTwoFamilies(Lead + ["Fecha pandas"] + Head, EstadoPrefix, names,
      ["Plaguicidas utilizados"], PlaguicidaPrefix, Trail);
  }

  /** The full view holds every station-state and pesticide column, the
      main view none of the pesticide columns and not `Fecha pandas`. */
  lemma OrdenarRoedoresFamilies(t: Table)
    requires WellFormed(t) && OrdenarColumnasRoedores(t).Ok?
    ensures var (main, all) := OrdenarColumnasRoedores(t).value;
      && (forall n | n in t.cols && (EstadoPrefix <= n || PlaguicidaPrefix <= n) :: n in all.cols)
      && (forall n | n in main.cols :: !(PlaguicidaPrefix <= n) && n != "Fecha pandas")
  {
    var main := MainColumns(t.names);
    var e := Select(t.names, EstadoPrefix);
    var fixed := Lead + ["Fecha pandas"] + Head + ["Plaguicidas utilizados"] + Trail;
    FixedNames();
    assert forall x | x in Lead + Head + (["Plaguicidas utilizados"] + Trail) :: x in fixed;
    forall x | x in e ensures !(PlaguicidaPrefix <= x) && x != "Fecha pandas" {
      PrefixesDiffer(EstadoPrefix, PlaguicidaPrefix, x, 0);
      assert x[0] == 'E';
    }
    assert forall x | x in main :: x in Lead + Head + (["Plaguicidas utilizados"] + Trail) || x in e;
  }

  /** The main view is the full view without `Fecha pandas` and the
      pesticide columns, in the same order. */
  lemma OrdenarRoedoresNested(names: seq<string>)
    ensures Subseq(MainColumns(names), AllColumns(names))
  {
    var e := Select(names, EstadoPrefix);
    SubseqInsert2(Lead, ["Fecha pandas"], Head + e + ["Plaguicidas utilizados"],
      Select(names, PlaguicidaPrefix), Trail);
    assert Lead + (Head + e + ["Plaguicidas utilizados"]) + Trail == MainColumns(names);
    assert Lead + ["Fecha pandas"] + (Head + e + ["Plaguicidas utilizados"])
      + Select(names, PlaguicidaPrefix) + Trail == AllColumns(names);
  }
}
