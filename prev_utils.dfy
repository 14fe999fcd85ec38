/** `data_preprocessing/prev_utils.py`: the preventive-inspection helpers.
    `agregar_area`, `renombrar_subareas` and `agregar_subarea` change the
    frame in place; `ordenar_columnas_prev` only reads it. */
module PrevUtils {
  import opened Text
  import opened Tables
  import Config

  /** The texts of the non-missing cells of row `i` over the columns `ns`,
      in column order: `row.dropna().astype(str)`. */
  function RowTexts(t: Table, ns: seq<string>, i: int): (r: seq<string>)
    requires WellFormed(t) && 0 <= i < t.rows
    requires forall n | n in ns :: n in t.cols
    ensures |r| <= |ns|
    ensures |r| == 0 <==> forall n | n in ns :: t.cols[n][i].Null?
    ensures forall x | x in r :: exists n | n in ns :: !t.cols[n][i].Null? && x == CellText(t.cols[n][i])
  {
    if |ns| == 0 then []
    else
      var c := t.cols[ns[0]][i];
      (if c.Null? then [] else [CellText(c)]) + RowTexts(t, ns[1..], i)
  }

  /** When exactly one of the columns has a value in row `i`, the row's
      texts are that value's text alone. */
  lemma {:induction false} RowTextsSingle(t: Table, ns: seq<string>, i: int, n: string)
    requires WellFormed(t) && 0 <= i < t.rows
    requires forall m | m in ns :: m in t.cols
    requires NoDups(ns) && n in ns && !t.cols[n][i].Null?
    requires forall m | m in ns && m != n :: t.cols[m][i].Null?
    ensures RowTexts(t, ns, i) == [CellText(t.cols[n][i])]
  {
    NoDupsTail(ns);
    if ns[0] == n {
      assert RowTexts(t, ns[1..], i) == [];
    } else {
      RowTextsSingle(t, ns[1..], i, n);
    }
  }

  // ---------------------------------------------------------------------
  // agregar_area

  const AreaSources: seq<string> := ["Torre o Área", "Bloque o Área"]

  function AreaColumn(t: Table): (r: seq<Cell>)
    requires WellFormed(t) && forall n | n in AreaSources :: n in t.cols
    ensures |r| == t.rows
    ensures forall i | 0 <= i < t.rows :: r[i] == Str(Join(" ", RowTexts(t, AreaSources, i)))
  {
    seq(t.rows, i requires 0 <= i < t.rows => Str(Join(" ", RowTexts(t, AreaSources, i))))
  }

  /** What `agregar_area` leaves in the frame, or the `KeyError` of the
      first tower/block column that is missing. */
  function Area(t: Table): Result<Table>
    requires WellFormed(t)
  {
    match FirstMissing(t, AreaSources)
    case Some(n) => Err(KeyError(n))
    case None => Ok(SetCol(t, "Área", AreaColumn(t)))
  }

  method AgregarArea(f: Frame) returns (o: Outcome)
    requires f.Valid()
    modifies f
    ensures f.Valid()
    ensures Agrees(o, Area(old(f.Value())), f.Value())
  {
    var missing := FirstMissing(f.Value(), AreaSources);
    if missing.Some? {
      return Fail(KeyError(missing.value));
    }
    f.SetColumn("Área", AreaColumn(f.Value()));
    o := Pass;
  }

  /** One row of `Área`: the tower and the block joined by one space, the
      missing one left out, and the empty string when both are missing. */
  lemma AreaRow(t: Table, i: int)
    requires WellFormed(t) && 0 <= i < t.rows
    requires "Torre o Área" in t.cols && "Bloque o Área" in t.cols
    ensures var a, b := t.cols["Torre o Área"][i], t.cols["Bloque o Área"][i];
      var s := Join(" ", RowTexts(t, AreaSources, i));
      && (a.Null? && b.Null? ==> s == "")
      && (!a.Null? && b.Null? ==> s == CellText(a))
      && (a.Null? && !b.Null? ==> s == CellText(b))
      && (!a.Null? && !b.Null? ==> s == CellText(a) + " " + CellText(b))
  {
    var a, b := t.cols["Torre o Área"][i], t.cols["Bloque o Área"][i];
    if !a.Null? && !b.Null? {
      assert RowTexts(t, AreaSources[1..], i) == [CellText(b)];
      assert RowTexts(t, AreaSources, i) == [CellText(a), CellText(b)];
      Join2(" ", CellText(a), CellText(b));
    } else if !a.Null? {
      RowTextsSingle(t, AreaSources, i, "Torre o Área");
    } else if !b.Null? {
      RowTextsSingle(t, AreaSources, i, "Bloque o Área");
    }
  }

  /** `agregar_area` raises exactly when a source column is absent;
      otherwise it writes `Área` as `AreaRow` describes and keeps every
      other column. */
  lemma AreaEffect(t: Table)
    requires WellFormed(t)
    ensures Area(t).Err? <==> "Torre o Área" !in t.cols || "Bloque o Área" !in t.cols
    ensures Area(t).Ok? ==> var u := Area(t).value;
      && u.rows == t.rows && WellFormed(u)
      && (forall n | n in t.cols && n != "Área" :: n in u.cols && u.cols[n] == t.cols[n])
      && forall i | 0 <= i < t.rows :: u.cols["Área"][i] == Str(Join(" ", RowTexts(t, AreaSources, i)))
  {
    assert "Torre o Área" in AreaSources && "Bloque o Área" in AreaSources;
    if FirstMissing(t, AreaSources).None? {
      assert Area(t) == Ok(SetCol(t, "Área", AreaColumn(t)));
    }
  }

  // ---------------------------------------------------------------------
  // renombrar_subareas

  const SubareaPrefix: string := "Subárea: "

  /** The renames of `renombrar_subareas`, one listed sub-area at a time,
      each to its name behind the prefix `p` (`SubareaPrefix` in the
      source). A listed column that is absent is skipped; a target name
      that is already a column is reported as a duplicate. */
  function RenameSubareas(t: Table, list: seq<string>, p: string): Result<Table>
    requires WellFormed(t)
    decreases |list|
  {
    if |list| == 0 then Ok(t)
    else
      var n := list[0];
      if n !in t.cols then RenameSubareas(t, list[1..], p)
      else if p + n in t.cols then Err(DuplicateName(p + n))
      else RenameSubareas(Rename(t, n, p + n), list[1..], p)
  }

  /** `renombrar_subareas(df, subareas_columnas)`: the argument is
      overwritten with `subareas_preventivos` before it is read, so it has
      no effect. The renames are collected first and applied by one
      `rename` call. */
  method RenombrarSubareas(f: Frame, subareasColumnas: seq<string>) returns (o: Outcome)
    requires f.Valid()
    modifies f
    ensures f.Valid()
    ensures Agrees(o, RenameSubareas(old(f.Value()), Config.SubareasPreventivos, SubareaPrefix), f.Value())
  {
    var r := RenameSubareas(f.Value(), Config.SubareasPreventivos, SubareaPrefix);
    if r.Err? {
      return Fail(r.error);
    }
    RenameSubareasKeeps(f.Value(), Config.SubareasPreventivos, SubareaPrefix);
    f.Assign(r.value);
    o := Pass;
  }

  /** The renames keep the row count, the number of columns, and every
      column outside the list. */
  lemma {:induction false} RenameSubareasKeeps(t: Table, list: seq<string>, p: string)
    requires WellFormed(t) && RenameSubareas(t, list, p).Ok?
    ensures var u := RenameSubareas(t, list, p).value;
      && WellFormed(u) && u.rows == t.rows && |u.names| == |t.names|
      && (forall m | m in t.cols && m !in list :: m in u.cols && u.cols[m] == t.cols[m])
    decreases |list|
  {
    if |list| > 0 {
      var n := list[0];
      assert forall x | x in list[1..] :: x in list;
      if n !in t.cols {
        RenameSubareasKeeps(t, list[1..], p);
      } else {
        var t1 := Rename(t, n, p + n);
        RenameSubareasKeeps(t1, list[1..], p);
      }
    }
  }

  /** Every name of the result without the prefix was already a column and
      is not a listed sub-area. */
  lemma {:induction false} RenameSubareasOnlyPrefixed(t: Table, list: seq<string>, p: string)
    requires WellFormed(t) && RenameSubareas(t, list, p).Ok?
    ensures var u := RenameSubareas(t, list, p).value;
      forall m | m in u.cols && !(p <= m) :: m in t.cols && m !in list
    decreases |list|
  {
    if |list| > 0 {
      var n := list[0];
      var u := RenameSubareas(t, list, p).value;
      if n !in t.cols {
        RenameSubareasOnlyPrefixed(t, list[1..], p);
      } else {
        var t1 := Rename(t, n, p + n);
        RenameSubareasOnlyPrefixed(t1, list[1..], p);
        assert p <= p + n;
        forall m | m in u.cols && !(p <= m) ensures m in t.cols && m !in list {
          assert m in t1.cols && m !in list[1..];
          assert m != p + n;
        }
      }
    }
  }

  /** Every listed column present is moved to its prefixed name with its
      values, and the unprefixed name is gone. */
  lemma {:induction false} RenameSubareasMoves(t: Table, list: seq<string>, p: string)
    requires WellFormed(t) && NoDups(list)
    requires forall x | x in list :: !(p <= x)
    requires RenameSubareas(t, list, p).Ok?
    ensures var u := RenameSubareas(t, list, p).value;
      forall x | x in list && x in t.cols ::
        x !in u.cols && p + x in u.cols && u.cols[p + x] == t.cols[x]
    decreases |list|
  {
    if |list| > 0 {
      var n := list[0];
      NoDupsTail(list);
      assert forall x | x in list[1..] :: x in list;
      if n !in t.cols {
        RenameSubareasMoves(t, list[1..], p);
        forall x | x in list && x in t.cols ensures x in list[1..] {
          assert x != n;
        }
      } else {
        var t1 := Rename(t, n, p + n);
        RenameSubareasMoves(t1, list[1..], p);
        MovesStep(t, list, p);
      }
    }
  }

  /** The inductive step of `RenameSubareasMoves` when the first listed
      column is present. */
  lemma MovesStep(t: Table, list: seq<string>, p: string)
    requires WellFormed(t) && NoDups(list) && |list| > 0
    requires forall x | x in list :: !(p <= x)
    requires list[0] in t.cols && p + list[0] !in t.cols
    requires var t1 := Rename(t, list[0], p + list[0]);
      && RenameSubareas(t1, list[1..], p).Ok?
      && var u := RenameSubareas(t1, list[1..], p).value;
      forall x | x in list[1..] && x in t1.cols ::
        x !in u.cols && p + x in u.cols && u.cols[p + x] == t1.cols[x]
    ensures RenameSubareas(t, list, p).Ok?
    ensures var u := RenameSubareas(t, list, p).value;
      forall x | x in list && x in t.cols ::
        x !in u.cols && p + x in u.cols && u.cols[p + x] == t.cols[x]
  {
    var n := list[0];
    NoDupsTail(list);
    var t1 := Rename(t, n, p + n);
    var u := RenameSubareas(t1, list[1..], p).value;
    assert RenameSubareas(t, list, p) == RenameSubareas(t1, list[1..], p);
    PrefixOfConcat(p, n);
    assert n in list;
    assert !(p <= n);
    assert n !in t1.cols;
    RenameSubareasOnlyPrefixed(t1, list[1..], p);
    assert n !in u.cols;
    forall x | x in list[1..] ensures x != p + n {
      assert x in list;
      assert !(p <= x);
    }
    RenameSubareasKeeps(t1, list[1..], p);
    forall x | x in list && x in t.cols
      ensures x !in u.cols && p + x in u.cols && u.cols[p + x] == t.cols[x]
    {
      if x != n {
        assert x in list[1..];
        assert x in t1.cols && t1.cols[x] == t.cols[x];
      }
    }
  }

  /** Some listed column present already has its prefixed name taken. */
  predicate Clash(t: Table, list: seq<string>, p: string)
  {
    exists x | x in list && x in t.cols :: p + x in t.cols
  }

  lemma {:induction false} RenameSubareasRaises(t: Table, list: seq<string>, p: string)
    requires WellFormed(t) && NoDups(list)
    requires forall x | x in list :: !(p <= x)
    ensures RenameSubareas(t, list, p).Err? <==> Clash(t, list, p)
    ensures RenameSubareas(t, list, p).Err? ==> RenameSubareas(t, list, p).error.DuplicateName?
    decreases |list|
  {
    if |list| > 0 {
      var n := list[0];
      NoDupsTail(list);
      assert forall x | x in list[1..] :: x in list;
      ClashCons(t, list, p);
      if n !in t.cols {
        RenameSubareasRaises(t, list[1..], p);
      } else if p + n !in t.cols {
        var t1 := Rename(t, n, p + n);
        RenameSubareasRaises(t1, list[1..], p);
        ClashRename(t, list, p);
      }
    }
  }

  /** A clash is at the head of the list or in its tail. */
  lemma ClashCons(t: Table, list: seq<string>, p: string)
    requires |list| > 0
    ensures Clash(t, list, p) <==> (list[0] in t.cols && p + list[0] in t.cols) || Clash(t, list[1..], p)
  {
    if Clash(t, list, p) {
      var x :| x in list && x in t.cols && p + x in t.cols;
      if x != list[0] {
        assert x in list[1..];
      }
    }
    if Clash(t, list[1..], p) {
      var x :| x in list[1..] && x in t.cols && p + x in t.cols;
      assert x in list;
    }
  }

  /** Renaming the head of the list does not change whether the tail
      clashes. */
  lemma ClashRename(t: Table, list: seq<string>, p: string)
    requires WellFormed(t) && NoDups(list) && |list| > 0
    requires forall x | x in list :: !(p <= x)
    requires list[0] in t.cols && p + list[0] !in t.cols
    ensures Clash(Rename(t, list[0], p + list[0]), list[1..], p) <==> Clash(t, list[1..], p)
  {
    var n := list[0];
    var t1 := Rename(t, n, p + n);
    NoDupsTail(list);
    forall x | x in list[1..]
      ensures (x in t1.cols && p + x in t1.cols) <==> (x in t.cols && p + x in t.cols)
    {
      RenameKeepsOther(t, list, p, x);
    }
    if Clash(t1, list[1..], p) {
      var x :| x in list[1..] && x in t1.cols && p + x in t1.cols;
      assert x in t.cols && p + x in t.cols;
    }
    if Clash(t, list[1..], p) {
      var x :| x in list[1..] && x in t.cols && p + x in t.cols;
      assert x in t1.cols && p + x in t1.cols;
    }
  }

  /** For a later listed name `x`, neither `x` nor its prefixed name is the
      head or its prefixed name. */
  lemma RenameKeepsOther(t: Table, list: seq<string>, p: string, x: string)
    requires WellFormed(t) && NoDups(list) && |list| > 0 && x in list[1..]
    requires forall y | y in list :: !(p <= y)
    requires list[0] in t.cols && p + list[0] !in t.cols
    ensures var t1 := Rename(t, list[0], p + list[0]);
      (x in t1.cols && p + x in t1.cols) <==> (x in t.cols && p + x in t.cols)
  {
    var n := list[0];
    NoDupsTail(list);
    assert x in list && x != n;
    if p + x == p + n { PrefixCancel(p, x, n); }
    PrefixOfConcat(p, x);
    assert n in list;
    assert !(p <= n) && !(p <= x);
    assert p + x != n;
    assert p + n != x;
  }


  /** The listed sub-areas are distinct and none starts with the prefix
      it is given, so the two lemmas above apply to `renombrar_subareas`. */
  lemma SubareasRenamable()
    ensures NoDups(Config.SubareasPreventivos)
    ensures forall x | x in Config.SubareasPreventivos :: !(SubareaPrefix <= x)
  {
    Config.SubareasDistinct();
    forall x | x in Config.SubareasPreventivos ensures !(SubareaPrefix <= x) {
      assert x[0] != 'S';
    }
  }

  // ---------------------------------------------------------------------
  // agregar_subarea

  function SubareaColumn(t: Table): (r: seq<Cell>)
    requires WellFormed(t)
    ensures |r| == t.rows
  {
    var ns := Select(t.names, SubareaPrefix);
    if |ns| == 0 then Const(Str(""), t.rows)
    else seq(t.rows, i requires 0 <= i < t.rows => Str(Join(" - ", RowTexts(t, ns, i))))
  }

  /** What `agregar_subarea` leaves in the frame. */
  function Subarea(t: Table): (r: Table)
    requires WellFormed(t)
    ensures WellFormed(r)
  {
    SetCol(t, "Subárea", SubareaColumn(t))
  }

  method AgregarSubarea(f: Frame)
    requires f.Valid()
    modifies f
    ensures f.Valid() && f.Value() == Subarea(old(f.Value()))
  {
    f.SetColumn("Subárea", SubareaColumn(f.Value()));
  }

  /** `Subárea` holds, on each row, the marked sub-areas joined by ` - `;
      it is empty on a row where none is marked (and on every row when no
      column carries the prefix), and every other column is kept. */
  lemma SubareaCells(t: Table)
    requires WellFormed(t)
    ensures var u := Subarea(t);
      && u.rows == t.rows
      && (forall n | n in t.cols && n != "Subárea" :: n in u.cols && u.cols[n] == t.cols[n])
      && (forall i | 0 <= i < t.rows ::
            u.cols["Subárea"][i].Str?
            && ((forall n | n in t.cols && SubareaPrefix <= n :: t.cols[n][i].Null?) ==> u.cols["Subárea"][i].s == ""))
      && (forall i | 0 <= i < t.rows && |Select(t.names, SubareaPrefix)| > 0 ::
            u.cols["Subárea"][i] == Str(Join(" - ", RowTexts(t, Select(t.names, SubareaPrefix), i))))
  {
    var c := SubareaColumn(t);
    assert Subarea(t).cols["Subárea"] == c;
    var ns := Select(t.names, SubareaPrefix);
    if |ns| > 0 {
      forall i | 0 <= i < t.rows && (forall n | n in t.cols && SubareaPrefix <= n :: t.cols[n][i].Null?)
        ensures c[i] == Str("")
      {
        assert RowTexts(t, ns, i) == [];
      }
    }
  }

  /** On a row where exactly one sub-area is marked, `Subárea` is that
      sub-area's own text. */
  lemma SubareaSingle(t: Table, i: int, n: string)
    requires WellFormed(t) && 0 <= i < t.rows
    requires n in t.cols && SubareaPrefix <= n && !t.cols[n][i].Null?
    requires forall m | m in t.cols && SubareaPrefix <= m && m != n :: t.cols[m][i].Null?
    ensures Subarea(t).cols["Subárea"][i] == Str(CellText(t.cols[n][i]))
  {
    var ns := Select(t.names, SubareaPrefix);
    NoDupsSelect(t.names, SubareaPrefix);
    assert n in ns;
    RowTextsSingle(t, ns, i, n);
  }

  // ---------------------------------------------------------------------
  // ordenar_columnas_prev

  const CantidadPrefix: string := "Cantidad de hallazgos de"
  const PlaguicidasPrefix: string := "Plaguicidas/"

  const Lead: seq<string> := ["ID", "Fecha"]
  const Middle: seq<string> :=
    ["Mes", "Sede", "Código", "Área", "Subárea", "Técnicos", "Evidencia de plagas"]
  const Trail: seq<string> := ["Acompañante", "Observaciones"]

  function MainColumns(names: seq<string>): seq<string>
  {
    Lead + Middle + Select(names, CantidadPrefix) + ["Plaguicidas utilizados"] + Trail
  }

  function AllColumns(names: seq<string>): seq<string>
  {
    Lead + ["Fecha pandas"] + Middle + Select(names, CantidadPrefix)
      + ["Plaguicidas utilizados"] + Select(names, PlaguicidasPrefix) + Trail
  }

  /** `ordenar_columnas_prev(df)`: the main view and the full view. */
  function OrdenarColumnasPrev(t: Table): Result<(Table, Table)>
    requires WellFormed(t)
  {
    ProjectBoth(t, MainColumns(t.names), AllColumns(t.names))
  }

  /** The fixed names of the full view: all of them distinct, and none in
      either family. */
  lemma FixedNames()
    ensures NoDups(Lead + ["Fecha pandas"] + Middle + ["Plaguicidas utilizados"] + Trail)
    ensures forall x | x in Lead + ["Fecha pandas"] + Middle + ["Plaguicidas utilizados"] + Trail ::
      !(CantidadPrefix <= x) && !(PlaguicidasPrefix <= x)
  {
    var fixed := Lead + ["Fecha pandas"] + Middle + ["Plaguicidas utilizados"] + Trail;
    forall x | x in fixed ensures !(CantidadPrefix <= x) && !(PlaguicidasPrefix <= x) {
      assert |x| < |CantidadPrefix|;
      assert |x| < |PlaguicidasPrefix| || x[0] != 'P' || x[11] != '/';
    }
  }

  /** The fixed names of the main view: distinct, in neither family, and
      without `Fecha pandas`. */
  lemma MainFixedNames()
    ensures NoDups(Lead + Middle + (["Plaguicidas utilizados"] + Trail))
    ensures forall x | x in Lead + Middle + (["Plaguicidas utilizados"] + Trail) ::
      !(CantidadPrefix <= x) && !(PlaguicidasPrefix <= x) && x != "Fecha pandas"
  {
    var fixed := Lead + Middle + (["Plaguicidas utilizados"] + Trail);
    forall x | x in fixed
      ensures !(CantidadPrefix <= x) && !(PlaguicidasPrefix <= x) && x != "Fecha pandas"
    {
      assert |x| < |CantidadPrefix|;
      assert |x| < |PlaguicidasPrefix| || x[0] != 'P' || x[11] != '/';
    }
  }

  /** Both views raise exactly when a fixed column is missing: the family
      columns come from the frame itself. */
  lemma OrdenarPrevRaises(t: Table)
    requires WellFormed(t)
    ensures var r := OrdenarColumnasPrev(t);
      var fixed := Lead + ["Fecha pandas"] + Middle + ["Plaguicidas utilizados"] + Trail;
      && (r.Err? <==> exists n | n in fixed :: n !in t.cols)
      && (r.Err? ==> r.error.KeyError? && r.error.name in fixed && r.error.name !in t.cols)
  {
    var fixed := Lead + ["Fecha pandas"] + Middle + ["Plaguicidas utilizados"] + Trail;
    var main, all := MainColumns(t.names), AllColumns(t.names);
    assert forall n | n in main :: n in fixed || n in t.names;
    assert forall n | n in all :: n in fixed || n in t.names;
    assert forall n | n in fixed :: n in all;
  }

  /** Each view has the listed names in order, all distinct, the frame's
      rows and the frame's values; the full view holds every quantity and
      pesticide column, the main view none of the pesticide columns. */
  lemma OrdenarPrevShape(t: Table)
    requires WellFormed(t) && OrdenarColumnasPrev(t).Ok?
    ensures var (main, all) := OrdenarColumnasPrev(t).value;
      && main.names == MainColumns(t.names) && all.names == AllColumns(t.names)
      && WellFormed(main) && WellFormed(all)
      && main.rows == t.rows && all.rows == t.rows
      && (forall n | n in all.cols :: n in t.cols && all.cols[n] == t.cols[n])
      && (forall n | n in t.cols && (CantidadPrefix <= n || PlaguicidasPrefix <= n) :: n in all.cols)
      && (forall n | n in main.cols :: !(PlaguicidasPrefix <= n) && n != "Fecha pandas")
  {
    ColumnLists(t.names);
  }

  /** The two column lists, apart from any frame: both free of repeats, the
      full one holding every count and pesticide name, the main one no
      pesticide name and no `Fecha pandas`. */
  lemma ColumnLists(names: seq<string>)
    requires NoDups(names)
    ensures var main, all := MainColumns(names), AllColumns(names);
      && NoDups(main) && NoDups(all)
      && (forall n | n in names && (CantidadPrefix <= n || PlaguicidasPrefix <= n) :: n in all)
      && (forall n | n in main :: !(PlaguicidasPrefix <= n) && n != "Fecha pandas")
  {
    var main := MainColumns(names);
    var f := Select(names, CantidadPrefix);
    FixedNames();
    MainFixedNames();
    NoDupsOneFamily(Lead + Middle, CantidadPrefix, names, ["Plaguicidas utilizados"] + Trail);
    assert Lead + Middle + f + (["Plaguicidas utilizados"] + Trail) == main;
    forall x | x in f ensures !(PlaguicidasPrefix <= x) && x != "Fecha pandas" {
      PrefixesApart(CantidadPrefix, PlaguicidasPrefix, names, x);
      assert x[0] == 'C';
    }
    assert forall x | x in main :: x in Lead + Middle + (["Plaguicidas utilizados"] + Trail) || x in f;
    NoDupsTwoFamilies(Lead + ["Fecha pandas"] + Middle, CantidadPrefix, names,
      ["Plaguicidas utilizados"], PlaguicidasPrefix, Trail);
    assert forall n | n in Lead + Middle + ["Plaguicidas utilizados"] + Trail ::
      n in Lead + ["Fecha pandas"] + Middle + ["Plaguicidas utilizados"] + Trail;
  }

  /** The main view is the full view without `Fecha pandas` and the
      pesticide columns, in the same order. */
  lemma OrdenarPrevNested(names: seq<string>)
    ensures Subseq(MainColumns(names), AllColumns(names))
  {
    var f := Select(names, CantidadPrefix);
    SubseqInsert2(Lead, ["Fecha pandas"], Middle + f + ["Plaguicidas utilizados"],
      Select(names, PlaguicidasPrefix), Trail);
    assert Lead + (Middle + f + ["Plaguicidas utilizados"]) + Trail == MainColumns(names);
    assert Lead + ["Fecha pandas"] + (Middle + f + ["Plaguicidas utilizados"])
      + Select(names, PlaguicidasPrefix) + Trail == AllColumns(names);
  }
}
