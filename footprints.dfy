/** What each preprocessing step can write. A normaliser is a chain of
    steps over one frame; a column a step does not write, and a family of
    prefixed columns kept apart from everything it writes, come through the
    step with the same cells (and, for a family, in the same order). */
module Footprints {
  import opened Text
  import opened Tables
  import opened DateUtils
  import opened GeneralUtils
  import PrevUtils
  import LampUtils
  import RoedUtils

  /** On success the step leaves a well-formed frame with the same rows. */
  ghost predicate Shaped(t: Table, r: Result<Table>)
  {
    r.Ok? ==> WellFormed(r.value) && r.value.rows == t.rows
  }

  /** On success column `n`, if it was there, is still there with the same
      cells. */
  ghost predicate Keeps(t: Table, r: Result<Table>, n: string)
  {
    r.Ok? ==> SameCol(t, r.value, n)
  }

  /** Two steps that each keep column `n` keep it together. */
  lemma KeepsTrans(t: Table, a: Result<Table>, b: Result<Table>, n: string)
    requires a.Ok? && Keeps(t, a, n) && Keeps(a.value, b, n)
    ensures Keeps(t, b, n)
  {
  }

  /** On success the columns starting with `p` are the same, in the same
      order, with the same cells. */
  ghost predicate KeepsFamily(t: Table, r: Result<Table>, p: string)
  {
    r.Ok? ==> SameFamily(t, r.value, p)
  }

  /** Two prefixes that differ at position `k`: no name starts with both. */
  predicate ApartAt(p: string, q: string, k: nat)
  {
    k < |p| && k < |q| && p[k] != q[k]
  }

  lemma ApartNames(p: string, q: string, k: nat, v: string)
    requires ApartAt(p, q, k)
    ensures !(p <= q + v)
  {
  }

  // ---------------------------------------------------------------------
  // date_utils

  /** `agregar_nueva_fecha` writes `Fecha pandas` and `Fecha` only. */
  lemma NuevaFechaFootprint(parse: Parser, t: Table, fechaCol: string)
    requires WellFormed(t)
    ensures Shaped(t, NuevaFecha(parse, t, fechaCol))
    ensures forall n | n != "Fecha" && n != "Fecha pandas" :: Keeps(t, NuevaFecha(parse, t, fechaCol), n)
  {
    if NuevaFecha(parse, t, fechaCol).Ok? {
      NuevaFechaWrites(parse, t, fechaCol);
    }
  }

  lemma NuevaFechaFamily(parse: Parser, t: Table, fechaCol: string, p: string)
    requires WellFormed(t) && !(p <= "Fecha") && !(p <= "Fecha pandas")
    ensures KeepsFamily(t, NuevaFecha(parse, t, fechaCol), p)
  {
    if NuevaFecha(parse, t, fechaCol).Ok? {
      var t1 := SetCol(t, "Fecha pandas", CoerceColumn(parse, t.cols[fechaCol]));
      var u := SetCol(t1, "Fecha", FechaColumn(CoerceColumn(parse, t1.cols["Fecha"])));
      SetColFamily(t, "Fecha pandas", CoerceColumn(parse, t.cols[fechaCol]), p);
      SetColFamily(t1, "Fecha", FechaColumn(CoerceColumn(parse, t1.cols["Fecha"])), p);
      SameFamilyTrans(t, t1, u, p);
    }
  }

  /** `columna_mes` writes `Mes` only. */
  lemma MesFootprint(t: Table, fechaCol: string)
    requires WellFormed(t)
    ensures Shaped(t, Mes(t, fechaCol))
    ensures forall n | n != "Mes" :: Keeps(t, Mes(t, fechaCol), n)
  {
    if Mes(t, fechaCol).Ok? {
      MesWrites(t, fechaCol);
    }
  }

  lemma MesFamily(t: Table, fechaCol: string, p: string)
    requires WellFormed(t) && !(p <= "Mes")
    ensures KeepsFamily(t, Mes(t, fechaCol), p)
  {
    if Mes(t, fechaCol).Ok? {
      SetColFamily(t, "Mes", MesColumn(t.cols[fechaCol]), p);
    }
  }

  // ---------------------------------------------------------------------
  // general_utils

  /** `agregar_ceros_a_columnas(df, '^q')` writes the columns starting
      with `q` only, and never adds or removes one. */
  lemma ZeroFillFootprint(t: Table, q: string)
    requires WellFormed(t)
    ensures Shaped(t, ZeroFill(t, q))
    ensures forall n | !(q <= n) :: Keeps(t, ZeroFill(t, q), n)
  {
    if ZeroFill(t, q).Ok? {
      ZeroFillEffect(t, q);
    }
  }

  lemma ZeroFillFamily(t: Table, q: string, p: string, k: nat)
    requires WellFormed(t) && ApartAt(p, q, k)
    ensures KeepsFamily(t, ZeroFill(t, q), p)
  {
    if ZeroFill(t, q).Ok? {
      ZeroFillEffect(t, q);
      forall n | n in t.cols && p <= n ensures !(q <= n) {
        PrefixesDiffer(p, q, n, k);
      }
    }
  }

  /** `crear_columna_combinada` writes its new column only. */
  lemma CombineFootprint(t: Table, q: string, newName: string, sep: string, joinSep: string, empty: string)
    requires WellFormed(t)
    ensures Shaped(t, Combine(t, q, newName, sep, joinSep, empty))
    ensures forall n | n != newName :: Keeps(t, Combine(t, q, newName, sep, joinSep, empty), n)
  {
    if Combine(t, q, newName, sep, joinSep, empty).Ok? {
      CombineValue(t, q, newName, sep, joinSep, empty);
    }
  }

  lemma CombineFamily(t: Table, q: string, newName: string, sep: string, joinSep: string, empty: string, p: string)
    requires WellFormed(t) && !(p <= newName)
    ensures KeepsFamily(t, Combine(t, q, newName, sep, joinSep, empty), p)
  {
    if Combine(t, q, newName, sep, joinSep, empty).Ok? {
      CombineValue(t, q, newName, sep, joinSep, empty);
      var fam := Select(t.names, q);
      var c := if |fam| == 0 then Const(Str(empty), t.rows) else CombinedColumn(t, fam, sep, joinSep, empty);
      SetColFamily(t, newName, c, p);
    }
  }

  /** `otros_a_dummy` never overwrites a column (a dummy name that exists
      already is reported), so it only drops the source and the listed
      columns. */
  lemma DummiesFootprint(t: Table, src: string, prefix: string, sep: string, dropSource: bool, drop: seq<string>)
    requires WellFormed(t)
    ensures Shaped(t, Dummies(t, src, prefix, sep, dropSource, drop))
    ensures forall n | n != src && n !in drop :: Keeps(t, Dummies(t, src, prefix, sep, dropSource, drop), n)
  {
    if src in t.cols && Dummies(t, src, prefix, sep, dropSource, drop).Ok? {
      DummiesOneHot(t, src, prefix, sep);
      DummiesDrops(t, src, prefix, sep, dropSource, drop);
    }
  }

  /** The concat of `otros_a_dummy` adds names starting with `prefix + sep`
      only, after the existing ones. */
  lemma WithDummiesFamily(t: Table, src: string, prefix: string, sep: string, p: string, k: nat)
    requires WellFormed(t) && src in t.cols && ApartAt(p, prefix + sep, k)
    requires WithDummies(t, src, prefix, sep).Ok?
    ensures SameFamily(t, WithDummies(t, src, prefix, sep).value, p)
  {
    var w := WithDummies(t, src, prefix, sep).value;
    var vals := Labels(t.cols[src]);
    var ns := DummyNames(prefix, sep, vals);
    assert w.names == t.names + ns && w.cols == t.cols + DummyBlock(t.cols[src], prefix, sep, vals);
    forall x | x in ns ensures !(p <= x) {
      var j :| 0 <= j < |ns| && ns[j] == x;
      ApartNames(p, prefix + sep, k, vals[j]);
    }
    SelectAppend(t.names, ns, p);
    SelectNone(ns, p);
  }

  lemma DummiesFamily(t: Table, src: string, prefix: string, sep: string, dropSource: bool, drop: seq<string>,
                      p: string, k: nat)
    requires WellFormed(t) && ApartAt(p, prefix + sep, k) && !(p <= src)
    requires forall x | x in drop :: !(p <= x)
    ensures KeepsFamily(t, Dummies(t, src, prefix, sep, dropSource, drop), p)
  {
    if src !in t.cols {
      SameFamilyRefl(t, p);
    } else if WithDummies(t, src, prefix, sep).Ok? {
      var w := WithDummies(t, src, prefix, sep).value;
      WithDummiesFamily(t, src, prefix, sep, p, k);
      var w2 := w;
      if |drop| > 0 {
        w2 := Drop(w, drop);
        DropFamily(w, drop, p);
        SameFamilyTrans(t, w, w2, p);
      }
      var w3 := w2;
      if dropSource {
        w3 := Drop(w2, [src]);
        assert forall x | x in [src] :: x == src;
        DropFamily(w2, [src], p);
        SameFamilyTrans(t, w2, w3, p);
      }
      assert Dummies(t, src, prefix, sep, dropSource, drop) == Ok(w3);
    }
  }

  /** The loop of `agregar_cantidades_otras` only ever writes names that
      start with `prefix + sep`. */
  lemma {:induction false} SpreadAllFamily(t: Table, prefix: string, sep: string, vals: seq<string>,
                                           col: seq<Cell>, w: seq<int>, p: string, k: nat)
    requires WellFormed(t) && |col| == t.rows && |w| == t.rows && ApartAt(p, prefix + sep, k)
    ensures SameFamily(t, SpreadAll(t, prefix, sep, vals, col, w), p)
  {
    if |vals| == 0 {
      SameFamilyRefl(t, p);
    } else {
      var init := vals[..|vals| - 1];
      var last := vals[|vals| - 1];
      var r0 := SpreadAll(t, prefix, sep, init, col, w);
      SpreadAllFamily(t, prefix, sep, init, col, w, p, k);
      ApartNames(p, prefix + sep, k, last);
      assert prefix + sep + last == (prefix + sep) + last;
      SetColFamily(r0, prefix + sep + last, Spread(col, w, last), p);
      SameFamilyTrans(t, r0, SpreadAll(t, prefix, sep, vals, col, w), p);
    }
  }

  /** `agregar_cantidades_otras` writes names starting with `prefix + sep`
      and drops the source and the quantity. */
  lemma CantidadesFootprint(t: Table, src: string, qty: string, prefix: string, sep: string,
                            dropSource: bool, dropQty: bool)
    requires WellFormed(t)
    ensures Shaped(t, Cantidades(t, src, qty, prefix, sep, dropSource, dropQty))
    ensures forall n | n != src && n != qty && !(prefix + sep <= n) ::
      Keeps(t, Cantidades(t, src, qty, prefix, sep, dropSource, dropQty), n)
  {
    if src in t.cols && qty in t.cols && Cantidades(t, src, qty, prefix, sep, dropSource, dropQty).Ok? {
      var vals := Labels(t.cols[src]);
      var col, w := t.cols[src], Quantities(t.cols[qty]);
      var t1 := SpreadAll(t, prefix, sep, vals, col, w);
      SpreadAllOthers(t, prefix, sep, vals, col, w);
      var t2 := if dropSource then Drop(t1, [src]) else t1;
      var u := if dropQty then Drop(t2, [qty]) else t2;
      assert Cantidades(t, src, qty, prefix, sep, dropSource, dropQty) == Ok(u);
      forall n | n != src && n != qty && !(prefix + sep <= n) ensures SameCol(t, u, n) {
        assert SameCol(t, t1, n);
      }
    }
  }

  lemma SpreadAllOthers(t: Table, prefix: string, sep: string, vals: seq<string>, col: seq<Cell>, w: seq<int>)
    requires WellFormed(t) && |col| == t.rows && |w| == t.rows
    ensures forall n | !(prefix + sep <= n) :: SameCol(t, SpreadAll(t, prefix, sep, vals, col, w), n)
  {
    SpreadAllKeeps(t, prefix, sep, vals, col, w);
    var ds := DummyNames(prefix, sep, vals);
    forall n | !(prefix + sep <= n) ensures n !in ds {
    }
  }

  lemma CantidadesFamily(t: Table, src: string, qty: string, prefix: string, sep: string,
                         dropSource: bool, dropQty: bool, p: string, k: nat)
    requires WellFormed(t) && ApartAt(p, prefix + sep, k) && !(p <= src) && !(p <= qty)
    ensures KeepsFamily(t, Cantidades(t, src, qty, prefix, sep, dropSource, dropQty), p)
  {
    if src in t.cols && qty in t.cols && Cantidades(t, src, qty, prefix, sep, dropSource, dropQty).Ok? {
      var vals := Labels(t.cols[src]);
      var col, w := t.cols[src], Quantities(t.cols[qty]);
      var t1 := SpreadAll(t, prefix, sep, vals, col, w);
      SpreadAllFamily(t, prefix, sep, vals, col, w, p, k);
      var t2 := if dropSource then Drop(t1, [src]) else t1;
      DropFamily(t1, [src], p);
      DropFamily(t2, [qty], p);
      SameFamilyTrans(t, t1, t2, p);
      SameFamilyTrans(t, t2, if dropQty then Drop(t2, [qty]) else t2, p);
    }
  }

  // ---------------------------------------------------------------------
  // prev_utils

  /** `agregar_area` writes `Área` only. */
  lemma AreaFootprint(t: Table)
    requires WellFormed(t)
    ensures Shaped(t, PrevUtils.Area(t))
    ensures forall n | n != "Área" :: Keeps(t, PrevUtils.Area(t), n)
  {
    PrevUtils.AreaEffect(t);
  }

  lemma AreaFamily(t: Table, p: string)
    requires WellFormed(t) && !(p <= "Área")
    ensures KeepsFamily(t, PrevUtils.Area(t), p)
  {
    if PrevUtils.Area(t).Ok? {
      SetColFamily(t, "Área", PrevUtils.AreaColumn(t), p);
    }
  }

  /** `renombrar_subareas`, with any prefix `q`, moves listed columns only. */
  lemma RenameSubareasFootprint(t: Table, list: seq<string>, q: string)
    requires WellFormed(t)
    ensures Shaped(t, PrevUtils.RenameSubareas(t, list, q))
    ensures forall n | n !in list :: Keeps(t, PrevUtils.RenameSubareas(t, list, q), n)
  {
    if PrevUtils.RenameSubareas(t, list, q).Ok? {
      PrevUtils.RenameSubareasKeeps(t, list, q);
    }
  }

  lemma {:induction false} RenameSubareasFamily(t: Table, list: seq<string>, q: string, p: string)
    requires WellFormed(t)
    requires forall x | x in list :: !(p <= x) && !(p <= q + x)
    ensures KeepsFamily(t, PrevUtils.RenameSubareas(t, list, q), p)
    decreases |list|
  {
    if |list| == 0 {
      SameFamilyRefl(t, p);
    } else {
      var n := list[0];
      assert n in list;
      assert forall x | x in list[1..] :: x in list;
      if n !in t.cols {
        RenameSubareasFamily(t, list[1..], q, p);
      } else if q + n !in t.cols {
        var t1 := Rename(t, n, q + n);
        RenameFamily(t, n, q + n, p);
        RenameSubareasFamily(t1, list[1..], q, p);
        if PrevUtils.RenameSubareas(t, list, q).Ok? {
          SameFamilyTrans(t, t1, PrevUtils.RenameSubareas(t, list, q).value, p);
        }
      }
    }
  }

  /** `agregar_subarea` writes `Subárea` only. */
  lemma SubareaFootprint(t: Table)
    requires WellFormed(t)
    ensures Shaped(t, Ok(PrevUtils.Subarea(t)))
    ensures forall n | n != "Subárea" :: Keeps(t, Ok(PrevUtils.Subarea(t)), n)
  {
  }

  lemma SubareaFamily(t: Table, p: string)
    requires WellFormed(t) && !(p <= "Subárea")
    ensures KeepsFamily(t, Ok(PrevUtils.Subarea(t)), p)
  {
    SetColFamily(t, "Subárea", PrevUtils.SubareaColumn(t), p);
  }

  // ---------------------------------------------------------------------
  // lamp_utils

  /** `agregar_columna_lampara` writes `Lámpara` and drops the two city
      columns. */
  lemma LamparaFootprint(t: Table)
    requires WellFormed(t)
    ensures Shaped(t, LampUtils.Lampara(t))
    ensures forall n | n != "Lámpara" && n != LampUtils.Rionegro && n != LampUtils.Medellin ::
      Keeps(t, LampUtils.Lampara(t), n)
  {
    LampUtils.LamparaEffect(t);
  }

  lemma LamparaFamily(t: Table, p: string)
    requires WellFormed(t)
    requires !(p <= "Lámpara") && !(p <= LampUtils.Rionegro) && !(p <= LampUtils.Medellin)
    ensures KeepsFamily(t, LampUtils.Lampara(t), p)
  {
    if LampUtils.Lampara(t).Ok? {
      var c := LampUtils.LamparaColumn(t.cols[LampUtils.Rionegro], t.cols[LampUtils.Medellin]);
      SetThenDropFamily(t, "Lámpara", c, LampUtils.Rionegro, LampUtils.Medellin, p);
    }
  }

  // ---------------------------------------------------------------------
  // roed_utils

  /** `agregar_columna_num_estacion` writes `Numero de estación` and drops
      the two city columns. */
  lemma NumEstacionFootprint(t: Table)
    requires WellFormed(t)
    ensures Shaped(t, RoedUtils.NumEstacion(t))
    ensures forall n | n != RoedUtils.Numero && n != RoedUtils.Medellin && n != RoedUtils.Rionegro ::
      Keeps(t, RoedUtils.NumEstacion(t), n)
  {
    if RoedUtils.NumEstacion(t).Ok? {
      RoedUtils.NumEstacionEffect(t);
    }
  }

  lemma NumEstacionFamily(t: Table, p: string)
    requires WellFormed(t)
    requires !(p <= RoedUtils.Numero) && !(p <= RoedUtils.Medellin) && !(p <= RoedUtils.Rionegro)
    ensures KeepsFamily(t, RoedUtils.NumEstacion(t), p)
  {
    if RoedUtils.NumEstacion(t).Ok? {
      RoedUtils.NumEstacionValue(t);
      var c := RoedUtils.Sums(RoedUtils.StationNumbers(t.cols[RoedUtils.Rionegro]).value,
                              RoedUtils.StationNumbers(t.cols[RoedUtils.Medellin]).value);
      SetThenDropFamily(t, RoedUtils.Numero, c, RoedUtils.Medellin, RoedUtils.Rionegro, p);
    }
  }

  /** `unir_columna_consumido` writes the bait-change column and drops the
      consumed one. */
  lemma UnirConsumidoFootprint(t: Table)
    requires WellFormed(t)
    ensures Shaped(t, RoedUtils.UnirConsumido(t))
    ensures forall n | n != RoedUtils.Consumido && n != RoedUtils.Cambio ::
      Keeps(t, RoedUtils.UnirConsumido(t), n)
  {
    if RoedUtils.UnirConsumido(t).Ok? {
      RoedUtils.UnirConsumidoEffect(t);
    }
  }
}
