/** What the three normalisers hand back: the stages of `PipelineStages`
    chained from the raw frame to the two views of `ordenar_columnas_*`.
    A column no stage writes reaches both views with the raw cells, and
    the combined columns in the views hold the combinations their stages
    wrote. */
module PipelineViews {
  import opened Text
  import opened Tables
  import opened DateUtils
  import opened GeneralUtils
  import opened Footprints
  import opened Pipeline
  import opened PipelineStages
  import Config
  import PrevUtils
  import LampUtils
  import RoedUtils

  // ---------------------------------------------------------------------
  // Views and families

  /** Column `col` of `v` holds, row by row, what combining the family `p`
      of `z` gives. */
  ghost predicate CombinesOf(v: Table, col: string, z: Table, p: string, sep: string, joinSep: string, empty: string)
  {
    && WellFormed(z) && col in v.cols
    && v.cols[col] == CombinedColumn(z, Select(z.names, p), sep, joinSep, empty)
  }

  /** A summary column is the combination of its own table's family. */
  lemma SummarisesCombines(t: Table, p: string, col: string, sep: string, joinSep: string, empty: string)
    requires Summarises(t, p, col, sep, joinSep, empty)
    ensures CombinesOf(t, col, t, p, sep, joinSep, empty)
  {
  }

  /** Two tables that agree on a family combine it into the same column. */
  lemma CombinedColumnSame(t: Table, u: Table, p: string, sep: string, joinSep: string, empty: string)
    requires WellFormed(t) && WellFormed(u) && SameFamily(t, u, p) && t.rows == u.rows
    ensures CombinedColumn(t, Select(t.names, p), sep, joinSep, empty)
         == CombinedColumn(u, Select(u.names, p), sep, joinSep, empty)
  {
    forall i | 0 <= i < t.rows
      ensures CombinedCell(t, Select(t.names, p), i, sep, joinSep, empty)
           == CombinedCell(u, Select(u.names, p), i, sep, joinSep, empty)
    {
      CombinedSame(t, u, p, i, sep, joinSep, empty);
    }
  }

  /** A view listing the whole family `p` in the table's order, and the
      summary column, keeps the summary. */
  lemma SummarisesProjected(t: Table, list: seq<string>, p: string, col: string, sep: string, joinSep: string, empty: string)
    requires Summarises(t, p, col, sep, joinSep, empty)
    requires Project(t, list).Ok? && WellFormed(Project(t, list).value)
    requires col in list && Select(list, p) == Select(t.names, p)
    ensures Summarises(Project(t, list).value, p, col, sep, joinSep, empty)
  {
    ProjectFamily(t, list, p);
    SummarisesKept(t, Project(t, list).value, p, col, sep, joinSep, empty);
  }

  /** `q <= p`, and no fixed name starts with `p`: the names of a view
      `a + Select(names, q) + b` that start with `p` are those of `names`. */
  lemma SelectOneFamily(a: seq<string>, q: string, names: seq<string>, b: seq<string>, p: string)
    requires q <= p
    requires forall x | x in a + b :: !(p <= x)
    ensures Select(a + Select(names, q) + b, p) == Select(names, p)
  {
    assert forall x | x in a :: x in a + b;
    assert forall x | x in b :: x in a + b;
    SelectAppend(a + Select(names, q), b, p);
    SelectAppend(a, Select(names, q), p);
    SelectNone(a, p);
    SelectNone(b, p);
    SelectSelect(names, q, p);
  }

  /** The same for a view with two families, `p` extending one of them and
      starting apart from the other. */
  lemma SelectTwoFamilies(a: seq<string>, q: string, b: seq<string>, r: string, c: seq<string>,
                          names: seq<string>, p: string, k: nat)
    requires (q <= p && ApartAt(r, p, k)) || (r <= p && ApartAt(q, p, k))
    requires forall x | x in a + b + c :: !(p <= x)
    ensures Select(a + Select(names, q) + b + Select(names, r) + c, p) == Select(names, p)
  {
    var f, g := Select(names, q), Select(names, r);
    assert forall x | x in a :: x in a + b + c;
    assert forall x | x in b :: x in a + b + c;
    assert forall x | x in c :: x in a + b + c;
    SelectAppend(a + f + b + g, c, p);
    SelectAppend(a + f + b, g, p);
    SelectAppend(a + f, b, p);
    SelectAppend(a, f, p);
    SelectNone(a, p);
    SelectNone(b, p);
    SelectNone(c, p);
    if q <= p && ApartAt(r, p, k) {
      SelectSelect(names, q, p);
      forall x | x in g ensures !(p <= x) {
        PrefixesDiffer(r, p, x, k);
      }
      SelectNone(g, p);
    } else {
      SelectSelect(names, r, p);
      forall x | x in f ensures !(p <= x) {
        PrefixesDiffer(q, p, x, k);
      }
      SelectNone(f, p);
    }
  }

  /** No configured sub-area is a technician column. */
  lemma SubareasNotTecnicos()
    ensures forall x | x in Config.SubareasPreventivos ::
      !(TecnicosPrefix <= x) && !(TecnicosPrefix <= PrevUtils.SubareaPrefix + x)
  {
    forall x | x in Config.SubareasPreventivos
      ensures !(TecnicosPrefix <= x) && !(TecnicosPrefix <= PrevUtils.SubareaPrefix + x)
    {
      assert x[0] != 'T' || x[1] != TecnicosPrefix[1];
      assert (PrevUtils.SubareaPrefix + x)[0] == 'S';
    }
  }

  /** No column the date or location stages write is a technician column. */
  lemma TecnicosApart()
    ensures !(TecnicosPrefix <= "Fecha") && !(TecnicosPrefix <= "Fecha pandas") && !(TecnicosPrefix <= "Mes")
    ensures !(TecnicosPrefix <= "Área") && !(TecnicosPrefix <= "Subárea")
  {
    assert TecnicosPrefix[0] == 'T';
  }

  // ---------------------------------------------------------------------
  // procesar_preventivos

  /** The stages of `procesar_preventivos`, each one succeeding on the
      frame the one before left. */
  lemma PreventivosChain(parse: Parser, t0: Table) returns (t1: Table, t2: Table, t3: Table, t4: Table, t5: Table, t6: Table)
    requires WellFormed(t0) && Preventivos(parse, t0).Ok?
    ensures WellFormed(t1) && WellFormed(t2) && WellFormed(t3) && WellFormed(t4) && WellFormed(t5) && WellFormed(t6)
    ensures t1.rows == t0.rows && t2.rows == t0.rows && t3.rows == t0.rows
    ensures t4.rows == t0.rows && t5.rows == t0.rows && t6.rows == t0.rows
    ensures Fechas(parse, t0) == Ok(t1) && Ubicacion(t1) == Ok(t2) && Tecnicos(t2) == Ok(t3) && Plagas(t3) == Ok(t4)
    ensures Plaguicidas(t4, "Cuál otro plaguicida fue utilizado?", "Plaguicidas", "Plaguicidas/Otro:") == Ok(t5)
    ensures OtrasPrev(t5) == Ok(t6)
    ensures Preventivos(parse, t0) == PrevUtils.OrdenarColumnasPrev(t6)
  {
    t1 := Fechas(parse, t0).value;
    t2 := Ubicacion(t1).value;
    t3 := Tecnicos(t2).value;
    t4 := Plagas(t3).value;
    t5 := Plaguicidas(t4, "Cuál otro plaguicida fue utilizado?", "Plaguicidas", "Plaguicidas/Otro:").value;
    t6 := OtrasPrev(t5).value;
  }

  /** The columns some stage of `procesar_preventivos` writes, renames or
      drops. */
  predicate PrevWrites(n: string)
  {
    || n in ["Fecha", "Fecha pandas", "Mes", "Área", "Subárea", "Técnicos", OtrasPlagas, CantidadOtrasPlagas,
             "Evidencia de plagas", "Cuál otro plaguicida fue utilizado?", "Plaguicidas utilizados",
             "Servicio verificado por", "Acompañante", "OBSERVACIONES", "Observaciones", "_index", "ID"]
    || n in Config.SubareasPreventivos
    || TecnicosPrefix <= n || HallazgosPrefix <= n || PrevUtils.PlaguicidasPrefix <= n
  }

  /** A raw column that no preventive stage writes reaches both views with
      its raw cells. */
  lemma PreventivosKeeps(parse: Parser, t0: Table, n: string)
    requires WellFormed(t0) && Preventivos(parse, t0).Ok? && !PrevWrites(n)
    ensures var v := Preventivos(parse, t0).value;
      && (n in t0.cols && n in v.0.cols ==> v.0.cols[n] == t0.cols[n])
      && (n in t0.cols && n in v.1.cols ==> v.1.cols[n] == t0.cols[n])
  {
    var t1, t2, t3, t4, t5, t6 := PreventivosChain(parse, t0);
    PrevStagesKeep(parse, t0, t1, t2, t3, t4, t5, t6, n);
    PrevUtils.OrdenarPrevShape(t6);
  }

  /** The stage chain of `procesar_preventivos` keeps every column it does
      not write. */
  lemma PrevStagesKeep(parse: Parser, t0: Table, t1: Table, t2: Table, t3: Table, t4: Table, t5: Table, t6: Table, n: string)
    requires WellFormed(t0) && WellFormed(t1) && WellFormed(t2) && WellFormed(t3) && WellFormed(t4) && WellFormed(t5)
    requires Fechas(parse, t0) == Ok(t1) && Ubicacion(t1) == Ok(t2) && Tecnicos(t2) == Ok(t3) && Plagas(t3) == Ok(t4)
    requires Plaguicidas(t4, "Cuál otro plaguicida fue utilizado?", "Plaguicidas", "Plaguicidas/Otro:") == Ok(t5)
    requires OtrasPrev(t5) == Ok(t6)
    requires !PrevWrites(n)
    ensures SameCol(t0, t6, n)
  {
    PrevWritesParts(n);
    PrevEarlyKeep(parse, t0, t1, t2, t3, n);
    PrevLateKeep(t3, t4, t5, t6, n);
  }

  /** What `PrevWrites` rules out, name by name. */
  lemma PrevWritesParts(n: string)
    requires !PrevWrites(n)
    ensures n != "Fecha" && n != "Fecha pandas" && n != "Mes" && n != "Área" && n != "Subárea"
    ensures n !in Config.SubareasPreventivos && n != "Técnicos" && !(TecnicosPrefix <= n)
    ensures n != OtrasPlagas && n != CantidadOtrasPlagas && n != "Evidencia de plagas" && !(HallazgosPrefix <= n)
    ensures n != "Cuál otro plaguicida fue utilizado?" && n != "Plaguicidas/Otro:" && n != "Plaguicidas utilizados"
    ensures !(PrevUtils.PlaguicidasPrefix <= n)
    ensures n != "Servicio verificado por" && n != "Acompañante" && n != "OBSERVACIONES"
    ensures n != "Observaciones" && n != "_index" && n != "ID"
  {
    assert PrevUtils.PlaguicidasPrefix <= "Plaguicidas/Otro:";
  }

  /** The date, location and technician stages keep what they do not write. */
  lemma PrevEarlyKeep(parse: Parser, t0: Table, t1: Table, t2: Table, t3: Table, n: string)
    requires WellFormed(t0) && WellFormed(t1) && WellFormed(t2)
    requires Fechas(parse, t0) == Ok(t1) && Ubicacion(t1) == Ok(t2) && Tecnicos(t2) == Ok(t3)
    requires n != "Fecha" && n != "Fecha pandas" && n != "Mes" && n != "Área" && n != "Subárea"
    requires n !in Config.SubareasPreventivos && n != "Técnicos" && !(TecnicosPrefix <= n)
    ensures SameCol(t0, t3, n)
  {
    FechasFootprint(parse, t0);
    UbicacionFootprint(t1);
    TecnicosFootprint(t2);
    assert Keeps(t0, Fechas(parse, t0), n) && Keeps(t1, Ubicacion(t1), n) && Keeps(t2, Tecnicos(t2), n);
  }

  /** The pest, pesticide and remaining stages keep what they do not write. */
  lemma PrevLateKeep(t3: Table, t4: Table, t5: Table, t6: Table, n: string)
    requires WellFormed(t3) && WellFormed(t4) && WellFormed(t5)
    requires Plagas(t3) == Ok(t4)
    requires Plaguicidas(t4, "Cuál otro plaguicida fue utilizado?", "Plaguicidas", "Plaguicidas/Otro:") == Ok(t5)
    requires OtrasPrev(t5) == Ok(t6)
    requires n != OtrasPlagas && n != CantidadOtrasPlagas && n != "Evidencia de plagas" && !(HallazgosPrefix <= n)
    requires n != "Cuál otro plaguicida fue utilizado?" && n != "Plaguicidas/Otro:" && n != "Plaguicidas utilizados"
    requires !(PrevUtils.PlaguicidasPrefix <= n)
    requires n != "Servicio verificado por" && n != "Acompañante" && n != "OBSERVACIONES"
    requires n != "Observaciones" && n != "_index" && n != "ID"
    ensures SameCol(t3, t6, n)
  {
    PlagasFootprint(t3);
    PlaguicidasFootprint(t4, "Cuál otro plaguicida fue utilizado?", "Plaguicidas", "Plaguicidas/Otro:");
    assert "Plaguicidas" + "/" == PrevUtils.PlaguicidasPrefix;
    OtrasPrevFootprint(t5);
    assert Keeps(t3, Plagas(t3), n) && Keeps(t5, OtrasPrev(t5), n);
    assert Keeps(t4, Plaguicidas(t4, "Cuál otro plaguicida fue utilizado?", "Plaguicidas", "Plaguicidas/Otro:"), n);
  }

  /** `Sede`, which the report filters on, is in both views with the raw
      cells. */
  lemma PreventivosSede(parse: Parser, t0: Table)
    requires WellFormed(t0) && Preventivos(parse, t0).Ok?
    ensures var v := Preventivos(parse, t0).value;
      && "Sede" in v.0.cols && "Sede" in v.1.cols
      && ("Sede" in t0.cols ==> v.0.cols["Sede"] == t0.cols["Sede"] && v.1.cols["Sede"] == t0.cols["Sede"])
  {
    var t1, t2, t3, t4, t5, t6 := PreventivosChain(parse, t0);
    PrevUtils.OrdenarPrevShape(t6);
    assert "Sede" in PrevUtils.Middle;
    SedeNotPrev();
    PreventivosKeeps(parse, t0, "Sede");
  }

  lemma SedeNotPrev()
    ensures !PrevWrites("Sede")
  {
    var s := "Sede";
    forall x | x in Config.SubareasPreventivos ensures x != s {
      assert x[0] != 'S';
    }
    assert s[0] == 'S' && s[1] == 'e';
  }

  /** In both views `Técnicos` is, row by row, the combination of the raw
      technician columns zero-filled: the date and location stages leave
      that family alone. */
  lemma PreventivosTecnicos(parse: Parser, t0: Table)
    requires WellFormed(t0) && Preventivos(parse, t0).Ok?
    ensures ZeroFill(t0, TecnicosPrefix).Ok?
    ensures var z, v := ZeroFill(t0, TecnicosPrefix).value, Preventivos(parse, t0).value;
      && CombinesOf(v.0, "Técnicos", z, TecnicosPrefix, "/", ", ", "")
      && CombinesOf(v.1, "Técnicos", z, TecnicosPrefix, "/", ", ", "")
  {
    var t1, t2, t3, t4, t5, t6 := PreventivosChain(parse, t0);
    PrevTecnicosStages(parse, t0, t1, t2, t3);
    PrevLateKeep(t3, t4, t5, t6, "Técnicos");
    PrevUtils.OrdenarPrevShape(t6);
    assert "Técnicos" in PrevUtils.Middle;
  }

  /** Up to the technician stage, the date and location stages leave the
      technician family alone. */
  lemma PrevTecnicosStages(parse: Parser, t0: Table, t1: Table, t2: Table, t3: Table)
    requires WellFormed(t0) && WellFormed(t1) && WellFormed(t2)
    requires Fechas(parse, t0) == Ok(t1) && Ubicacion(t1) == Ok(t2) && Tecnicos(t2) == Ok(t3)
    ensures ZeroFill(t0, TecnicosPrefix).Ok?
    ensures CombinesOf(t3, "Técnicos", ZeroFill(t0, TecnicosPrefix).value, TecnicosPrefix, "/", ", ", "")
  {
    TecnicosApart();
    FechasFamily(parse, t0, TecnicosPrefix);
    SubareasNotTecnicos();
    UbicacionFamily(t1, TecnicosPrefix);
    SameFamilyTrans(t0, t1, t2, TecnicosPrefix);
    TecnicosRaw(t0, t2);
  }

  /** The literal names the late preventive stages meet, against the two
      families of the preventive views. */
  lemma PrevFamiliesApart()
    ensures PrevUtils.CantidadPrefix <= HallazgosPrefix && PrevUtils.PlaguicidasPrefix == "Plaguicidas" + "/"
    ensures ApartAt(HallazgosPrefix, "Plaguicidas" + "/", 0) && ApartAt(PrevUtils.CantidadPrefix, PrevUtils.PlaguicidasPrefix, 0)
    ensures !(HallazgosPrefix <= "Cuál otro plaguicida fue utilizado?") && !(HallazgosPrefix <= "Plaguicidas/Otro:")
    ensures !(HallazgosPrefix <= "Plaguicidas utilizados") && !(PrevUtils.PlaguicidasPrefix <= "Plaguicidas utilizados")
    ensures forall p | p in [HallazgosPrefix, PrevUtils.PlaguicidasPrefix] ::
      && !(p <= "Servicio verificado por") && !(p <= "Acompañante") && !(p <= "OBSERVACIONES")
      && !(p <= "Observaciones") && !(p <= "_index") && !(p <= "ID")
    ensures forall n | n in ["Evidencia de plagas", "Plaguicidas utilizados"] ::
      && n != "Servicio verificado por" && n != "Acompañante" && n != "OBSERVACIONES"
      && n != "Observaciones" && n != "_index" && n != "ID"
    ensures "Evidencia de plagas" != "Cuál otro plaguicida fue utilizado?" && "Evidencia de plagas" != "Plaguicidas/Otro:"
    ensures !("Plaguicidas" + "/" <= "Evidencia de plagas") && "Evidencia de plagas" != "Plaguicidas utilizados"
  {
    assert HallazgosPrefix[0] == 'C' && HallazgosPrefix[1] == 'a' && PrevUtils.PlaguicidasPrefix[0] == 'P';
    assert PrevUtils.PlaguicidasPrefix[11] == '/';
    assert HallazgosPrefix[..|PrevUtils.CantidadPrefix|] == PrevUtils.CantidadPrefix;
  }

  /** After the pest and pesticide stages `Evidencia de plagas` sums up the
      quantity family. */
  lemma PrevStagesHallazgos(t3: Table, t4: Table, t5: Table)
    requires WellFormed(t3) && WellFormed(t4) && WellFormed(t5)
    requires t4.rows == t3.rows && t5.rows == t3.rows
    requires Plagas(t3) == Ok(t4)
    requires Plaguicidas(t4, "Cuál otro plaguicida fue utilizado?", "Plaguicidas", "Plaguicidas/Otro:") == Ok(t5)
    ensures Summarises(t5, HallazgosPrefix, "Evidencia de plagas", "hallazgos de ", ", ", "Sin evidencia")
  {
    PrevFamiliesApart();
    PlagasSummarises(t3);
    PlaguicidasFamily(t4, "Cuál otro plaguicida fue utilizado?", "Plaguicidas", "Plaguicidas/Otro:", HallazgosPrefix, 0);
    PlaguicidasFootprint(t4, "Cuál otro plaguicida fue utilizado?", "Plaguicidas", "Plaguicidas/Otro:");
    assert Keeps(t4, Plaguicidas(t4, "Cuál otro plaguicida fue utilizado?", "Plaguicidas", "Plaguicidas/Otro:"), "Evidencia de plagas");
    SummarisesKept(t4, t5, HallazgosPrefix, "Evidencia de plagas", "hallazgos de ", ", ", "Sin evidencia");
  }

  /** After the last preventive stage `Plaguicidas utilizados` still sums up
      the pesticide family. */
  lemma PrevStagesPlaguicidas(t4: Table, t5: Table, t6: Table)
    requires WellFormed(t4) && WellFormed(t5) && WellFormed(t6) && t6.rows == t5.rows
    requires Plaguicidas(t4, "Cuál otro plaguicida fue utilizado?", "Plaguicidas", "Plaguicidas/Otro:") == Ok(t5)
    requires OtrasPrev(t5) == Ok(t6)
    ensures Summarises(t6, PrevUtils.PlaguicidasPrefix, "Plaguicidas utilizados", "/", " - ", "")
  {
    PrevFamiliesApart();
    PlaguicidasSummarises(t4, "Cuál otro plaguicida fue utilizado?", "Plaguicidas", "Plaguicidas/Otro:");
    OtrasPrevSummary(t5, t6, PrevUtils.PlaguicidasPrefix, "Plaguicidas utilizados", "/", " - ", "");
  }

  /** The last preventive stage keeps a summary it neither writes nor
      touches the family of. */
  lemma OtrasPrevSummary(t: Table, u: Table, p: string, col: string, sep: string, joinSep: string, empty: string)
    requires Summarises(t, p, col, sep, joinSep, empty)
    requires OtrasPrev(t) == Ok(u) && WellFormed(u) && u.rows == t.rows
    requires !(p <= "Servicio verificado por") && !(p <= "Acompañante") && !(p <= "OBSERVACIONES")
    requires !(p <= "Observaciones") && !(p <= "_index") && !(p <= "ID")
    requires col != "Servicio verificado por" && col != "Acompañante" && col != "OBSERVACIONES"
    requires col != "Observaciones" && col != "_index" && col != "ID"
    ensures Summarises(u, p, col, sep, joinSep, empty)
  {
    OtrasPrevFamily(t, p);
    OtrasPrevFootprint(t);
    assert Keeps(t, OtrasPrev(t), col);
    SummarisesKept(t, u, p, col, sep, joinSep, empty);
  }

  /** After the last preventive stage `Evidencia de plagas` still sums up the
      quantity family and `Plaguicidas utilizados` the pesticide family. */
  lemma PrevStagesSummarise(t3: Table, t4: Table, t5: Table, t6: Table)
    requires WellFormed(t3) && WellFormed(t4) && WellFormed(t5) && WellFormed(t6)
    requires t4.rows == t3.rows && t5.rows == t3.rows && t6.rows == t3.rows
    requires Plagas(t3) == Ok(t4)
    requires Plaguicidas(t4, "Cuál otro plaguicida fue utilizado?", "Plaguicidas", "Plaguicidas/Otro:") == Ok(t5)
    requires OtrasPrev(t5) == Ok(t6)
    ensures Summarises(t6, HallazgosPrefix, "Evidencia de plagas", "hallazgos de ", ", ", "Sin evidencia")
    ensures Summarises(t6, PrevUtils.PlaguicidasPrefix, "Plaguicidas utilizados", "/", " - ", "")
  {
    PrevFamiliesApart();
    PrevStagesHallazgos(t3, t4, t5);
    OtrasPrevSummary(t5, t6, HallazgosPrefix, "Evidencia de plagas", "hallazgos de ", ", ", "Sin evidencia");
    PrevStagesPlaguicidas(t4, t5, t6);
  }

  /** In both views `Evidencia de plagas` sums up the quantity columns the
      view holds; in the full view `Plaguicidas utilizados` sums up the
      pesticide columns, and the main view has the same column. */
  lemma PreventivosSummaries(parse: Parser, t0: Table)
    requires WellFormed(t0) && Preventivos(parse, t0).Ok?
    ensures var (main, all) := Preventivos(parse, t0).value;
      && Summarises(main, HallazgosPrefix, "Evidencia de plagas", "hallazgos de ", ", ", "Sin evidencia")
      && Summarises(all, HallazgosPrefix, "Evidencia de plagas", "hallazgos de ", ", ", "Sin evidencia")
      && Summarises(all, PrevUtils.PlaguicidasPrefix, "Plaguicidas utilizados", "/", " - ", "")
      && CombinesOf(main, "Plaguicidas utilizados", all, PrevUtils.PlaguicidasPrefix, "/", " - ", "")
  {
    var t1, t2, t3, t4, t5, t6 := PreventivosChain(parse, t0);
    PrevStagesSummarise(t3, t4, t5, t6);
    PrevViewsSummarise(t6);
  }

  /** The main view lists the quantity family as the frame does. */
  lemma PrevMainSelect(names: seq<string>)
    ensures Select(PrevUtils.MainColumns(names), HallazgosPrefix) == Select(names, HallazgosPrefix)
  {
    var a, b := PrevUtils.Lead + PrevUtils.Middle, ["Plaguicidas utilizados"] + PrevUtils.Trail;
    PrevFamiliesApart();
    PrevUtils.MainFixedNames();
    forall x | x in a + b ensures !(HallazgosPrefix <= x) {
      assert !(PrevUtils.CantidadPrefix <= x);
    }
    SelectOneFamily(a, PrevUtils.CantidadPrefix, names, b, HallazgosPrefix);
    assert PrevUtils.MainColumns(names) == a + Select(names, PrevUtils.CantidadPrefix) + b;
  }

  /** The full view lists the quantity and the pesticide families as the
      frame does. */
  lemma PrevAllSelect(names: seq<string>)
    ensures Select(PrevUtils.AllColumns(names), HallazgosPrefix) == Select(names, HallazgosPrefix)
    ensures Select(PrevUtils.AllColumns(names), PrevUtils.PlaguicidasPrefix) == Select(names, PrevUtils.PlaguicidasPrefix)
  {
    var a, b, c := PrevUtils.Lead + ["Fecha pandas"] + PrevUtils.Middle, ["Plaguicidas utilizados"], PrevUtils.Trail;
    var q, r := PrevUtils.CantidadPrefix, PrevUtils.PlaguicidasPrefix;
    PrevFamiliesApart();
    PrevUtils.FixedNames();
    assert forall x | x in a + b + c :: x in PrevUtils.Lead + ["Fecha pandas"] + PrevUtils.Middle + ["Plaguicidas utilizados"] + PrevUtils.Trail;
    forall x | x in a + b + c ensures !(HallazgosPrefix <= x) {
      assert !(q <= x);
    }
    assert PrevUtils.AllColumns(names) == a + Select(names, q) + b + Select(names, r) + c;
    SelectTwoFamilies(a, q, b, r, c, names, HallazgosPrefix, 0);
    SelectTwoFamilies(a, q, b, r, c, names, r, 0);
  }

  /** Both views keep the summaries the last stage leaves; the main view,
      which drops the pesticide family, keeps the summary the full view
      makes of it. */
  lemma PrevViewsSummarise(t: Table)
    requires WellFormed(t) && PrevUtils.OrdenarColumnasPrev(t).Ok?
    requires Summarises(t, HallazgosPrefix, "Evidencia de plagas", "hallazgos de ", ", ", "Sin evidencia")
    requires Summarises(t, PrevUtils.PlaguicidasPrefix, "Plaguicidas utilizados", "/", " - ", "")
    ensures var (main, all) := PrevUtils.OrdenarColumnasPrev(t).value;
      && Summarises(main, HallazgosPrefix, "Evidencia de plagas", "hallazgos de ", ", ", "Sin evidencia")
      && Summarises(all, HallazgosPrefix, "Evidencia de plagas", "hallazgos de ", ", ", "Sin evidencia")
      && Summarises(all, PrevUtils.PlaguicidasPrefix, "Plaguicidas utilizados", "/", " - ", "")
      && CombinesOf(main, "Plaguicidas utilizados", all, PrevUtils.PlaguicidasPrefix, "/", " - ", "")
  {
    var ml, al := PrevUtils.MainColumns(t.names), PrevUtils.AllColumns(t.names);
    PrevUtils.OrdenarPrevShape(t);
    PrevMainSelect(t.names);
    PrevAllSelect(t.names);
    assert "Evidencia de plagas" in PrevUtils.Middle;
    assert "Evidencia de plagas" in ml && "Evidencia de plagas" in al;
    assert "Plaguicidas utilizados" in ml && "Plaguicidas utilizados" in al;
    SummarisesProjected(t, ml, HallazgosPrefix, "Evidencia de plagas", "hallazgos de ", ", ", "Sin evidencia");
    SummarisesProjected(t, al, HallazgosPrefix, "Evidencia de plagas", "hallazgos de ", ", ", "Sin evidencia");
    SummarisesProjected(t, al, PrevUtils.PlaguicidasPrefix, "Plaguicidas utilizados", "/", " - ", "");
    SummarisesCombines(Project(t, al).value, PrevUtils.PlaguicidasPrefix, "Plaguicidas utilizados", "/", " - ", "");
  }

  /** After the technician stage, on a frame whose technician family is the
      raw one, `Técnicos` combines the raw family zero-filled. */
  lemma TecnicosRaw(t0: Table, t: Table)
    requires WellFormed(t0) && WellFormed(t) && t.rows == t0.rows && SameFamily(t0, t, TecnicosPrefix)
    requires Tecnicos(t).Ok?
    ensures ZeroFill(t0, TecnicosPrefix).Ok?
    ensures CombinesOf(Tecnicos(t).value, "Técnicos", ZeroFill(t0, TecnicosPrefix).value, TecnicosPrefix, "/", ", ", "")
  {
    TecnicosSummarises(t);
    ZeroFillSame(t0, t, TecnicosPrefix);
    ZeroFillFootprint(t0, TecnicosPrefix);
    ZeroFillFootprint(t, TecnicosPrefix);
    var z0, z, u := ZeroFill(t0, TecnicosPrefix).value, ZeroFill(t, TecnicosPrefix).value, Tecnicos(t).value;
    SameFamilyTrans(z0, z, u, TecnicosPrefix);
    SummarisesCombines(u, TecnicosPrefix, "Técnicos", "/", ", ", "");
    CombinedColumnSame(z0, u, TecnicosPrefix, "/", ", ", "");
  }

  // ---------------------------------------------------------------------
  // procesar_lamparas

  /** The stages of `procesar_lamparas`, each one succeeding on the frame the
      one before left. */
  lemma LamparasChain(parse: Parser, t0: Table) returns (t1: Table, t2: Table, t3: Table, t4: Table, t5: Table)
    requires WellFormed(t0) && Lamparas(parse, t0).Ok?
    ensures WellFormed(t1) && WellFormed(t2) && WellFormed(t3) && WellFormed(t4) && WellFormed(t5)
    ensures t1.rows == t0.rows && t2.rows == t0.rows && t3.rows == t0.rows && t4.rows == t0.rows && t5.rows == t0.rows
    ensures Fechas(parse, t0) == Ok(t1) && Tecnicos(t1) == Ok(t2) && Lampara(t2) == Ok(t3)
    ensures Especies(t3) == Ok(t4) && Otras(t4) == Ok(t5)
    ensures Lamparas(parse, t0) == LampUtils.OrdenarColumnasLamparas(t5)
  {
    t1 := Fechas(parse, t0).value;
    t2 := Tecnicos(t1).value;
    t3 := Lampara(t2).value;
    t4 := Especies(t3).value;
    t5 := Otras(t4).value;
  }

  /** The columns some stage of `procesar_lamparas` writes, renames or
      drops. */
  predicate LampWrites(n: string)
  {
    || n in ["Fecha", "Fecha pandas", "Mes", "Técnicos", "Lámpara", LampUtils.Rionegro, LampUtils.Medellin,
             "Estado de la lámpara", OtraEspecie, CantidadOtraEspecie, "Especies encontradas",
             "OBSERVACIONES", "Observaciones", "_index", "ID"]
    || TecnicosPrefix <= n || EstadoLamparaPrefix <= n || "Cantidad de " <= n
  }

  /** What `LampWrites` rules out, name by name. */
  lemma LampWritesParts(n: string)
    requires !LampWrites(n)
    ensures n != "Fecha" && n != "Fecha pandas" && n != "Mes" && n != "Técnicos" && !(TecnicosPrefix <= n)
    ensures n != "Lámpara" && n != LampUtils.Rionegro && n != LampUtils.Medellin
    ensures n != "Estado de la lámpara" && !(EstadoLamparaPrefix <= n)
    ensures n != OtraEspecie && n != CantidadOtraEspecie && n != "Especies encontradas" && !("Cantidad de " <= n)
    ensures n != "OBSERVACIONES" && n != "Observaciones" && n != "_index" && n != "ID"
  {
  }

  /** The date and technician stages keep what they do not write. */
  lemma LampEarlyKeep(parse: Parser, t0: Table, t1: Table, t2: Table, n: string)
    requires WellFormed(t0) && WellFormed(t1)
    requires Fechas(parse, t0) == Ok(t1) && Tecnicos(t1) == Ok(t2)
    requires n != "Fecha" && n != "Fecha pandas" && n != "Mes" && n != "Técnicos" && !(TecnicosPrefix <= n)
    ensures SameCol(t0, t2, n)
  {
    FechasFootprint(parse, t0);
    TecnicosFootprint(t1);
    assert Keeps(t0, Fechas(parse, t0), n) && Keeps(t1, Tecnicos(t1), n);
  }

  /** The lamp, species and remaining stages keep what they do not write. */
  lemma LampLateKeep(t2: Table, t3: Table, t4: Table, t5: Table, n: string)
    requires WellFormed(t2) && WellFormed(t3) && WellFormed(t4)
    requires Lampara(t2) == Ok(t3) && Especies(t3) == Ok(t4) && Otras(t4) == Ok(t5)
    requires n != "Lámpara" && n != LampUtils.Rionegro && n != LampUtils.Medellin
    requires n != "Estado de la lámpara" && !(EstadoLamparaPrefix <= n)
    requires n != OtraEspecie && n != CantidadOtraEspecie && n != "Especies encontradas" && !("Cantidad de " <= n)
    requires n != "OBSERVACIONES" && n != "Observaciones" && n != "_index" && n != "ID"
    ensures SameCol(t2, t5, n)
  {
    LamparaStageFootprint(t2);
    EspeciesFootprint(t3);
    OtrasFootprint(t4);
    assert Keeps(t2, Lampara(t2), n) && Keeps(t3, Especies(t3), n) && Keeps(t4, Otras(t4), n);
  }

  /** A raw column that no lamp stage writes reaches both views with its raw
      cells. */
  lemma LamparasKeeps(parse: Parser, t0: Table, n: string)
    requires WellFormed(t0) && Lamparas(parse, t0).Ok? && !LampWrites(n)
    ensures var v := Lamparas(parse, t0).value;
      && (n in t0.cols && n in v.0.cols ==> v.0.cols[n] == t0.cols[n])
      && (n in t0.cols && n in v.1.cols ==> v.1.cols[n] == t0.cols[n])
  {
    var t1, t2, t3, t4, t5 := LamparasChain(parse, t0);
    LampWritesParts(n);
    LampEarlyKeep(parse, t0, t1, t2, n);
    LampLateKeep(t2, t3, t4, t5, n);
  }

  lemma SedeNotLamp()
    ensures !LampWrites("Sede")
  {
    var s := "Sede";
    assert s[0] == 'S' && s[1] == 'e';
  }

  /** `Sede`, which the report filters on, is in both views with the raw
      cells. */
  lemma LamparasSede(parse: Parser, t0: Table)
    requires WellFormed(t0) && Lamparas(parse, t0).Ok?
    ensures var v := Lamparas(parse, t0).value;
      && "Sede" in v.0.cols && "Sede" in v.1.cols
      && ("Sede" in t0.cols ==> v.0.cols["Sede"] == t0.cols["Sede"] && v.1.cols["Sede"] == t0.cols["Sede"])
  {
    var t1, t2, t3, t4, t5 := LamparasChain(parse, t0);
    LampUtils.OrdenarLamparasShape(t5);
    assert "Sede" in LampUtils.Head;
    SedeNotLamp();
    LamparasKeeps(parse, t0, "Sede");
  }

  /** In both views `Técnicos` is, row by row, the combination of the raw
      technician columns zero-filled. */
  lemma LamparasTecnicos(parse: Parser, t0: Table)
    requires WellFormed(t0) && Lamparas(parse, t0).Ok?
    ensures ZeroFill(t0, TecnicosPrefix).Ok?
    ensures var z, v := ZeroFill(t0, TecnicosPrefix).value, Lamparas(parse, t0).value;
      && CombinesOf(v.0, "Técnicos", z, TecnicosPrefix, "/", ", ", "")
      && CombinesOf(v.1, "Técnicos", z, TecnicosPrefix, "/", ", ", "")
  {
    var t1, t2, t3, t4, t5 := LamparasChain(parse, t0);
    TecnicosApart();
    FechasFamily(parse, t0, TecnicosPrefix);
    TecnicosRaw(t0, t1);
    LampLateKeep(t2, t3, t4, t5, "Técnicos");
    LampUtils.OrdenarLamparasShape(t5);
    assert "Técnicos" in LampUtils.Head;
  }

  /** The literal names the lamp stages meet, against the lamp-state and
      species families. */
  lemma LampFamiliesApart()
    ensures LampUtils.EstadoPrefix == EstadoLamparaPrefix && LampUtils.EspeciesPrefix == EspeciesPrefix
    ensures ApartAt(EstadoLamparaPrefix, "Cantidad de ", 0) && ApartAt(EspeciesPrefix, "Cantidad de ", 0)
    ensures ApartAt(EspeciesPrefix, TecnicosPrefix, 0) && ApartAt(EspeciesPrefix, EstadoLamparaPrefix, 2)
    ensures ApartAt(LampUtils.CantidadPrefix, EstadoLamparaPrefix, 0)
    ensures !(EstadoLamparaPrefix <= OtraEspecie) && !(EstadoLamparaPrefix <= CantidadOtraEspecie)
    ensures !(EstadoLamparaPrefix <= "Especies encontradas")
    ensures !(EspeciesPrefix <= OtraEspecie) && !(EspeciesPrefix <= CantidadOtraEspecie)
    ensures !(EspeciesPrefix <= "Especies encontradas") && !(EspeciesPrefix <= "Técnicos")
    ensures !(EspeciesPrefix <= "Fecha") && !(EspeciesPrefix <= "Fecha pandas") && !(EspeciesPrefix <= "Mes")
    ensures !(EspeciesPrefix <= "Lámpara") && !(EspeciesPrefix <= LampUtils.Rionegro) && !(EspeciesPrefix <= LampUtils.Medellin)
    ensures !(EspeciesPrefix <= "Estado de la lámpara")
    ensures forall p | p in [EstadoLamparaPrefix, EspeciesPrefix] ::
      !(p <= "OBSERVACIONES") && !(p <= "Observaciones") && !(p <= "_index") && !(p <= "ID")
  {
    assert EstadoLamparaPrefix[0] == 'E' && EstadoLamparaPrefix[2] == 't';
    assert EspeciesPrefix[0] == 'E' && EspeciesPrefix[2] == 'p' && EspeciesPrefix[20] == '/';
  }

  /** The last stage of `procesar_lamparas` and `procesar_roedores` keeps a
      summary it neither writes nor touches the family of. */
  lemma OtrasSummary(t: Table, u: Table, p: string, col: string, sep: string, joinSep: string, empty: string)
    requires Summarises(t, p, col, sep, joinSep, empty)
    requires Otras(t) == Ok(u) && WellFormed(u) && u.rows == t.rows
    requires !(p <= "OBSERVACIONES") && !(p <= "Observaciones") && !(p <= "_index") && !(p <= "ID")
    requires col != "OBSERVACIONES" && col != "Observaciones" && col != "_index" && col != "ID"
    ensures Summarises(u, p, col, sep, joinSep, empty)
    ensures SameFamily(t, u, p)
  {
    OtrasFamily(t, p);
    OtrasFootprint(t);
    assert Keeps(t, Otras(t), col);
    SummarisesKept(t, u, p, col, sep, joinSep, empty);
  }

  /** After the last lamp stage `Estado de la lámpara` still sums up the
      lamp-state family. */
  lemma LampStagesEstado(t2: Table, t3: Table, t4: Table, t5: Table)
    requires WellFormed(t2) && WellFormed(t3) && WellFormed(t4) && WellFormed(t5)
    requires t4.rows == t3.rows && t5.rows == t3.rows
    requires Lampara(t2) == Ok(t3) && Especies(t3) == Ok(t4) && Otras(t4) == Ok(t5)
    ensures Summarises(t5, EstadoLamparaPrefix, "Estado de la lámpara", "/", " - ", "")
  {
    LampFamiliesApart();
    LamparaStageSummarises(t2);
    EspeciesFamily(t3, EstadoLamparaPrefix, 0);
    EspeciesFootprint(t3);
    assert Keeps(t3, Especies(t3), "Estado de la lámpara");
    SummarisesKept(t3, t4, EstadoLamparaPrefix, "Estado de la lámpara", "/", " - ", "");
    OtrasSummary(t4, t5, EstadoLamparaPrefix, "Estado de la lámpara", "/", " - ", "");
  }

  /** Up to the species stage the raw species family is untouched. */
  lemma LampEspeciesFamily(parse: Parser, t0: Table, t1: Table, t2: Table, t3: Table)
    requires WellFormed(t0) && WellFormed(t1) && WellFormed(t2)
    requires Fechas(parse, t0) == Ok(t1) && Tecnicos(t1) == Ok(t2) && Lampara(t2) == Ok(t3)
    ensures SameFamily(t0, t3, EspeciesPrefix)
  {
    LampFamiliesApart();
    FechasFamily(parse, t0, EspeciesPrefix);
    TecnicosFamily(t1, EspeciesPrefix, 0);
    LamparaStageFamily(t2, EspeciesPrefix, 2);
    SameFamilyTrans(t0, t1, t2, EspeciesPrefix);
    SameFamilyTrans(t0, t2, t3, EspeciesPrefix);
  }

  /** After the last lamp stage `Especies encontradas` combines the raw
      species columns. */
  lemma LampStagesEspecies(parse: Parser, t0: Table, t1: Table, t2: Table, t3: Table, t4: Table, t5: Table)
    requires WellFormed(t0) && WellFormed(t1) && WellFormed(t2) && WellFormed(t3) && WellFormed(t4) && WellFormed(t5)
    requires t3.rows == t0.rows && t4.rows == t0.rows && t5.rows == t0.rows
    requires Fechas(parse, t0) == Ok(t1) && Tecnicos(t1) == Ok(t2) && Lampara(t2) == Ok(t3)
    requires Especies(t3) == Ok(t4) && Otras(t4) == Ok(t5)
    ensures CombinesOf(t5, "Especies encontradas", t0, EspeciesPrefix, "/", ", ", "Sin evidencia")
  {
    LampFamiliesApart();
    LampEspeciesFamily(parse, t0, t1, t2, t3);
    EspeciesSummarises(t3);
    SameFamilyTrans(t0, t3, t4, EspeciesPrefix);
    OtrasSummary(t4, t5, EspeciesPrefix, "Especies encontradas", "/", ", ", "Sin evidencia");
    SameFamilyTrans(t0, t4, t5, EspeciesPrefix);
    SummarisesCombines(t5, EspeciesPrefix, "Especies encontradas", "/", ", ", "Sin evidencia");
    CombinedColumnSame(t0, t5, EspeciesPrefix, "/", ", ", "Sin evidencia");
  }

  /** The full lamp view lists the lamp-state family as the frame does. */
  lemma LampAllSelect(names: seq<string>)
    ensures Select(LampUtils.AllColumns(names), EstadoLamparaPrefix) == Select(names, EstadoLamparaPrefix)
  {
    var a, b, c := LampUtils.Lead + ["Fecha pandas"] + LampUtils.Head, LampUtils.Tube, ["Observaciones"];
    var q, r := LampUtils.EstadoPrefix, LampUtils.CantidadPrefix;
    LampFamiliesApart();
    LampUtils.FixedNames();
    assert forall x | x in a + b + c :: x in LampUtils.Lead + ["Fecha pandas"] + LampUtils.Head + LampUtils.Tube + ["Observaciones"];
    assert LampUtils.AllColumns(names) == a + Select(names, q) + b + Select(names, r) + c;
    SelectTwoFamilies(a, q, b, r, c, names, q, 0);
  }

  /** The full view keeps the lamp-state summary the last stage leaves; the
      main view, which drops the lamp-state family, keeps the summary the
      full view makes of it; both keep `Especies encontradas`. */
  lemma LampViews(t0: Table, t: Table)
    requires WellFormed(t) && LampUtils.OrdenarColumnasLamparas(t).Ok?
    requires Summarises(t, EstadoLamparaPrefix, "Estado de la lámpara", "/", " - ", "")
    requires CombinesOf(t, "Especies encontradas", t0, EspeciesPrefix, "/", ", ", "Sin evidencia")
    ensures var (main, all) := LampUtils.OrdenarColumnasLamparas(t).value;
      && Summarises(all, EstadoLamparaPrefix, "Estado de la lámpara", "/", " - ", "")
      && CombinesOf(main, "Estado de la lámpara", all, EstadoLamparaPrefix, "/", " - ", "")
      && CombinesOf(main, "Especies encontradas", t0, EspeciesPrefix, "/", ", ", "Sin evidencia")
      && CombinesOf(all, "Especies encontradas", t0, EspeciesPrefix, "/", ", ", "Sin evidencia")
  {
    var ml, al := LampUtils.MainColumns(t.names), LampUtils.AllColumns(t.names);
    LampUtils.OrdenarLamparasShape(t);
    LampAllSelect(t.names);
    assert "Estado de la lámpara" in LampUtils.Head && "Especies encontradas" in LampUtils.Tube;
    assert "Estado de la lámpara" in ml && "Estado de la lámpara" in al;
    assert "Especies encontradas" in ml && "Especies encontradas" in al;
    SummarisesProjected(t, al, EstadoLamparaPrefix, "Estado de la lámpara", "/", " - ", "");
    SummarisesCombines(Project(t, al).value, EstadoLamparaPrefix, "Estado de la lámpara", "/", " - ", "");
  }

  /** In the full view `Estado de la lámpara` sums up the lamp-state columns,
      and the main view has the same column; in both views `Especies
      encontradas` combines the raw species columns. */
  lemma LamparasSummaries(parse: Parser, t0: Table)
    requires WellFormed(t0) && Lamparas(parse, t0).Ok?
    ensures var (main, all) := Lamparas(parse, t0).value;
      && Summarises(all, EstadoLamparaPrefix, "Estado de la lámpara", "/", " - ", "")
      && CombinesOf(main, "Estado de la lámpara", all, EstadoLamparaPrefix, "/", " - ", "")
      && CombinesOf(main, "Especies encontradas", t0, EspeciesPrefix, "/", ", ", "Sin evidencia")
      && CombinesOf(all, "Especies encontradas", t0, EspeciesPrefix, "/", ", ", "Sin evidencia")
  {
    var t1, t2, t3, t4, t5 := LamparasChain(parse, t0);
    LampStagesEstado(t2, t3, t4, t5);
    LampStagesEspecies(parse, t0, t1, t2, t3, t4, t5);
    LampViews(t0, t5);
  }

  // ---------------------------------------------------------------------
  // procesar_roedores

  /** The stages of `procesar_roedores`, each one succeeding on the frame the
      one before left. */
  lemma RoedoresChain(parse: Parser, t0: Table) returns (t1: Table, t2: Table, t3: Table, t4: Table, t5: Table)
    requires WellFormed(t0) && Roedores(parse, t0).Ok?
    ensures WellFormed(t1) && WellFormed(t2) && WellFormed(t3) && WellFormed(t4) && WellFormed(t5)
    ensures t1.rows == t0.rows && t2.rows == t0.rows && t3.rows == t0.rows && t4.rows == t0.rows && t5.rows == t0.rows
    ensures Fechas(parse, t0) == Ok(t1) && Tecnicos(t1) == Ok(t2) && Estacion(t2) == Ok(t3)
    ensures Plaguicidas(t3, "Cual otro plaguicida aplicó?", "Plaguicida", "Plaguicida/Otro") == Ok(t4)
    ensures Otras(t4) == Ok(t5)
    ensures Roedores(parse, t0) == RoedUtils.OrdenarColumnasRoedores(t5)
  {
    t1 := Fechas(parse, t0).value;
    t2 := Tecnicos(t1).value;
    t3 := Estacion(t2).value;
    t4 := Plaguicidas(t3, "Cual otro plaguicida aplicó?", "Plaguicida", "Plaguicida/Otro").value;
    t5 := Otras(t4).value;
  }

  /** The columns some stage of `procesar_roedores` writes, renames or
      drops. */
  predicate RoedWrites(n: string)
  {
    || n in ["Fecha", "Fecha pandas", "Mes", "Técnicos", RoedUtils.Numero, RoedUtils.Medellin, RoedUtils.Rionegro,
             "Estado de la estación", "Cual otro plaguicida aplicó?", "Plaguicida/Otro", "Plaguicidas utilizados",
             "OBSERVACIONES", "Observaciones", "_index", "ID"]
    || TecnicosPrefix <= n || EstadoEstacionPrefix <= n || RoedUtils.PlaguicidaPrefix <= n
  }

  /** What `RoedWrites` rules out, name by name. */
  lemma RoedWritesParts(n: string)
    requires !RoedWrites(n)
    ensures n != "Fecha" && n != "Fecha pandas" && n != "Mes" && n != "Técnicos" && !(TecnicosPrefix <= n)
    ensures n != RoedUtils.Numero && n != RoedUtils.Medellin && n != RoedUtils.Rionegro
    ensures n != "Estado de la estación" && !(EstadoEstacionPrefix <= n)
    ensures n != "Cual otro plaguicida aplicó?" && n != "Plaguicida/Otro" && n != "Plaguicidas utilizados"
    ensures !("Plaguicida" + "/" <= n)
    ensures n != "OBSERVACIONES" && n != "Observaciones" && n != "_index" && n != "ID"
  {
    assert RoedUtils.PlaguicidaPrefix == "Plaguicida" + "/";
  }

  /** The station, pesticide and remaining stages keep what they do not
      write. */
  lemma RoedLateKeep(t2: Table, t3: Table, t4: Table, t5: Table, n: string)
    requires WellFormed(t2) && WellFormed(t3) && WellFormed(t4)
    requires Estacion(t2) == Ok(t3) && Otras(t4) == Ok(t5)
    requires Plaguicidas(t3, "Cual otro plaguicida aplicó?", "Plaguicida", "Plaguicida/Otro") == Ok(t4)
    requires n != RoedUtils.Numero && n != RoedUtils.Medellin && n != RoedUtils.Rionegro
    requires n != "Estado de la estación" && !(EstadoEstacionPrefix <= n)
    requires n != "Cual otro plaguicida aplicó?" && n != "Plaguicida/Otro" && n != "Plaguicidas utilizados"
    requires !("Plaguicida" + "/" <= n)
    requires n != "OBSERVACIONES" && n != "Observaciones" && n != "_index" && n != "ID"
    ensures SameCol(t2, t5, n)
  {
    EstacionFootprint(t2);
    PlaguicidasFootprint(t3, "Cual otro plaguicida aplicó?", "Plaguicida", "Plaguicida/Otro");
    OtrasFootprint(t4);
    assert Keeps(t2, Estacion(t2), n) && Keeps(t4, Otras(t4), n);
    assert Keeps(t3, Plaguicidas(t3, "Cual otro plaguicida aplicó?", "Plaguicida", "Plaguicida/Otro"), n);
  }

  /** A raw column that no rodent stage writes reaches both views with its
      raw cells. */
  lemma RoedoresKeeps(parse: Parser, t0: Table, n: string)
    requires WellFormed(t0) && Roedores(parse, t0).Ok? && !RoedWrites(n)
    ensures var v := Roedores(parse, t0).value;
      && (n in t0.cols && n in v.0.cols ==> v.0.cols[n] == t0.cols[n])
      && (n in t0.cols && n in v.1.cols ==> v.1.cols[n] == t0.cols[n])
  {
    var t1, t2, t3, t4, t5 := RoedoresChain(parse, t0);
    RoedWritesParts(n);
    LampEarlyKeep(parse, t0, t1, t2, n);
    RoedLateKeep(t2, t3, t4, t5, n);
  }

  lemma SedeNotRoed()
    ensures !RoedWrites("Sede")
  {
    var s := "Sede";
    assert s[0] == 'S' && s[1] == 'e';
  }

  /** `Sede`, which the report filters on, is in both views with the raw
      cells. */
  lemma RoedoresSede(parse: Parser, t0: Table)
    requires WellFormed(t0) && Roedores(parse, t0).Ok?
    ensures var v := Roedores(parse, t0).value;
      && "Sede" in v.0.cols && "Sede" in v.1.cols
      && ("Sede" in t0.cols ==> v.0.cols["Sede"] == t0.cols["Sede"] && v.1.cols["Sede"] == t0.cols["Sede"])
  {
    var t1, t2, t3, t4, t5 := RoedoresChain(parse, t0);
    RoedUtils.OrdenarRoedoresShape(t5);
    assert "Sede" in RoedUtils.Head;
    SedeNotRoed();
    RoedoresKeeps(parse, t0, "Sede");
  }

  /** In both views `Técnicos` is, row by row, the combination of the raw
      technician columns zero-filled. */
  lemma RoedoresTecnicos(parse: Parser, t0: Table)
    requires WellFormed(t0) && Roedores(parse, t0).Ok?
    ensures ZeroFill(t0, TecnicosPrefix).Ok?
    ensures var z, v := ZeroFill(t0, TecnicosPrefix).value, Roedores(parse, t0).value;
      && CombinesOf(v.0, "Técnicos", z, TecnicosPrefix, "/", ", ", "")
      && CombinesOf(v.1, "Técnicos", z, TecnicosPrefix, "/", ", ", "")
  {
    var t1, t2, t3, t4, t5 := RoedoresChain(parse, t0);
    TecnicosApart();
    FechasFamily(parse, t0, TecnicosPrefix);
    TecnicosRaw(t0, t1);
    RoedLateKeep(t2, t3, t4, t5, "Técnicos");
    RoedUtils.OrdenarRoedoresShape(t5);
    assert "Técnicos" in RoedUtils.Head;
  }

  /** The literal names the rodent stages meet, against the station-state
      and pesticide families. */
  lemma RoedFamiliesApart()
    ensures RoedUtils.EstadoPrefix == EstadoEstacionPrefix && RoedUtils.PlaguicidaPrefix == "Plaguicida" + "/"
    ensures ApartAt(EstadoEstacionPrefix, "Plaguicida" + "/", 0) && ApartAt(EstadoEstacionPrefix, TecnicosPrefix, 0)
    ensures ApartAt(RoedUtils.PlaguicidaPrefix, EstadoEstacionPrefix, 0)
    ensures !(EstadoEstacionPrefix <= "Cual otro plaguicida aplicó?") && !(EstadoEstacionPrefix <= "Plaguicida/Otro")
    ensures !(EstadoEstacionPrefix <= "Plaguicidas utilizados") && !(EstadoEstacionPrefix <= "Técnicos")
    ensures !(EstadoEstacionPrefix <= "Fecha") && !(EstadoEstacionPrefix <= "Fecha pandas") && !(EstadoEstacionPrefix <= "Mes")
    ensures !(RoedUtils.PlaguicidaPrefix <= "Plaguicidas utilizados")
    ensures forall p | p in [EstadoEstacionPrefix, RoedUtils.PlaguicidaPrefix] ::
      !(p <= "OBSERVACIONES") && !(p <= "Observaciones") && !(p <= "_index") && !(p <= "ID")
    ensures forall n | n in ["Estado de la estación", "Plaguicidas utilizados"] ::
      n != "OBSERVACIONES" && n != "Observaciones" && n != "_index" && n != "ID"
    ensures "Estado de la estación" != "Cual otro plaguicida aplicó?" && "Estado de la estación" != "Plaguicida/Otro"
    ensures !("Plaguicida" + "/" <= "Estado de la estación") && "Estado de la estación" != "Plaguicidas utilizados"
  {
    assert EstadoEstacionPrefix[0] == 'E' && RoedUtils.PlaguicidaPrefix[0] == 'P';
    assert RoedUtils.PlaguicidaPrefix[10] == '/';
  }

  /** Through the station stage the raw station-state family is untouched:
      a station-state column is in the raw frame exactly when it is there
      before the station stage, with the same cells. */
  lemma RoedEstadoFamily(parse: Parser, t0: Table, t1: Table, t2: Table)
    requires WellFormed(t0) && WellFormed(t1) && WellFormed(t2)
    requires Fechas(parse, t0) == Ok(t1) && Tecnicos(t1) == Ok(t2)
    ensures SameFamily(t0, t2, EstadoEstacionPrefix)
  {
    RoedFamiliesApart();
    FechasFamily(parse, t0, EstadoEstacionPrefix);
    TecnicosFamily(t1, EstadoEstacionPrefix, 0);
    SameFamilyTrans(t0, t1, t2, EstadoEstacionPrefix);
  }

  /** A family member present after a step that keeps the family was there
      before it. */
  lemma FamilyMember(t: Table, u: Table, p: string, n: string)
    requires WellFormed(t) && WellFormed(u) && SameFamily(t, u, p) && p <= n && n in u.cols
    ensures n in t.cols && t.cols[n] == u.cols[n]
  {
    assert n in Select(u.names, p);
  }

  /** After the station stage the bait-change count holds the raw consumed
      count plus the raw bait-change count. */
  lemma RoedStagesCambio(parse: Parser, t0: Table, t1: Table, t2: Table, t3: Table)
    requires WellFormed(t0) && WellFormed(t1) && WellFormed(t2) && WellFormed(t3)
    requires Fechas(parse, t0) == Ok(t1) && Tecnicos(t1) == Ok(t2) && Estacion(t2) == Ok(t3)
    ensures RoedUtils.Consumido in t0.cols && RoedUtils.Cambio in t0.cols && RoedUtils.Cambio in t3.cols
    ensures t3.cols[RoedUtils.Cambio] == MergedCounts(t0.cols[RoedUtils.Consumido], t0.cols[RoedUtils.Cambio])
  {
    RoedEstadoFamily(parse, t0, t1, t2);
    EstacionCambio(t2);
    CountsAreStates();
    FamilyMember(t0, t2, EstadoEstacionPrefix, RoedUtils.Consumido);
    FamilyMember(t0, t2, EstadoEstacionPrefix, RoedUtils.Cambio);
  }

  /** After the last rodent stage the bait-change count is still the merged
      one, and `Estado de la estación` sums up the station-state family. */
  lemma RoedStagesEstado(t2: Table, t3: Table, t4: Table, t5: Table)
    requires WellFormed(t2) && WellFormed(t3) && WellFormed(t4) && WellFormed(t5)
    requires t4.rows == t3.rows && t5.rows == t3.rows
    requires Estacion(t2) == Ok(t3) && Otras(t4) == Ok(t5)
    requires Plaguicidas(t3, "Cual otro plaguicida aplicó?", "Plaguicida", "Plaguicida/Otro") == Ok(t4)
    ensures Summarises(t5, EstadoEstacionPrefix, "Estado de la estación", "/", " - ", "")
    ensures SameFamily(t3, t5, EstadoEstacionPrefix)
  {
    RoedFamiliesApart();
    EstacionSummarises(t2);
    PlaguicidasFamily(t3, "Cual otro plaguicida aplicó?", "Plaguicida", "Plaguicida/Otro", EstadoEstacionPrefix, 0);
    PlaguicidasFootprint(t3, "Cual otro plaguicida aplicó?", "Plaguicida", "Plaguicida/Otro");
    assert Keeps(t3, Plaguicidas(t3, "Cual otro plaguicida aplicó?", "Plaguicida", "Plaguicida/Otro"), "Estado de la estación");
    SummarisesKept(t3, t4, EstadoEstacionPrefix, "Estado de la estación", "/", " - ", "");
    OtrasSummary(t4, t5, EstadoEstacionPrefix, "Estado de la estación", "/", " - ", "");
    SameFamilyTrans(t3, t4, t5, EstadoEstacionPrefix);
  }

  /** After the last rodent stage `Plaguicidas utilizados` still sums up the
      pesticide family. */
  lemma RoedStagesPlaguicidas(t3: Table, t4: Table, t5: Table)
    requires WellFormed(t3) && WellFormed(t4) && WellFormed(t5) && t5.rows == t4.rows
    requires Plaguicidas(t3, "Cual otro plaguicida aplicó?", "Plaguicida", "Plaguicida/Otro") == Ok(t4)
    requires Otras(t4) == Ok(t5)
    ensures Summarises(t5, RoedUtils.PlaguicidaPrefix, "Plaguicidas utilizados", "/", " - ", "")
  {
    RoedFamiliesApart();
    PlaguicidasSummarises(t3, "Cual otro plaguicida aplicó?", "Plaguicida", "Plaguicida/Otro");
    OtrasSummary(t4, t5, RoedUtils.PlaguicidaPrefix, "Plaguicidas utilizados", "/", " - ", "");
  }

  /** The main rodent view lists the station-state family as the frame does. */
  lemma RoedMainSelect(names: seq<string>)
    ensures Select(RoedUtils.MainColumns(names), EstadoEstacionPrefix) == Select(names, EstadoEstacionPrefix)
  {
    var a, b := RoedUtils.Lead + RoedUtils.Head, ["Plaguicidas utilizados"] + RoedUtils.Trail;
    RoedFamiliesApart();
    RoedUtils.FixedNames();
    assert forall x | x in a + b :: x in RoedUtils.Lead + RoedUtils.Head + (["Plaguicidas utilizados"] + RoedUtils.Trail);
    SelectOneFamily(a, RoedUtils.EstadoPrefix, names, b, EstadoEstacionPrefix);
    assert RoedUtils.MainColumns(names) == a + Select(names, RoedUtils.EstadoPrefix) + b;
  }

  /** The full rodent view lists the station-state and pesticide families as
      the frame does. */
  lemma RoedAllSelect(names: seq<string>)
    ensures Select(RoedUtils.AllColumns(names), EstadoEstacionPrefix) == Select(names, EstadoEstacionPrefix)
    ensures Select(RoedUtils.AllColumns(names), RoedUtils.PlaguicidaPrefix) == Select(names, RoedUtils.PlaguicidaPrefix)
  {
    var a, b, c := RoedUtils.Lead + ["Fecha pandas"] + RoedUtils.Head, ["Plaguicidas utilizados"], RoedUtils.Trail;
    var q, r := RoedUtils.EstadoPrefix, RoedUtils.PlaguicidaPrefix;
    RoedFamiliesApart();
    RoedUtils.FixedNames();
    assert forall x | x in a + b + c :: x in RoedUtils.Lead + ["Fecha pandas"] + RoedUtils.Head + ["Plaguicidas utilizados"] + RoedUtils.Trail;
    assert RoedUtils.AllColumns(names) == a + Select(names, q) + b + Select(names, r) + c;
    SelectTwoFamilies(a, q, b, r, c, names, q, 0);
    SelectTwoFamilies(a, q, b, r, c, names, r, 0);
  }

  /** Both views keep the station-state summary and the merged bait-change
      count; the full view keeps the pesticide summary, and the main view,
      which drops the pesticide family, the summary the full view makes of
      it. */
  lemma RoedViews(t: Table, cambio: seq<Cell>)
    requires WellFormed(t) && RoedUtils.OrdenarColumnasRoedores(t).Ok?
    requires Summarises(t, EstadoEstacionPrefix, "Estado de la estación", "/", " - ", "")
    requires Summarises(t, RoedUtils.PlaguicidaPrefix, "Plaguicidas utilizados", "/", " - ", "")
    requires RoedUtils.Cambio in t.cols && t.cols[RoedUtils.Cambio] == cambio
    ensures var (main, all) := RoedUtils.OrdenarColumnasRoedores(t).value;
      && Summarises(main, EstadoEstacionPrefix, "Estado de la estación", "/", " - ", "")
      && Summarises(all, EstadoEstacionPrefix, "Estado de la estación", "/", " - ", "")
      && Summarises(all, RoedUtils.PlaguicidaPrefix, "Plaguicidas utilizados", "/", " - ", "")
      && CombinesOf(main, "Plaguicidas utilizados", all, RoedUtils.PlaguicidaPrefix, "/", " - ", "")
      && RoedUtils.Cambio in main.cols && main.cols[RoedUtils.Cambio] == cambio
      && RoedUtils.Cambio in all.cols && all.cols[RoedUtils.Cambio] == cambio
  {
    var ml, al := RoedUtils.MainColumns(t.names), RoedUtils.AllColumns(t.names);
    RoedUtils.OrdenarRoedoresShape(t);
    RoedMainSelect(t.names);
    RoedAllSelect(t.names);
    CountsAreStates();
    assert RoedUtils.Cambio in Select(t.names, EstadoEstacionPrefix);
    assert "Estado de la estación" in RoedUtils.Head;
    assert "Estado de la estación" in ml && "Estado de la estación" in al;
    assert "Plaguicidas utilizados" in ml && "Plaguicidas utilizados" in al;
    assert RoedUtils.Cambio in ml && RoedUtils.Cambio in al;
    SummarisesProjected(t, ml, EstadoEstacionPrefix, "Estado de la estación", "/", " - ", "");
    SummarisesProjected(t, al, EstadoEstacionPrefix, "Estado de la estación", "/", " - ", "");
    SummarisesProjected(t, al, RoedUtils.PlaguicidaPrefix, "Plaguicidas utilizados", "/", " - ", "");
    SummarisesCombines(Project(t, al).value, RoedUtils.PlaguicidaPrefix, "Plaguicidas utilizados", "/", " - ", "");
  }

  /** In both views `Estado de la estación` sums up the station-state columns
      the view holds, and the bait-change count is the raw consumed count
      plus the raw bait-change count; in the full view `Plaguicidas
      utilizados` sums up the pesticide columns, and the main view has the
      same column. */
  lemma RoedoresSummaries(parse: Parser, t0: Table)
    requires WellFormed(t0) && Roedores(parse, t0).Ok?
    ensures RoedUtils.Consumido in t0.cols && RoedUtils.Cambio in t0.cols
    ensures var (main, all) := Roedores(parse, t0).value;
      var merged := MergedCounts(t0.cols[RoedUtils.Consumido], t0.cols[RoedUtils.Cambio]);
      && Summarises(main, EstadoEstacionPrefix, "Estado de la estación", "/", " - ", "")
      && Summarises(all, EstadoEstacionPrefix, "Estado de la estación", "/", " - ", "")
      && Summarises(all, RoedUtils.PlaguicidaPrefix, "Plaguicidas utilizados", "/", " - ", "")
      && CombinesOf(main, "Plaguicidas utilizados", all, RoedUtils.PlaguicidaPrefix, "/", " - ", "")
      && RoedUtils.Cambio in main.cols && main.cols[RoedUtils.Cambio] == merged
      && RoedUtils.Cambio in all.cols && all.cols[RoedUtils.Cambio] == merged
  {
    var t1, t2, t3, t4, t5 := RoedoresChain(parse, t0);
    RoedStagesCambio(parse, t0, t1, t2, t3);
    RoedStagesEstado(t2, t3, t4, t5);
    RoedStagesPlaguicidas(t3, t4, t5);
    CountsAreStates();
    assert t5.cols[RoedUtils.Cambio] == t3.cols[RoedUtils.Cambio];
    RoedViews(t5, MergedCounts(t0.cols[RoedUtils.Consumido], t0.cols[RoedUtils.Cambio]));
  }
}
