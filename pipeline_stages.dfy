/** What each stage of the normalisers writes, and what it leaves alone:
    the footprints of `Footprints` lifted from single steps to the stages
    of `Pipeline`, plus what the combining stages put in their new column. */
module PipelineStages {
  import opened Text
  import opened Tables
  import opened DateUtils
  import opened GeneralUtils
  import opened Footprints
  import opened Pipeline
  import Config
  import PrevUtils
  import LampUtils
  import RoedUtils

  // ---------------------------------------------------------------------
  // A combined column and its family

  /** The columns of `fam` hold the same cells on row `i` in both tables. */
  ghost predicate SameRow(t: Table, u: Table, fam: seq<string>, i: int)
  {
    forall n | n in fam :: n in t.cols && n in u.cols && 0 <= i < |t.cols[n]| && 0 <= i < |u.cols[n]|
      && t.cols[n][i] == u.cols[n][i]
  }

  /** The display names picked from a row depend only on that row's cells. */
  lemma {:induction false} PickedSame(t: Table, u: Table, fam: seq<string>, i: int, sep: string)
    requires SameRow(t, u, fam, i)
    ensures RowCells(t, fam, i) && RowCells(u, fam, i)
    ensures Picked(t, fam, i, sep) == Picked(u, fam, i, sep)
  {
    if |fam| > 0 {
      assert forall m | m in fam[1..] :: m in fam;
      PickedSame(t, u, fam[1..], i, sep);
    }
  }

  /** `col` holds, on every row, the combination of the columns starting
      with `p`: exactly what `crear_columna_combinada` writes, stated of the
      table that holds the result, so it can be carried through later
      steps. */
  ghost predicate Summarises(t: Table, p: string, col: string, sep: string, joinSep: string, empty: string)
  {
    && WellFormed(t) && col in t.cols
    && forall i | 0 <= i < t.rows :: t.cols[col][i] == CombinedCell(t, Select(t.names, p), i, sep, joinSep, empty)
  }

  /** Two tables that agree on a family combine it the same way. */
  lemma CombinedSame(t: Table, u: Table, p: string, i: int, sep: string, joinSep: string, empty: string)
    requires WellFormed(t) && WellFormed(u) && SameFamily(t, u, p) && 0 <= i < t.rows
    ensures RowCells(t, Select(t.names, p), i) && RowCells(u, Select(u.names, p), i)
    ensures CombinedCell(t, Select(t.names, p), i, sep, joinSep, empty)
         == CombinedCell(u, Select(u.names, p), i, sep, joinSep, empty)
  {
    PickedSame(t, u, Select(t.names, p), i, sep);
  }

  /** A successful combine summarises its family, which it leaves alone. */
  lemma CombineSummarises(t: Table, p: string, col: string, sep: string, joinSep: string, empty: string)
    requires WellFormed(t) && !(p <= col) && Combine(t, p, col, sep, joinSep, empty).Ok?
    ensures var u := Combine(t, p, col, sep, joinSep, empty).value;
      SameFamily(t, u, p) && Summarises(u, p, col, sep, joinSep, empty)
  {
    var u := Combine(t, p, col, sep, joinSep, empty).value;
    CombineRows(t, p, col, sep, joinSep, empty);
    CombineFamily(t, p, col, sep, joinSep, empty, p);
    forall i | 0 <= i < u.rows
      ensures u.cols[col][i] == CombinedCell(u, Select(u.names, p), i, sep, joinSep, empty)
    {
      CombinedSame(t, u, p, i, sep, joinSep, empty);
    }
  }

  /** A step that keeps the summary column and the family keeps the summary. */
  lemma SummarisesKept(t: Table, u: Table, p: string, col: string, sep: string, joinSep: string, empty: string)
    requires Summarises(t, p, col, sep, joinSep, empty)
    requires WellFormed(u) && u.rows == t.rows && SameFamily(t, u, p) && SameCol(t, u, col)
    ensures Summarises(u, p, col, sep, joinSep, empty)
  {
    forall i | 0 <= i < u.rows
      ensures u.cols[col][i] == CombinedCell(u, Select(u.names, p), i, sep, joinSep, empty)
    {
      CombinedSame(t, u, p, i, sep, joinSep, empty);
    }
  }

  /** A projection that lists the whole family in its order keeps it. */
  lemma ProjectFamily(t: Table, list: seq<string>, p: string)
    requires WellFormed(t) && Project(t, list).Ok? && Select(list, p) == Select(t.names, p)
    ensures SameFamily(t, Project(t, list).value, p)
  {
  }

  /** Zero-filling two tables that agree on the filled family: both raise
      or neither does, and the results agree on the family. */
  lemma ZeroFillSame(t: Table, u: Table, p: string)
    requires WellFormed(t) && WellFormed(u) && SameFamily(t, u, p)
    ensures ZeroFill(t, p).Ok? <==> ZeroFill(u, p).Ok?
    ensures ZeroFill(t, p).Ok? ==> SameFamily(ZeroFill(t, p).value, ZeroFill(u, p).value, p)
  {
    ZeroFillRaises(t, p);
    ZeroFillRaises(u, p);
    assert forall n | n in u.cols && p <= n :: n in Select(u.names, p);
    if ZeroFill(t, p).Ok? {
      ZeroFillSameCells(t, u, p);
    }
  }

  lemma ZeroFillSameCells(t: Table, u: Table, p: string)
    requires WellFormed(t) && WellFormed(u) && SameFamily(t, u, p)
    requires ZeroFill(t, p).Ok? && ZeroFill(u, p).Ok?
    ensures SameFamily(ZeroFill(t, p).value, ZeroFill(u, p).value, p)
  {
    ZeroFillIntegers(t, p);
    ZeroFillIntegers(u, p);
    var zt, zu := ZeroFill(t, p).value, ZeroFill(u, p).value;
    forall n | n in zt.cols && p <= n ensures n in zu.cols && zu.cols[n] == zt.cols[n] {
      ZeroFillAsColumn(t, p, n);
      ZeroFillAsColumn(u, p, n);
    }
  }

  // ---------------------------------------------------------------------
  // Fecha

  lemma FechasFootprint(parse: Parser, t: Table)
    requires WellFormed(t)
    ensures forall n | n != "Fecha" && n != "Fecha pandas" && n != "Mes" :: Keeps(t, Fechas(parse, t), n)
  {
    NuevaFechaFootprint(parse, t, "Fecha");
    var r1 := NuevaFecha(parse, t, "Fecha");
    if r1.Ok? {
      var r2 := Mes(r1.value, "Fecha pandas");
      assert Fechas(parse, t) == r2;
      MesFootprint(r1.value, "Fecha pandas");
      forall n | n != "Fecha" && n != "Fecha pandas" && n != "Mes" ensures Keeps(t, r2, n) {
        KeepsTrans(t, r1, r2, n);
      }
    }
  }

  lemma FechasFamily(parse: Parser, t: Table, p: string)
    requires WellFormed(t) && !(p <= "Fecha") && !(p <= "Fecha pandas") && !(p <= "Mes")
    ensures KeepsFamily(t, Fechas(parse, t), p)
  {
    NuevaFechaFamily(parse, t, "Fecha", p);
    NuevaFechaFootprint(parse, t, "Fecha");
    var r1 := NuevaFecha(parse, t, "Fecha");
    if r1.Ok? {
      MesFamily(r1.value, "Fecha pandas", p);
      var r2 := Mes(r1.value, "Fecha pandas");
      if r2.Ok? {
        SameFamilyTrans(t, r1.value, r2.value, p);
      }
    }
  }

  // ---------------------------------------------------------------------
  // Location (preventive)

  lemma UbicacionFootprint(t: Table)
    requires WellFormed(t)
    ensures forall n | n != "Área" && n != "Subárea" && n !in Config.SubareasPreventivos :: Keeps(t, Ubicacion(t), n)
  {
    AreaFootprint(t);
    var r1 := PrevUtils.Area(t);
    if r1.Ok? {
      RenameSubareasFootprint(r1.value, Config.SubareasPreventivos, PrevUtils.SubareaPrefix);
      var r2 := PrevUtils.RenameSubareas(r1.value, Config.SubareasPreventivos, PrevUtils.SubareaPrefix);
      if r2.Ok? {
        SubareaFootprint(r2.value);
        var r3 := Ok(PrevUtils.Subarea(r2.value));
        assert Ubicacion(t) == r3;
        forall n | n != "Área" && n != "Subárea" && n !in Config.SubareasPreventivos ensures Keeps(t, r3, n) {
          assert Keeps(t, r1, n) && Keeps(r1.value, r2, n) && Keeps(r2.value, r3, n);
        }
      }
    }
  }

  lemma UbicacionFamily(t: Table, p: string)
    requires WellFormed(t) && !(p <= "Área") && !(p <= "Subárea")
    requires forall x | x in Config.SubareasPreventivos :: !(p <= x) && !(p <= PrevUtils.SubareaPrefix + x)
    ensures KeepsFamily(t, Ubicacion(t), p)
  {
    AreaFamily(t, p);
    AreaFootprint(t);
    var r1 := PrevUtils.Area(t);
    if r1.Ok? {
      RenameSubareasFamily(r1.value, Config.SubareasPreventivos, PrevUtils.SubareaPrefix, p);
      RenameSubareasFootprint(r1.value, Config.SubareasPreventivos, PrevUtils.SubareaPrefix);
      var r2 := PrevUtils.RenameSubareas(r1.value, Config.SubareasPreventivos, PrevUtils.SubareaPrefix);
      if r2.Ok? {
        SubareaFamily(r2.value, p);
        SameFamilyTrans(t, r1.value, r2.value, p);
        SameFamilyTrans(t, r2.value, PrevUtils.Subarea(r2.value), p);
      }
    }
  }

  // ---------------------------------------------------------------------
  // Técnicos

  lemma TecnicosFootprint(t: Table)
    requires WellFormed(t)
    ensures forall n | n != "Técnicos" && !(TecnicosPrefix <= n) :: Keeps(t, Tecnicos(t), n)
  {
    ZeroFillFootprint(t, TecnicosPrefix);
    var r1 := ZeroFill(t, TecnicosPrefix);
    if r1.Ok? {
      var r2 := Combine(r1.value, TecnicosPrefix, "Técnicos", "/", ", ", "");
      assert Tecnicos(t) == r2;
      CombineFootprint(r1.value, TecnicosPrefix, "Técnicos", "/", ", ", "");
      forall n | n != "Técnicos" && !(TecnicosPrefix <= n) ensures Keeps(t, r2, n) {
        KeepsTrans(t, r1, r2, n);
      }
    }
  }

  lemma TecnicosFamily(t: Table, p: string, k: nat)
    requires WellFormed(t) && ApartAt(p, TecnicosPrefix, k) && !(p <= "Técnicos")
    ensures KeepsFamily(t, Tecnicos(t), p)
  {
    ZeroFillFamily(t, TecnicosPrefix, p, k);
    ZeroFillFootprint(t, TecnicosPrefix);
    var r1 := ZeroFill(t, TecnicosPrefix);
    if r1.Ok? {
      CombineFamily(r1.value, TecnicosPrefix, "Técnicos", "/", ", ", "", p);
      var r2 := Combine(r1.value, TecnicosPrefix, "Técnicos", "/", ", ", "");
      if r2.Ok? {
        SameFamilyTrans(t, r1.value, r2.value, p);
      }
    }
  }

  /** `Técnicos` combines the zero-filled technician columns, which the
      stage leaves as the fill made them. */
  lemma TecnicosSummarises(t: Table)
    requires WellFormed(t) && Tecnicos(t).Ok?
    ensures ZeroFill(t, TecnicosPrefix).Ok?
    ensures var u := Tecnicos(t).value;
      && SameFamily(ZeroFill(t, TecnicosPrefix).value, u, TecnicosPrefix)
      && Summarises(u, TecnicosPrefix, "Técnicos", "/", ", ", "")
  {
    ZeroFillFootprint(t, TecnicosPrefix);
    CombineSummarises(ZeroFill(t, TecnicosPrefix).value, TecnicosPrefix, "Técnicos", "/", ", ", "");
  }

  // ---------------------------------------------------------------------
  // Plagas (preventive)

  lemma PlagasFootprint(t: Table)
    requires WellFormed(t)
    ensures forall n | n != OtrasPlagas && n != CantidadOtrasPlagas && n != "Evidencia de plagas"
                       && !(HallazgosPrefix <= n) :: Keeps(t, Plagas(t), n)
  {
    if Plagas(t).Ok? {
      CantidadesFootprint(t, OtrasPlagas, CantidadOtrasPlagas, "Cantidad de hallazgos de", " ", true, true);
      var r1 := Cantidades(t, OtrasPlagas, CantidadOtrasPlagas, "Cantidad de hallazgos de", " ", true, true);
      ZeroFillFootprint(r1.value, HallazgosPrefix);
      var r2 := ZeroFill(r1.value, HallazgosPrefix);
      CombineFootprint(r2.value, HallazgosPrefix, "Evidencia de plagas", "hallazgos de ", ", ", "Sin evidencia");
      var r3 := Combine(r2.value, HallazgosPrefix, "Evidencia de plagas", "hallazgos de ", ", ", "Sin evidencia");
      assert Plagas(t) == r3;
      forall n | n != OtrasPlagas && n != CantidadOtrasPlagas && n != "Evidencia de plagas" && !(HallazgosPrefix <= n)
        ensures Keeps(t, r3, n)
      {
        assert Keeps(t, r1, n) && Keeps(r1.value, r2, n) && Keeps(r2.value, r3, n);
      }
    }
  }

  /** `Evidencia de plagas` combines every quantity column, the ones spread
      from the other-pest text included, since the spread comes first. */
  lemma PlagasSummarises(t: Table)
    requires WellFormed(t) && Plagas(t).Ok?
    ensures Summarises(Plagas(t).value, HallazgosPrefix, "Evidencia de plagas", "hallazgos de ", ", ", "Sin evidencia")
  {
    CantidadesFootprint(t, OtrasPlagas, CantidadOtrasPlagas, "Cantidad de hallazgos de", " ", true, true);
    var t1 := Cantidades(t, OtrasPlagas, CantidadOtrasPlagas, "Cantidad de hallazgos de", " ", true, true).value;
    ZeroFillFootprint(t1, HallazgosPrefix);
    var t2 := ZeroFill(t1, HallazgosPrefix).value;
    CombineSummarises(t2, HallazgosPrefix, "Evidencia de plagas", "hallazgos de ", ", ", "Sin evidencia");
  }

  // ---------------------------------------------------------------------
  // Plaguicidas

  lemma PlaguicidasFootprint(t: Table, src: string, prefix: string, otro: string)
    requires WellFormed(t)
    ensures forall n | n != src && n != otro && !(prefix + "/" <= n) && n != "Plaguicidas utilizados" ::
      Keeps(t, Plaguicidas(t, src, prefix, otro), n)
  {
    if Plaguicidas(t, src, prefix, otro).Ok? {
      DummiesFootprint(t, src, prefix, "/", true, [otro]);
      var r1 := Dummies(t, src, prefix, "/", true, [otro]);
      ZeroFillFootprint(r1.value, prefix + "/");
      var r2 := ZeroFill(r1.value, prefix + "/");
      CombineFootprint(r2.value, prefix + "/", "Plaguicidas utilizados", "/", " - ", "");
      var r3 := Combine(r2.value, prefix + "/", "Plaguicidas utilizados", "/", " - ", "");
      assert Plaguicidas(t, src, prefix, otro) == r3;
      forall n | n != src && n != otro && !(prefix + "/" <= n) && n != "Plaguicidas utilizados"
        ensures Keeps(t, r3, n)
      {
        assert Keeps(t, r1, n) && Keeps(r1.value, r2, n) && Keeps(r2.value, r3, n);
      }
    }
  }

  lemma PlaguicidasFamily(t: Table, src: string, prefix: string, otro: string, p: string, k: nat)
    requires WellFormed(t) && ApartAt(p, prefix + "/", k)
    requires !(p <= src) && !(p <= otro) && !(p <= "Plaguicidas utilizados")
    ensures KeepsFamily(t, Plaguicidas(t, src, prefix, otro), p)
  {
    DummiesFamily(t, src, prefix, "/", true, [otro], p, k);
    DummiesFootprint(t, src, prefix, "/", true, [otro]);
    var r1 := Dummies(t, src, prefix, "/", true, [otro]);
    if r1.Ok? {
      ZeroFillFamily(r1.value, prefix + "/", p, k);
      ZeroFillFootprint(r1.value, prefix + "/");
      var r2 := ZeroFill(r1.value, prefix + "/");
      if r2.Ok? {
        CombineFamily(r2.value, prefix + "/", "Plaguicidas utilizados", "/", " - ", "", p);
        SameFamilyTrans(t, r1.value, r2.value, p);
        var r3 := Combine(r2.value, prefix + "/", "Plaguicidas utilizados", "/", " - ", "");
        if r3.Ok? {
          SameFamilyTrans(t, r2.value, r3.value, p);
        }
      }
    }
  }

  /** `Plaguicidas utilizados` combines the zero-filled pesticide columns,
      the dummies of the other-pesticide text included. */
  lemma PlaguicidasSummarises(t: Table, src: string, prefix: string, otro: string)
    requires WellFormed(t) && Plaguicidas(t, src, prefix, otro).Ok? && !(prefix + "/" <= "Plaguicidas utilizados")
    ensures Summarises(Plaguicidas(t, src, prefix, otro).value, prefix + "/", "Plaguicidas utilizados", "/", " - ", "")
  {
    DummiesFootprint(t, src, prefix, "/", true, [otro]);
    var t1 := Dummies(t, src, prefix, "/", true, [otro]).value;
    ZeroFillFootprint(t1, prefix + "/");
    var t2 := ZeroFill(t1, prefix + "/").value;
    CombineSummarises(t2, prefix + "/", "Plaguicidas utilizados", "/", " - ", "");
  }

  // ---------------------------------------------------------------------
  // Other columns

  lemma OtrasPrevFootprint(t: Table)
    requires WellFormed(t)
    ensures forall n | n != "Servicio verificado por" && n != "Acompañante" && n != "OBSERVACIONES"
                       && n != "Observaciones" && n != "_index" && n != "ID" :: Keeps(t, OtrasPrev(t), n)
  {
    if OtrasPrev(t).Ok? {
      RenameIfPresentFootprint(t, "Servicio verificado por", "Acompañante");
      var r1 := Acompanante(t);
      ObservacionesFootprint(r1.value);
      var r2 := Observaciones(r1.value);
      RenameIfPresentFootprint(r2.value, "_index", "ID");
      var r3 := RenombrarId(r2.value);
      assert OtrasPrev(t) == r3;
      forall n | n != "Servicio verificado por" && n != "Acompañante" && n != "OBSERVACIONES"
                 && n != "Observaciones" && n != "_index" && n != "ID"
        ensures Keeps(t, r3, n)
      {
        assert Keeps(t, r1, n) && Keeps(r1.value, r2, n) && Keeps(r2.value, r3, n);
      }
    }
  }

  lemma OtrasPrevFamily(t: Table, p: string)
    requires WellFormed(t)
    requires !(p <= "Servicio verificado por") && !(p <= "Acompañante") && !(p <= "OBSERVACIONES")
    requires !(p <= "Observaciones") && !(p <= "_index") && !(p <= "ID")
    ensures KeepsFamily(t, OtrasPrev(t), p)
  {
    RenameIfPresentFamily(t, "Servicio verificado por", "Acompañante", p);
    RenameIfPresentFootprint(t, "Servicio verificado por", "Acompañante");
    var r1 := Acompanante(t);
    if r1.Ok? {
      ObservacionesFamily(r1.value, p);
      ObservacionesFootprint(r1.value);
      var r2 := Observaciones(r1.value);
      if r2.Ok? {
        RenameIfPresentFamily(r2.value, "_index", "ID", p);
        SameFamilyTrans(t, r1.value, r2.value, p);
        var r3 := RenombrarId(r2.value);
        if r3.Ok? {
          SameFamilyTrans(t, r2.value, r3.value, p);
        }
      }
    }
  }

  lemma OtrasFootprint(t: Table)
    requires WellFormed(t)
    ensures forall n | n != "OBSERVACIONES" && n != "Observaciones" && n != "_index" && n != "ID" ::
      Keeps(t, Otras(t), n)
  {
    RenameIfPresentFootprint(t, "_index", "ID");
    var r1 := RenombrarId(t);
    if r1.Ok? {
      var r2 := Observaciones(r1.value);
      assert Otras(t) == r2;
      ObservacionesFootprint(r1.value);
      forall n | n != "OBSERVACIONES" && n != "Observaciones" && n != "_index" && n != "ID"
        ensures Keeps(t, r2, n)
      {
        KeepsTrans(t, r1, r2, n);
      }
    }
  }

  lemma OtrasFamily(t: Table, p: string)
    requires WellFormed(t)
    requires !(p <= "OBSERVACIONES") && !(p <= "Observaciones") && !(p <= "_index") && !(p <= "ID")
    ensures KeepsFamily(t, Otras(t), p)
  {
    RenameIfPresentFamily(t, "_index", "ID", p);
    RenameIfPresentFootprint(t, "_index", "ID");
    var r1 := RenombrarId(t);
    if r1.Ok? {
      ObservacionesFamily(r1.value, p);
      var r2 := Observaciones(r1.value);
      if r2.Ok? {
        SameFamilyTrans(t, r1.value, r2.value, p);
      }
    }
  }

  // ---------------------------------------------------------------------
  // Lámpara and Especies (lamps)

  lemma LamparaStageFootprint(t: Table)
    requires WellFormed(t)
    ensures forall n | n != "Lámpara" && n != LampUtils.Rionegro && n != LampUtils.Medellin
                       && n != "Estado de la lámpara" && !(EstadoLamparaPrefix <= n) :: Keeps(t, Lampara(t), n)
  {
    if Lampara(t).Ok? {
      LamparaFootprint(t);
      var r1 := LampUtils.Lampara(t);
      ZeroFillFootprint(r1.value, EstadoLamparaPrefix);
      var r2 := ZeroFill(r1.value, EstadoLamparaPrefix);
      CombineFootprint(r2.value, EstadoLamparaPrefix, "Estado de la lámpara", "/", " - ", "");
      var r3 := Combine(r2.value, EstadoLamparaPrefix, "Estado de la lámpara", "/", " - ", "");
      assert Lampara(t) == r3;
      forall n | n != "Lámpara" && n != LampUtils.Rionegro && n != LampUtils.Medellin
                 && n != "Estado de la lámpara" && !(EstadoLamparaPrefix <= n)
        ensures Keeps(t, r3, n)
      {
        assert Keeps(t, r1, n) && Keeps(r1.value, r2, n) && Keeps(r2.value, r3, n);
      }
    }
  }

  lemma LamparaStageFamily(t: Table, p: string, k: nat)
    requires WellFormed(t) && ApartAt(p, EstadoLamparaPrefix, k)
    requires !(p <= "Lámpara") && !(p <= LampUtils.Rionegro) && !(p <= LampUtils.Medellin)
    requires !(p <= "Estado de la lámpara")
    ensures KeepsFamily(t, Lampara(t), p)
  {
    LamparaFootprint(t);
    var r1 := LampUtils.Lampara(t);
    if r1.Ok? {
      ZeroFillFootprint(r1.value, EstadoLamparaPrefix);
      var r2 := ZeroFill(r1.value, EstadoLamparaPrefix);
      if r2.Ok? {
        var r3 := Combine(r2.value, EstadoLamparaPrefix, "Estado de la lámpara", "/", " - ", "");
        assert Lampara(t) == r3;
        if r3.Ok? {
          LamparaFamily(t, p);
          ZeroFillFamily(r1.value, EstadoLamparaPrefix, p, k);
          CombineFamily(r2.value, EstadoLamparaPrefix, "Estado de la lámpara", "/", " - ", "", p);
          SameFamilyTrans(t, r1.value, r2.value, p);
          SameFamilyTrans(t, r2.value, r3.value, p);
        }
      }
    }
  }

  /** `Estado de la lámpara` combines the zero-filled lamp-state columns. */
  lemma LamparaStageSummarises(t: Table)
    requires WellFormed(t) && Lampara(t).Ok?
    ensures Summarises(Lampara(t).value, EstadoLamparaPrefix, "Estado de la lámpara", "/", " - ", "")
  {
    LamparaFootprint(t);
    var t1 := LampUtils.Lampara(t).value;
    ZeroFillFootprint(t1, EstadoLamparaPrefix);
    var t2 := ZeroFill(t1, EstadoLamparaPrefix).value;
    CombineSummarises(t2, EstadoLamparaPrefix, "Estado de la lámpara", "/", " - ", "");
  }

  lemma EspeciesFootprint(t: Table)
    requires WellFormed(t)
    ensures forall n | n != OtraEspecie && n != CantidadOtraEspecie && n != "Especies encontradas"
                       && !("Cantidad de " <= n) :: Keeps(t, Especies(t), n)
  {
    if Especies(t).Ok? {
      ZeroFillFootprint(t, "Cantidad de ");
      var r1 := ZeroFill(t, "Cantidad de ");
      CantidadesFootprint(r1.value, OtraEspecie, CantidadOtraEspecie, "Cantidad de", " ", true, true);
      var r2 := Cantidades(r1.value, OtraEspecie, CantidadOtraEspecie, "Cantidad de", " ", true, true);
      CombineFootprint(r2.value, EspeciesPrefix, "Especies encontradas", "/", ", ", "Sin evidencia");
      var r3 := Combine(r2.value, EspeciesPrefix, "Especies encontradas", "/", ", ", "Sin evidencia");
      assert Especies(t) == r3;
      forall n | n != OtraEspecie && n != CantidadOtraEspecie && n != "Especies encontradas" && !("Cantidad de " <= n)
        ensures Keeps(t, r3, n)
      {
        assert Keeps(t, r1, n) && Keeps(r1.value, r2, n) && Keeps(r2.value, r3, n);
      }
    }
  }

  lemma EspeciesFamily(t: Table, p: string, k: nat)
    requires WellFormed(t) && ApartAt(p, "Cantidad de ", k)
    requires !(p <= OtraEspecie) && !(p <= CantidadOtraEspecie) && !(p <= "Especies encontradas")
    ensures KeepsFamily(t, Especies(t), p)
  {
    ZeroFillFamily(t, "Cantidad de ", p, k);
    ZeroFillFootprint(t, "Cantidad de ");
    var r1 := ZeroFill(t, "Cantidad de ");
    if r1.Ok? {
      assert "Cantidad de" + " " == "Cantidad de ";
      CantidadesFamily(r1.value, OtraEspecie, CantidadOtraEspecie, "Cantidad de", " ", true, true, p, k);
      CantidadesFootprint(r1.value, OtraEspecie, CantidadOtraEspecie, "Cantidad de", " ", true, true);
      var r2 := Cantidades(r1.value, OtraEspecie, CantidadOtraEspecie, "Cantidad de", " ", true, true);
      if r2.Ok? {
        CombineFamily(r2.value, EspeciesPrefix, "Especies encontradas", "/", ", ", "Sin evidencia", p);
        SameFamilyTrans(t, r1.value, r2.value, p);
        var r3 := Combine(r2.value, EspeciesPrefix, "Especies encontradas", "/", ", ", "Sin evidencia");
        if r3.Ok? {
          SameFamilyTrans(t, r2.value, r3.value, p);
        }
      }
    }
  }

  /** `Especies encontradas` combines the species columns as the stage
      found them: neither the count fill nor the spread touches them. */
  lemma EspeciesSummarises(t: Table)
    requires WellFormed(t) && Especies(t).Ok?
    ensures var u := Especies(t).value;
      SameFamily(t, u, EspeciesPrefix) && Summarises(u, EspeciesPrefix, "Especies encontradas", "/", ", ", "Sin evidencia")
  {
    ZeroFillFootprint(t, "Cantidad de ");
    ZeroFillFamily(t, "Cantidad de ", EspeciesPrefix, 0);
    var t1 := ZeroFill(t, "Cantidad de ").value;
    CantidadesFootprint(t1, OtraEspecie, CantidadOtraEspecie, "Cantidad de", " ", true, true);
    CantidadesFamily(t1, OtraEspecie, CantidadOtraEspecie, "Cantidad de", " ", true, true, EspeciesPrefix, 0);
    var t2 := Cantidades(t1, OtraEspecie, CantidadOtraEspecie, "Cantidad de", " ", true, true).value;
    CombineSummarises(t2, EspeciesPrefix, "Especies encontradas", "/", ", ", "Sin evidencia");
    SameFamilyTrans(t, t1, t2, EspeciesPrefix);
    SameFamilyTrans(t, t2, Especies(t).value, EspeciesPrefix);
  }

  // ---------------------------------------------------------------------
  // Estación (rodents)

  lemma EstacionFootprint(t: Table)
    requires WellFormed(t)
    ensures forall n | n != RoedUtils.Numero && n != RoedUtils.Medellin && n != RoedUtils.Rionegro
                       && n != "Estado de la estación" && !(EstadoEstacionPrefix <= n) :: Keeps(t, Estacion(t), n)
  {
    if Estacion(t).Ok? {
      EstacionNames();
      EstacionChain(t);
      var r1 := RoedUtils.NumEstacion(t);
      var r2 := ZeroFill(r1.value, EstadoEstacionPrefix);
      var r3 := RoedUtils.UnirConsumido(r2.value);
      var r4 := Combine(r3.value, EstadoEstacionPrefix, "Estado de la estación", "/", " - ", "");
      NumEstacionFootprint(t);
      ZeroFillFootprint(r1.value, EstadoEstacionPrefix);
      UnirConsumidoFootprint(r2.value);
      CombineFootprint(r3.value, EstadoEstacionPrefix, "Estado de la estación", "/", " - ", "");
      forall n | n != RoedUtils.Numero && n != RoedUtils.Medellin && n != RoedUtils.Rionegro
                 && n != "Estado de la estación" && !(EstadoEstacionPrefix <= n)
        ensures Keeps(t, r4, n)
      {
        assert n != RoedUtils.Consumido && n != RoedUtils.Cambio;
        KeepsTrans(t, r1, r2, n);
        KeepsTrans(t, r2, r3, n);
        KeepsTrans(t, r3, r4, n);
      }
    }
  }

  /** The rodent station stage, step by step: each step succeeded and the
      stage's result is the last one's. */
  lemma EstacionChain(t: Table)
    requires WellFormed(t) && Estacion(t).Ok?
    ensures RoedUtils.NumEstacion(t).Ok?
    ensures var t1 := RoedUtils.NumEstacion(t).value;
      && WellFormed(t1) && ZeroFill(t1, EstadoEstacionPrefix).Ok?
      && var t2 := ZeroFill(t1, EstadoEstacionPrefix).value;
      && WellFormed(t2) && RoedUtils.UnirConsumido(t2).Ok?
      && var t3 := RoedUtils.UnirConsumido(t2).value;
      && WellFormed(t3)
      && Estacion(t) == Combine(t3, EstadoEstacionPrefix, "Estado de la estación", "/", " - ", "")
  {
  }

  /** A count read the way the fill reads it: a gap is 0. */
  function Filled(c: Cell): int
  {
    match ZeroCell(c)
    case Some(v) => v
    case None => 0
  }

  /** `Estado de la estación` combines the station-state columns left after
      the merge: `Consumido` is gone, and `Cambio de cebo por consumo` is
      still there. */
  lemma EstacionSummarises(t: Table)
    requires WellFormed(t) && Estacion(t).Ok?
    ensures var u := Estacion(t).value;
      && Summarises(u, EstadoEstacionPrefix, "Estado de la estación", "/", " - ", "")
      && RoedUtils.Consumido !in u.cols && RoedUtils.Cambio in u.cols
  {
    var E := EstadoEstacionPrefix;
    NumEstacionFootprint(t);
    var r1 := RoedUtils.NumEstacion(t);
    ZeroFillFootprint(r1.value, E);
    var r2 := ZeroFill(r1.value, E);
    RoedUtils.UnirConsumidoEffect(r2.value);
    var r3 := RoedUtils.UnirConsumido(r2.value);
    var r4 := Combine(r3.value, E, "Estado de la estación", "/", " - ", "");
    assert Estacion(t) == r4;
    CombineSummarises(r3.value, E, "Estado de la estación", "/", " - ", "");
    CombineRows(r3.value, E, "Estado de la estación", "/", " - ", "");
  }

  /** Both counts the merge reads are station-state columns. */
  lemma CountsAreStates()
    ensures EstadoEstacionPrefix <= RoedUtils.Consumido && EstadoEstacionPrefix <= RoedUtils.Cambio
  {
    assert RoedUtils.Consumido == EstadoEstacionPrefix + "Consumido";
    PrefixOfConcat(EstadoEstacionPrefix, "Consumido");
    assert RoedUtils.Cambio == EstadoEstacionPrefix + "Cambio de cebo por consumo";
    PrefixOfConcat(EstadoEstacionPrefix, "Cambio de cebo por consumo");
  }

  /** The station numbers are not station-state columns. */
  lemma NumbersAreNotStates()
    ensures !(EstadoEstacionPrefix <= RoedUtils.Numero) && !(EstadoEstacionPrefix <= RoedUtils.Medellin)
    ensures !(EstadoEstacionPrefix <= RoedUtils.Rionegro)
  {
    assert EstadoEstacionPrefix[0] == 'E';
    assert RoedUtils.Numero[0] == 'N' && RoedUtils.Medellin[0] == 'N' && RoedUtils.Rionegro[0] == 'N';
  }

  lemma EstacionNames()
    ensures EstadoEstacionPrefix <= RoedUtils.Consumido && EstadoEstacionPrefix <= RoedUtils.Cambio
    ensures !(EstadoEstacionPrefix <= RoedUtils.Numero) && !(EstadoEstacionPrefix <= RoedUtils.Medellin)
    ensures !(EstadoEstacionPrefix <= RoedUtils.Rionegro)
  {
    CountsAreStates();
    NumbersAreNotStates();
  }

  /** One cell of a filled column: the cell it was, read as a number. */
  lemma ZeroFillCell(t: Table, p: string, n: string, i: int)
    requires WellFormed(t) && ZeroFill(t, p).Ok? && n in t.cols && p <= n && 0 <= i < t.rows
    ensures ZeroCell(t.cols[n][i]).Some?
    ensures n in ZeroFill(t, p).value.cols && i < |ZeroFill(t, p).value.cols[n]|
    ensures ZeroFill(t, p).value.cols[n][i] == Int(Filled(t.cols[n][i]))
  {
    ZeroFillEffect(t, p);
  }

  /** The bait-change counts after the merge: each row's two counts added,
      a gap read as 0. */
  function MergedCounts(consumido: seq<Cell>, cambio: seq<Cell>): (r: seq<Cell>)
    requires |consumido| == |cambio|
    ensures |r| == |consumido|
    ensures forall i | 0 <= i < |r| :: r[i] == Int(Filled(consumido[i]) + Filled(cambio[i]))
  {
    seq(|consumido|, i requires 0 <= i < |consumido| => Int(Filled(consumido[i]) + Filled(cambio[i])))
  }

  /** Filling the station states and then merging: both counts were there,
      and the merged count is their sum with gaps read as 0. */
  lemma FillThenMerge(t: Table)
    requires WellFormed(t) && ZeroFill(t, EstadoEstacionPrefix).Ok?
    requires RoedUtils.UnirConsumido(ZeroFill(t, EstadoEstacionPrefix).value).Ok?
    ensures var u := RoedUtils.UnirConsumido(ZeroFill(t, EstadoEstacionPrefix).value).value;
      && RoedUtils.Consumido in t.cols && RoedUtils.Cambio in t.cols && RoedUtils.Cambio in u.cols
      && u.rows == t.rows
      && u.cols[RoedUtils.Cambio] == MergedCounts(t.cols[RoedUtils.Consumido], t.cols[RoedUtils.Cambio])
  {
    var E := EstadoEstacionPrefix;
    CountsAreStates();
    var z := ZeroFill(t, E).value;
    assert WellFormed(z) && z.rows == t.rows && z.cols.Keys == t.cols.Keys by { ZeroFillFootprint(t, E); }
    assert RoedUtils.Consumido in z.cols && RoedUtils.Cambio in z.cols by { RoedUtils.UnirConsumidoRaises(z); }
    assert z.rows == RoedUtils.UnirConsumido(z).value.rows by { RoedUtils.UnirConsumidoEffect(z); }
    ZeroFillColumn(t, E, RoedUtils.Consumido);
    ZeroFillColumn(t, E, RoedUtils.Cambio);
    MergedColumn(z, t.cols[RoedUtils.Consumido], t.cols[RoedUtils.Cambio]);
  }

  /** Every cell of a filled column is the count the fill reads. */
  lemma ZeroFillColumn(t: Table, p: string, n: string)
    requires WellFormed(t) && ZeroFill(t, p).Ok? && n in t.cols && p <= n
    ensures n in ZeroFill(t, p).value.cols && |ZeroFill(t, p).value.cols[n]| == t.rows
    ensures forall i | 0 <= i < t.rows :: ZeroFill(t, p).value.cols[n][i] == Int(Filled(t.cols[n][i]))
  {
    forall i | 0 <= i < t.rows ensures ZeroFill(t, p).value.cols[n][i] == Int(Filled(t.cols[n][i])) {
      ZeroFillCell(t, p, n, i);
    }
    ZeroFillFootprint(t, p);
  }

  /** Merging columns whose cells are the counts read from `con` and `cam`
      gives their row-wise sums. */
  lemma MergedColumn(z: Table, con: seq<Cell>, cam: seq<Cell>)
    requires WellFormed(z) && RoedUtils.UnirConsumido(z).Ok?
    requires RoedUtils.Consumido in z.cols && RoedUtils.Cambio in z.cols
    requires |con| == z.rows && |cam| == z.rows
    requires forall i | 0 <= i < z.rows :: z.cols[RoedUtils.Consumido][i] == Int(Filled(con[i]))
    requires forall i | 0 <= i < z.rows :: z.cols[RoedUtils.Cambio][i] == Int(Filled(cam[i]))
    ensures var u := RoedUtils.UnirConsumido(z).value;
      RoedUtils.Cambio in u.cols && u.cols[RoedUtils.Cambio] == MergedCounts(con, cam)
  {
    RoedUtils.UnirConsumidoSum(z);
    var c := RoedUtils.UnirConsumido(z).value.cols[RoedUtils.Cambio];
    var m := MergedCounts(con, cam);
    forall i | 0 <= i < z.rows ensures c[i] == m[i] {
      MergedCell(z, i, Filled(con[i]), Filled(cam[i]));
    }
  }

  /** On a row where both counts are the integers `x` and `y` the merge
      writes `x + y`. */
  lemma MergedCell(z: Table, i: int, x: int, y: int)
    requires WellFormed(z) && RoedUtils.UnirConsumido(z).Ok? && 0 <= i < z.rows
    requires RoedUtils.Consumido in z.cols && RoedUtils.Cambio in z.cols
    requires z.cols[RoedUtils.Consumido][i] == Int(x) && z.cols[RoedUtils.Cambio][i] == Int(y)
    ensures var u := RoedUtils.UnirConsumido(z).value;
      RoedUtils.Cambio in u.cols && i < |u.cols[RoedUtils.Cambio]| && u.cols[RoedUtils.Cambio][i] == Int(x + y)
  {
    RoedUtils.UnirConsumidoSum(z);
  }

  /** In the rodent table the bait-change count is the raw consumed count
      plus the raw bait-change count, gaps read as 0: the merge runs after
      the fill. */
  lemma EstacionCambio(t: Table)
    requires WellFormed(t) && Estacion(t).Ok?
    ensures var u := Estacion(t).value;
      && RoedUtils.Consumido in t.cols && RoedUtils.Cambio in t.cols && RoedUtils.Cambio in u.cols
      && u.cols[RoedUtils.Cambio] == MergedCounts(t.cols[RoedUtils.Consumido], t.cols[RoedUtils.Cambio])
  {
    var E := EstadoEstacionPrefix;
    EstacionNames();
    EstacionChain(t);
    var r1 := RoedUtils.NumEstacion(t);
    var r2 := ZeroFill(r1.value, E);
    var r3 := RoedUtils.UnirConsumido(r2.value);
    FillThenMerge(r1.value);
    CombineFootprint(r3.value, E, "Estado de la estación", "/", " - ", "");
    var r4 := Combine(r3.value, E, "Estado de la estación", "/", " - ", "");
    RoedUtils.NumEstacionEffect(t);
    assert RoedUtils.Consumido in t.cols && RoedUtils.Cambio in t.cols;
    assert r1.value.cols[RoedUtils.Consumido] == t.cols[RoedUtils.Consumido];
    assert r1.value.cols[RoedUtils.Cambio] == t.cols[RoedUtils.Cambio];
    assert Keeps(r3.value, r4, RoedUtils.Cambio);
  }


}
