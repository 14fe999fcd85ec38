/** `data_preprocessing/pipeline.py`: the three normalisers. Each copies the
    raw frame it is given, runs a fixed chain of steps over the copy (any
    step may raise, which ends the normaliser) and returns the main and the
    full view of the result. The chains are grouped here as the source's
    comments group them: dates, location, technicians, and so on. */
module Pipeline {
  import opened Text
  import opened Tables
  import opened DateUtils
  import opened GeneralUtils
  import opened Footprints
  import Config
  import PrevUtils
  import LampUtils
  import RoedUtils

  // ---------------------------------------------------------------------
  // The three renames

  /** `df.rename(columns={a: b}, inplace=True)` guarded by `if a in
      df.columns`. A target that is already a column is outside the model
      and reported as a duplicate. */
  function RenameIfPresent(t: Table, a: string, b: string): Result<Table>
    requires WellFormed(t)
  {
    if a !in t.cols then Ok(t)
    else if b in t.cols then Err(DuplicateName(b))
    else Ok(Rename(t, a, b))
  }

  method RenameColumnIfPresent(f: Frame, a: string, b: string) returns (o: Outcome)
    requires f.Valid()
    modifies f
    ensures f.Valid()
    ensures Agrees(o, RenameIfPresent(old(f.Value()), a, b), f.Value())
  {
    if a in f.cols {
      if b in f.cols {
        return Fail(DuplicateName(b));
      }
      f.RenameColumn(a, b);
    }
    o := Pass;
  }

  /** Absent: nothing changes. Present: the column keeps its place and its
      cells under the new name, and the old name is gone; it raises exactly
      when both names are columns. */
  lemma RenameIfPresentEffect(t: Table, a: string, b: string)
    requires WellFormed(t) && a != b
    ensures a !in t.cols ==> RenameIfPresent(t, a, b) == Ok(t)
    ensures RenameIfPresent(t, a, b).Err? <==> a in t.cols && b in t.cols
    ensures a in t.cols && RenameIfPresent(t, a, b).Ok? ==>
      var u := RenameIfPresent(t, a, b).value;
      && u.names == ReplaceName(t.names, a, b)
      && a !in u.cols && b in u.cols && u.cols[b] == t.cols[a]
  {
  }

  lemma RenameIfPresentFootprint(t: Table, a: string, b: string)
    requires WellFormed(t)
    ensures Shaped(t, RenameIfPresent(t, a, b))
    ensures forall n | n != a && n != b :: Keeps(t, RenameIfPresent(t, a, b), n)
  {
  }

  lemma RenameIfPresentFamily(t: Table, a: string, b: string, p: string)
    requires WellFormed(t) && !(p <= a) && !(p <= b)
    ensures KeepsFamily(t, RenameIfPresent(t, a, b), p)
  {
    if a in t.cols && b !in t.cols {
      RenameFamily(t, a, b, p);
    }
  }

  /** `agregar_acompanante`: `Servicio verificado por` becomes `Acompañante` when it is there. */
  function Acompanante(t: Table): (r: Result<Table>)
    requires WellFormed(t)
    ensures "Servicio verificado por" !in t.cols ==> r == Ok(t)
    ensures r.Err? <==> "Servicio verificado por" in t.cols && "Acompañante" in t.cols
    ensures "Servicio verificado por" in t.cols && r.Ok? ==>
      && r.value.names == ReplaceName(t.names, "Servicio verificado por", "Acompañante")
      && "Servicio verificado por" !in r.value.cols && "Acompañante" in r.value.cols && r.value.cols["Acompañante"] == t.cols["Servicio verificado por"]
  {
    RenameIfPresentEffect(t, "Servicio verificado por", "Acompañante");
    RenameIfPresent(t, "Servicio verificado por", "Acompañante")
  }

  /** `renombrar_id`: `_index` becomes `ID` when it is there. */
  function RenombrarId(t: Table): (r: Result<Table>)
    requires WellFormed(t)
    ensures "_index" !in t.cols ==> r == Ok(t)
    ensures r.Err? <==> "_index" in t.cols && "ID" in t.cols
    ensures "_index" in t.cols && r.Ok? ==>
      && r.value.names == ReplaceName(t.names, "_index", "ID")
      && "_index" !in r.value.cols && "ID" in r.value.cols && r.value.cols["ID"] == t.cols["_index"]
  {
    RenameIfPresentEffect(t, "_index", "ID");
    RenameIfPresent(t, "_index", "ID")
  }

  /** `fillna(v)` of a column. */
  function FillNa(col: seq<Cell>, v: string): (r: seq<Cell>)
    ensures |r| == |col|
    ensures forall i | 0 <= i < |col| :: !r[i].Null?
    ensures forall i | 0 <= i < |col| :: r[i] == (if col[i].Null? then Str(v) else col[i])
  {
    seq(|col|, i requires 0 <= i < |col| => if col[i].Null? then Str(v) else col[i])
  }

  /** `agregar_observaciones`: the rename, then the missing notes filled
      with `Sin observaciones`. A frame that already has `Observaciones`
      (and no `OBSERVACIONES`) is left as it is, gaps included. */
  function Observaciones(t: Table): Result<Table>
    requires WellFormed(t)
  {
    var u :- RenameIfPresent(t, "OBSERVACIONES", "Observaciones");
    if "OBSERVACIONES" !in t.cols then Ok(u)
    else Ok(SetCol(u, "Observaciones", FillNa(u.cols["Observaciones"], "Sin observaciones")))
  }

  method AgregarObservaciones(f: Frame) returns (o: Outcome)
    requires f.Valid()
    modifies f
    ensures f.Valid()
    ensures Agrees(o, Observaciones(old(f.Value())), f.Value())
  {
    if "OBSERVACIONES" in f.cols {
      if "Observaciones" in f.cols {
        return Fail(DuplicateName("Observaciones"));
      }
      ghost var t := f.Value();
      f.RenameColumn("OBSERVACIONES", "Observaciones");
      ghost var u := f.Value();
      f.SetColumn("Observaciones", FillNa(f.cols["Observaciones"], "Sin observaciones"));
      assert Observaciones(t) == Ok(SetCol(u, "Observaciones", FillNa(u.cols["Observaciones"], "Sin observaciones")));
    }
    o := Pass;
  }

  /** When `OBSERVACIONES` is there (and `Observaciones` is not) its notes
      move to `Observaciones`, in the same place, with every gap reading
      `Sin observaciones` and every other note as it was. */
  lemma ObservacionesEffect(t: Table)
    requires WellFormed(t) && "OBSERVACIONES" in t.cols && "Observaciones" !in t.cols
    ensures Observaciones(t).Ok?
    ensures var u := Observaciones(t).value;
      && u.names == ReplaceName(t.names, "OBSERVACIONES", "Observaciones")
      && "OBSERVACIONES" !in u.cols && "Observaciones" in u.cols
      && forall i | 0 <= i < t.rows ::
           var c := t.cols["OBSERVACIONES"][i];
           u.cols["Observaciones"][i] == (if c.Null? then Str("Sin observaciones") else c)
  {
    var r := Rename(t, "OBSERVACIONES", "Observaciones");
    assert Observaciones(t) == Ok(SetCol(r, "Observaciones", FillNa(r.cols["Observaciones"], "Sin observaciones")));
  }

  /** Nothing happens without `OBSERVACIONES`, and it raises exactly when
      both spellings are columns. */
  lemma ObservacionesRaises(t: Table)
    requires WellFormed(t)
    ensures "OBSERVACIONES" !in t.cols ==> Observaciones(t) == Ok(t)
    ensures Observaciones(t).Err? <==> "OBSERVACIONES" in t.cols && "Observaciones" in t.cols
  {
  }

  lemma ObservacionesFootprint(t: Table)
    requires WellFormed(t)
    ensures Shaped(t, Observaciones(t))
    ensures forall n | n != "OBSERVACIONES" && n != "Observaciones" :: Keeps(t, Observaciones(t), n)
  {
  }

  lemma ObservacionesFamily(t: Table, p: string)
    requires WellFormed(t) && !(p <= "OBSERVACIONES") && !(p <= "Observaciones")
    ensures KeepsFamily(t, Observaciones(t), p)
  {
    if "OBSERVACIONES" !in t.cols {
      ObservacionesRaises(t);
      SameFamilyRefl(t, p);
    } else if "Observaciones" !in t.cols {
      var u := Rename(t, "OBSERVACIONES", "Observaciones");
      var v := SetCol(u, "Observaciones", FillNa(u.cols["Observaciones"], "Sin observaciones"));
      assert Observaciones(t) == Ok(v);
      RenameFamily(t, "OBSERVACIONES", "Observaciones", p);
      SetColFamily(u, "Observaciones", FillNa(u.cols["Observaciones"], "Sin observaciones"), p);
      SameFamilyTrans(t, u, v, p);
    }
  }

  // ---------------------------------------------------------------------
  // The stages

  const TecnicosPrefix: string := "Técnicos/"

  /** `# Fecha`: `agregar_nueva_fecha(df, 'Fecha')`, then
      `columna_mes(df, 'Fecha pandas')`. */
  function Fechas(parse: Parser, t: Table): (r: Result<Table>)
    requires WellFormed(t)
    ensures Shaped(t, r)
  {
    NuevaFechaFootprint(parse, t, "Fecha");
    var t1 :- NuevaFecha(parse, t, "Fecha");
    MesFootprint(t1, "Fecha pandas");
    Mes(t1, "Fecha pandas")
  }

  method FechasSteps(f: Frame, parse: Parser) returns (o: Outcome)
    requires f.Valid()
    modifies f
    ensures f.Valid()
    ensures Agrees(o, Fechas(parse, old(f.Value())), f.Value())
  {
    o := AgregarNuevaFecha(f, parse, "Fecha");
    if o.Fail? {
      return;
    }
    o := ColumnaMes(f, "Fecha pandas");
  }

  /** `# Técnicos`: the technician columns zero-filled, then combined into
      `Técnicos`. */
  function Tecnicos(t: Table): (r: Result<Table>)
    requires WellFormed(t)
    ensures Shaped(t, r)
  {
    ZeroFillFootprint(t, TecnicosPrefix);
    var t1 :- ZeroFill(t, TecnicosPrefix);
    CombineFootprint(t1, TecnicosPrefix, "Técnicos", "/", ", ", "");
    Combine(t1, TecnicosPrefix, "Técnicos", "/", ", ", "")
  }

  method TecnicosSteps(f: Frame) returns (o: Outcome)
    requires f.Valid()
    modifies f
    ensures f.Valid()
    ensures Agrees(o, Tecnicos(old(f.Value())), f.Value())
  {
    o := AgregarCerosAColumnas(f, TecnicosPrefix);
    if o.Fail? {
      return;
    }
    o := CrearColumnaCombinada(f, TecnicosPrefix, "Técnicos", "/", ", ", "");
  }

  /** `# Location` of the preventive normaliser: `Área`, the sub-area
      renames, then `Subárea`. */
  function Ubicacion(t: Table): (r: Result<Table>)
    requires WellFormed(t)
    ensures Shaped(t, r)
  {
    AreaFootprint(t);
    var t1 :- PrevUtils.Area(t);
    RenameSubareasFootprint(t1, Config.SubareasPreventivos, PrevUtils.SubareaPrefix);
    var t2 :- PrevUtils.RenameSubareas(t1, Config.SubareasPreventivos, PrevUtils.SubareaPrefix);
    Ok(PrevUtils.Subarea(t2))
  }

  method UbicacionSteps(f: Frame) returns (o: Outcome)
    requires f.Valid()
    modifies f
    ensures f.Valid()
    ensures Agrees(o, Ubicacion(old(f.Value())), f.Value())
  {
    ghost var t0 := f.Value();
    o := PrevUtils.AgregarArea(f);
    if o.Fail? {
      return;
    }
    ghost var t1 := f.Value();
    assert PrevUtils.Area(t0) == Ok(t1);
    o := PrevUtils.RenombrarSubareas(f, Config.SubareasPreventivos);
    if o.Fail? {
      return;
    }
    assert PrevUtils.RenameSubareas(t1, Config.SubareasPreventivos, PrevUtils.SubareaPrefix) == Ok(f.Value());
    PrevUtils.AgregarSubarea(f);
  }

  const OtrasPlagas: string := "Cuales otras plagase evidenció?"
  const CantidadOtrasPlagas: string := "Cantidad de hallazgos de ${Otras_plagas_evidenciadas}"
  const HallazgosPrefix: string := "Cantidad de hallazgos de "

  /** `# Plagas`: the other-pest quantities spread into their own columns,
      the quantity columns zero-filled, then combined into `Evidencia de
      plagas`. */
  function Plagas(t: Table): (r: Result<Table>)
    requires WellFormed(t)
    ensures Shaped(t, r)
  {
    CantidadesFootprint(t, OtrasPlagas, CantidadOtrasPlagas, "Cantidad de hallazgos de", " ", true, true);
    var t1 :- Cantidades(t, OtrasPlagas, CantidadOtrasPlagas, "Cantidad de hallazgos de", " ", true, true);
    ZeroFillFootprint(t1, HallazgosPrefix);
    var t2 :- ZeroFill(t1, HallazgosPrefix);
    CombineFootprint(t2, HallazgosPrefix, "Evidencia de plagas", "hallazgos de ", ", ", "Sin evidencia");
    Combine(t2, HallazgosPrefix, "Evidencia de plagas", "hallazgos de ", ", ", "Sin evidencia")
  }

  method PlagasSteps(f: Frame) returns (o: Outcome)
    requires f.Valid()
    modifies f
    ensures f.Valid()
    ensures Agrees(o, Plagas(old(f.Value())), f.Value())
  {
    o := AgregarCantidadesOtras(f, OtrasPlagas, CantidadOtrasPlagas, "Cantidad de hallazgos de", " ", true, true);
    if o.Fail? {
      return;
    }
    o := AgregarCerosAColumnas(f, HallazgosPrefix);
    if o.Fail? {
      return;
    }
    o := CrearColumnaCombinada(f, HallazgosPrefix, "Evidencia de plagas", "hallazgos de ", ", ", "Sin evidencia");
  }

  /** `# Plaguicidas`: the free-text pesticide made into dummies (the
      `Otro` dummy dropped), the pesticide columns zero-filled, then
      combined into `Plaguicidas utilizados`. The preventive and the rodent
      normalisers differ only in the source column, the prefix and the
      name of the dropped dummy. */
  function Plaguicidas(t: Table, src: string, prefix: string, otro: string): (r: Result<Table>)
    requires WellFormed(t)
    ensures Shaped(t, r)
  {
    DummiesFootprint(t, src, prefix, "/", true, [otro]);
    var t1 :- Dummies(t, src, prefix, "/", true, [otro]);
    ZeroFillFootprint(t1, prefix + "/");
    var t2 :- ZeroFill(t1, prefix + "/");
    CombineFootprint(t2, prefix + "/", "Plaguicidas utilizados", "/", " - ", "");
    Combine(t2, prefix + "/", "Plaguicidas utilizados", "/", " - ", "")
  }

  /** `otros_a_dummy` returns a new frame (or the same one when the source
      column is absent); the later steps work on the frame it returns. */
  method PlaguicidasSteps(f: Frame, src: string, prefix: string, otro: string) returns (g: Frame, o: Outcome)
    requires f.Valid()
    modifies f
    ensures g.Valid()
    ensures g == f || fresh(g)
    ensures Agrees(o, Plaguicidas(old(f.Value()), src, prefix, otro), g.Value())
  {
    g, o := OtrosADummy(f, src, prefix, "/", true, [otro]);
    if o.Fail? {
      return;
    }
    o := AgregarCerosAColumnas(g, prefix + "/");
    if o.Fail? {
      return;
    }
    o := CrearColumnaCombinada(g, prefix + "/", "Plaguicidas utilizados", "/", " - ", "");
  }

  /** `# Otras columnas` of the preventive normaliser. */
  function OtrasPrev(t: Table): (r: Result<Table>)
    requires WellFormed(t)
    ensures Shaped(t, r)
  {
    RenameIfPresentFootprint(t, "Servicio verificado por", "Acompañante");
    var t1 :- Acompanante(t);
    ObservacionesFootprint(t1);
    var t2 :- Observaciones(t1);
    RenameIfPresentFootprint(t2, "_index", "ID");
    RenombrarId(t2)
  }

  method OtrasPrevSteps(f: Frame) returns (o: Outcome)
    requires f.Valid()
    modifies f
    ensures f.Valid()
    ensures Agrees(o, OtrasPrev(old(f.Value())), f.Value())
  {
    o := RenameColumnIfPresent(f, "Servicio verificado por", "Acompañante");
    if o.Fail? {
      return;
    }
    o := AgregarObservaciones(f);
    if o.Fail? {
      return;
    }
    o := RenameColumnIfPresent(f, "_index", "ID");
  }

  /** `# Otras columnas` of the lamp and rodent normalisers: the id rename
      comes first there. */
  function Otras(t: Table): (r: Result<Table>)
    requires WellFormed(t)
    ensures Shaped(t, r)
  {
    RenameIfPresentFootprint(t, "_index", "ID");
    var t1 :- RenombrarId(t);
    ObservacionesFootprint(t1);
    Observaciones(t1)
  }

  method OtrasSteps(f: Frame) returns (o: Outcome)
    requires f.Valid()
    modifies f
    ensures f.Valid()
    ensures Agrees(o, Otras(old(f.Value())), f.Value())
  {
    o := RenameColumnIfPresent(f, "_index", "ID");
    if o.Fail? {
      return;
    }
    o := AgregarObservaciones(f);
  }

  const EstadoLamparaPrefix: string := "Estado de la lámpara/"

  /** `# Lámpara`: the lamp column, then the lamp-state columns zero-filled
      and combined into `Estado de la lámpara`. */
  function Lampara(t: Table): (r: Result<Table>)
    requires WellFormed(t)
    ensures Shaped(t, r)
  {
    LamparaFootprint(t);
    var t1 :- LampUtils.Lampara(t);
    ZeroFillFootprint(t1, EstadoLamparaPrefix);
    var t2 :- ZeroFill(t1, EstadoLamparaPrefix);
    CombineFootprint(t2, EstadoLamparaPrefix, "Estado de la lámpara", "/", " - ", "");
    Combine(t2, EstadoLamparaPrefix, "Estado de la lámpara", "/", " - ", "")
  }

  method LamparaSteps(f: Frame) returns (o: Outcome)
    requires f.Valid()
    modifies f
    ensures f.Valid()
    ensures Agrees(o, Lampara(old(f.Value())), f.Value())
  {
    o := LampUtils.AgregarColumnaLampara(f);
    if o.Fail? {
      return;
    }
    o := AgregarCerosAColumnas(f, EstadoLamparaPrefix);
    if o.Fail? {
      return;
    }
    o := CrearColumnaCombinada(f, EstadoLamparaPrefix, "Estado de la lámpara", "/", " - ", "");
  }

  const OtraEspecie: string := "Cual otra especie encontró?"
  const CantidadOtraEspecie: string := "Cantidad de ${Otra_especie_encontrada}"
  const EspeciesPrefix: string := "Especies encontradas/"

  /** `# Especies encontradas`: the quantity columns zero-filled, the
      other-species quantities spread, then the species columns combined
      into `Especies encontradas`. */
  function Especies(t: Table): (r: Result<Table>)
    requires WellFormed(t)
    ensures Shaped(t, r)
  {
    ZeroFillFootprint(t, "Cantidad de ");
    var t1 :- ZeroFill(t, "Cantidad de ");
    CantidadesFootprint(t1, OtraEspecie, CantidadOtraEspecie, "Cantidad de", " ", true, true);
    var t2 :- Cantidades(t1, OtraEspecie, CantidadOtraEspecie, "Cantidad de", " ", true, true);
    CombineFootprint(t2, EspeciesPrefix, "Especies encontradas", "/", ", ", "Sin evidencia");
    Combine(t2, EspeciesPrefix, "Especies encontradas", "/", ", ", "Sin evidencia")
  }

  method EspeciesSteps(f: Frame) returns (o: Outcome)
    requires f.Valid()
    modifies f
    ensures f.Valid()
    ensures Agrees(o, Especies(old(f.Value())), f.Value())
  {
    o := AgregarCerosAColumnas(f, "Cantidad de ");
    if o.Fail? {
      return;
    }
    o := AgregarCantidadesOtras(f, OtraEspecie, CantidadOtraEspecie, "Cantidad de", " ", true, true);
    if o.Fail? {
      return;
    }
    o := CrearColumnaCombinada(f, EspeciesPrefix, "Especies encontradas", "/", ", ", "Sin evidencia");
  }

  const EstadoEstacionPrefix: string := "Estado de la estación/"

  /** `# Estación`: the station number, the station-state columns
      zero-filled, the consumed-bait count folded into the bait-change
      count, then the states combined into `Estado de la estación`. */
  function Estacion(t: Table): (r: Result<Table>)
    requires WellFormed(t)
    ensures Shaped(t, r)
  {
    NumEstacionFootprint(t);
    var t1 :- RoedUtils.NumEstacion(t);
    ZeroFillFootprint(t1, EstadoEstacionPrefix);
    var t2 :- ZeroFill(t1, EstadoEstacionPrefix);
    UnirConsumidoFootprint(t2);
    var t3 :- RoedUtils.UnirConsumido(t2);
    CombineFootprint(t3, EstadoEstacionPrefix, "Estado de la estación", "/", " - ", "");
    Combine(t3, EstadoEstacionPrefix, "Estado de la estación", "/", " - ", "")
  }

  method EstacionSteps(f: Frame) returns (o: Outcome)
    requires f.Valid()
    modifies f
    ensures f.Valid()
    ensures Agrees(o, Estacion(old(f.Value())), f.Value())
  {
    o := RoedUtils.AgregarColumnaNumEstacion(f);
    if o.Fail? {
      return;
    }
    o := AgregarCerosAColumnas(f, EstadoEstacionPrefix);
    if o.Fail? {
      return;
    }
    o := RoedUtils.UnirColumnaConsumido(f);
    if o.Fail? {
      return;
    }
    o := CrearColumnaCombinada(f, EstadoEstacionPrefix, "Estado de la estación", "/", " - ", "");
  }

  // ---------------------------------------------------------------------
  // The normalisers

  /** Both views have a row for every raw row, in the same order: no step
      adds, drops or reorders rows. */
  ghost predicate RowsKept(t0: Table, r: Result<(Table, Table)>)
  {
    r.Ok? ==> WellFormed(r.value.0) && WellFormed(r.value.1) && r.value.0.rows == t0.rows && r.value.1.rows == t0.rows
  }

  /** `procesar_preventivos`, on the raw frame `t0`. */
  function Preventivos(parse: Parser, t0: Table): (r: Result<(Table, Table)>)
    requires WellFormed(t0)
    ensures RowsKept(t0, r)
  {
    var t1 :- Fechas(parse, t0);
    var t2 :- Ubicacion(t1);
    var t3 :- Tecnicos(t2);
    var t4 :- Plagas(t3);
    var t5 :- Plaguicidas(t4, "Cuál otro plaguicida fue utilizado?", "Plaguicidas", "Plaguicidas/Otro:");
    var t6 :- OtrasPrev(t5);
    var r := PrevUtils.OrdenarColumnasPrev(t6);
    if r.Ok? then PrevUtils.OrdenarPrevShape(t6); r else r
  }

  /** `procesar_lamparas`, on the raw frame `t0`. */
  function Lamparas(parse: Parser, t0: Table): (r: Result<(Table, Table)>)
    requires WellFormed(t0)
    ensures RowsKept(t0, r)
  {
    var t1 :- Fechas(parse, t0);
    var t2 :- Tecnicos(t1);
    var t3 :- Lampara(t2);
    var t4 :- Especies(t3);
    var t5 :- Otras(t4);
    var r := LampUtils.OrdenarColumnasLamparas(t5);
    if r.Ok? then LampUtils.OrdenarLamparasShape(t5); r else r
  }

  /** `procesar_roedores`, on the raw frame `t0`. */
  function Roedores(parse: Parser, t0: Table): (r: Result<(Table, Table)>)
    requires WellFormed(t0)
    ensures RowsKept(t0, r)
  {
    var t1 :- Fechas(parse, t0);
    var t2 :- Tecnicos(t1);
    var t3 :- Estacion(t2);
    var t4 :- Plaguicidas(t3, "Cual otro plaguicida aplicó?", "Plaguicida", "Plaguicida/Otro");
    var t5 :- Otras(t4);
    var r := RoedUtils.OrdenarColumnasRoedores(t5);
    if r.Ok? then RoedUtils.OrdenarRoedoresShape(t5); r else r
  }

  /** The normaliser works on a copy: the caller's frame is not modified
      (the method may modify nothing it did not allocate). */
  method ProcesarPreventivos(raw: Frame, parse: Parser) returns (r: Result<(Table, Table)>)
    requires raw.Valid()
    ensures r == Preventivos(parse, raw.Value())
  {
    var f := new Frame(raw.Value());
    var o := FechasSteps(f, parse);
    if o.Fail? {
      return Err(o.error);
    }
    o := UbicacionSteps(f);
    if o.Fail? {
      return Err(o.error);
    }
    o := TecnicosSteps(f);
    if o.Fail? {
      return Err(o.error);
    }
    o := PlagasSteps(f);
    if o.Fail? {
      return Err(o.error);
    }
    var g;
    g, o := PlaguicidasSteps(f, "Cuál otro plaguicida fue utilizado?", "Plaguicidas", "Plaguicidas/Otro:");
    if o.Fail? {
      return Err(o.error);
    }
    o := OtrasPrevSteps(g);
    if o.Fail? {
      return Err(o.error);
    }
    r := PrevUtils.OrdenarColumnasPrev(g.Value());
  }

  method ProcesarLamparas(raw: Frame, parse: Parser) returns (r: Result<(Table, Table)>)
    requires raw.Valid()
    ensures r == Lamparas(parse, raw.Value())
  {
    var f := new Frame(raw.Value());
    var o := FechasSteps(f, parse);
    if o.Fail? {
      return Err(o.error);
    }
    o := TecnicosSteps(f);
    if o.Fail? {
      return Err(o.error);
    }
    o := LamparaSteps(f);
    if o.Fail? {
      return Err(o.error);
    }
    o := EspeciesSteps(f);
    if o.Fail? {
      return Err(o.error);
    }
    o := OtrasSteps(f);
    if o.Fail? {
      return Err(o.error);
    }
    r := LampUtils.OrdenarColumnasLamparas(f.Value());
  }

  method ProcesarRoedores(raw: Frame, parse: Parser) returns (r: Result<(Table, Table)>)
    requires raw.Valid()
    ensures r == Roedores(parse, raw.Value())
  {
    var f := new Frame(raw.Value());
    var o := FechasSteps(f, parse);
    if o.Fail? {
      return Err(o.error);
    }
    o := TecnicosSteps(f);
    if o.Fail? {
      return Err(o.error);
    }
    o := EstacionSteps(f);
    if o.Fail? {
      return Err(o.error);
    }
    var g;
    g, o := PlaguicidasSteps(f, "Cual otro plaguicida aplicó?", "Plaguicida", "Plaguicida/Otro");
    if o.Fail? {
      return Err(o.error);
    }
    o := OtrasSteps(g);
    if o.Fail? {
      return Err(o.error);
    }
    r := RoedUtils.OrdenarColumnasRoedores(g.Value());
  }
}
