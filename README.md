# Serviplagas report tables, modelled in Dafny

A model of the table-normalisation layer of the San Vicente hospital
pest-control report. The report starts from three survey exports:
preventive inspections, rodent stations and insect-light lamps. Each
answer option of a survey question is its own column there
(`Técnicos/Juan`, `Plaguicidas/Cipermetrina`, …). The `data_preprocessing`
helpers fold those families into readable text columns, add the date and
month labels, and project each record type onto a fixed main view and a
fixed full view. `report_generator.py` filters the exports by site
(`Sede`), excludes one month, collects one section per site, names the
report file, and counts the records of each site.

Modules, one per source file, plus two shared ones:

- `Text`: joins, splits, stripping, decimal text, and code-point order of
  strings. `Tables`: the table value (ordered names, a map from name to
  column, a row count), the `Frame` class that the in-place helpers
  mutate, and the projections and row filters. These two are shared.
- `Config` (`config.py`): `meses_esp` and `subareas_preventivos`.
- `DateUtils` (`date_utils.py`): `agregar_nueva_fecha` and `columna_mes`.
- `GeneralUtils` (`general_utils.py`): zero-fill, combine a family into
  one text column, dummies from an "other" text, and quantities spread
  over categories.
- `PrevUtils`, `LampUtils`, `RoedUtils`: the record-type helpers and the
  fixed projections.
- `Footprints`: what each helper writes, and what it leaves alone.
- `Pipeline` (`pipeline.py`): the renames and the three `procesar_*`
  normalisers. `PipelineStages`: what each stage of a normaliser puts in
  its summary column, and what it keeps. `PipelineViews`: the stages
  chained into the two views each normaliser returns: which raw columns
  reach the views unchanged, and what the summary columns in the views
  hold.
- `ReportGenerator` (`report_generator.py`): `process_location_data`,
  `get_data_summary` and the rules inside
  `generate_report_for_locations`.

Each helper that changes its frame in place is a method on `Tables.Frame`
with `modifies`. Its `ensures` ties the new frame, or the raised
exception, to a function of the old frame, and lemmas state what that
function does. A pandas exception is an `Err` of `Tables.Error`. The
`procesar_*` methods copy their input, so they modify nothing.

## Model

| member | source | states |
|---|---|---|
| Config.MesesEspKeys | config.py:1-14 | the keys of `meses_esp` are exactly the twelve English abbreviations Jan … Dec |
| Config.OnlyFourChange | config.py:2-13 | a month maps to a different abbreviation exactly for Jan, Apr, Aug and Dec |
| Config.SpanishShape | config.py:2-13 | every Spanish abbreviation is three letters |
| Config.SpanishInjective | config.py:1-14 | two months have the same Spanish abbreviation only if they are the same month |
| Config.MesesEng | data_visualization/preventivos.py:53 | the reversed dict loses no entry: it is the exact inverse of `meses_esp` in both directions |
| Config.MonthOfSpanishRoundTrip | data_visualization/preventivos.py:53 | looking a Spanish abbreviation up in the reversed dict gives back its month |
| Config.LabelMonthUnique | data_visualization/lamparas.py:44-46 | in a label `<abbr> <year>` the only Spanish abbreviation that occurs as a substring is the label's own, so the substring search finds the right month in any iteration order |
| Config.SubareasDistinct | config.py:17-44 | `subareas_preventivos` holds 26 distinct names |
| DateUtils.Coerce | data_preprocessing/date_utils.py:13 | the coercing parse of a cell is a date or missing: a timestamp stays, a text becomes its parsed date or missing, an integer is read as nanoseconds since 1970-01-01 (a real date whose day number is the integer floored to whole days) and is missing outside pandas' 64-bit timestamp range |
| DateUtils.EpochDate | data_preprocessing/date_utils.py:13 | the date of a timestamp in range is a real calendar date whose day number since 1970-01-01 is the nanoseconds floored to whole days |
| DateUtils.EpochDayInjective | data_preprocessing/date_utils.py:13 | two real dates with the same day number are the same date, so the day number alone fixes the date of a timestamp |
| DateUtils.EpochStart | data_preprocessing/date_utils.py:13 | timestamp 0 is 1970-01-01, and -1 ns falls on 1969-12-31 |
| DateUtils.AgregarNuevaFecha | data_preprocessing/date_utils.py:4-23 | the frame after the call, or the exception raised, is the one `NuevaFecha` specifies |
| DateUtils.NuevaFechaRaises | data_preprocessing/date_utils.py:13-16 | it raises when `fecha_col` or `Fecha` is missing; otherwise it raises exactly when some `Fecha` cell does not parse strictly, whatever `fecha_col` is |
| DateUtils.NuevaFechaWrites | data_preprocessing/date_utils.py:13-21 | `Fecha pandas` is the coercing parse of `fecha_col`, added at the end when new; `Fecha` is the rewritten date; every other column and the row count are unchanged |
| DateUtils.FechaExample | data_preprocessing/date_utils.py:19-21 | 2025-03-05 is written `2025-Mar-05` |
| DateUtils.FechaFields | data_preprocessing/date_utils.py:19-21 | a rewritten `Fecha` splits on `-` into the year, the Spanish abbreviation and the two-digit day |
| DateUtils.FechaRoundTrip | data_preprocessing/date_utils.py:19-21 | decoding the three fields of a rewritten `Fecha` gives back the year, the month and the day |
| DateUtils.ColumnaMes | data_preprocessing/date_utils.py:26-42 | the three writes of `Mes` leave the frame, or raise the exception, that `Mes` specifies |
| DateUtils.ThreeWrites | data_preprocessing/date_utils.py:37-41 | the English abbreviation, then its translation, then the year appended, give the label column `MesColumn` |
| DateUtils.MesSteps | data_preprocessing/date_utils.py:37-41 | after the first two writes the third succeeds exactly when the date column still has timestamps, and then gives the specified table |
| DateUtils.LabelsNotDates | data_preprocessing/date_utils.py:39-41 | the translated labels are not timestamps unless every cell is missing, so reading the year from `Mes` itself raises |
| DateUtils.MesWrites | data_preprocessing/date_utils.py:37-41 | only `Mes` is written, added at the end when new; a label is missing exactly when its timestamp is; everything else is unchanged |
| DateUtils.MesExample | data_preprocessing/date_utils.py:37-41 | a January 2025 timestamp gets `Ene 2025` |
| DateUtils.MesFields | data_preprocessing/date_utils.py:37-41 | a label splits on a space into the Spanish abbreviation and the year |
| DateUtils.MesKeyRoundTrip | data_preprocessing/date_utils.py:37-41 | reading a label back through the reversed map gives the timestamp's year and month |
| DateUtils.MesOrder | data_visualization/preventivos.py:53-61 | ordering labels by (year, recovered month) agrees with ordering their timestamps |
| DateUtils.DateStepsColumns | data_preprocessing/pipeline.py:94-96 | after both date steps, `Fecha` and `Mes` are the rewritten date and the label of the parsed `Fecha`, with the row count kept |
| DateUtils.FechaMesAgree | data_preprocessing/date_utils.py:13-41 | once `Fecha` parses, both steps succeed and on every row `Fecha` and `Mes` are both missing or carry the same month and year tokens |
| GeneralUtils.ZeroCell | data_preprocessing/general_utils.py:21 | `fillna(0).astype(int)` of a cell: missing is 0, an integer stays, a date raises, a text is read the way Python's `int()` reads it |
| Text.IntOfDecimal | data_preprocessing/general_utils.py:21 | `int()` reads a plain run of ASCII digits as its decimal value |
| Text.IntOfTextRoundTrip | data_preprocessing/general_utils.py:21 | `int()` reads the decimal text of every integer, minus sign included, back as that integer |
| Text.IntOfTextPadded | data_preprocessing/general_utils.py:21 | blanks around the text do not change what `int()` reads |
| Text.IntOfTextUnderscore | data_preprocessing/general_utils.py:21 | one underscore between two runs of digits is skipped |
| Text.IntOfTextDoubleUnderscore | data_preprocessing/general_utils.py:21 | two underscores in a row make `int()` raise |
| GeneralUtils.AgregarCerosAColumnas | data_preprocessing/general_utils.py:8-22 | the frame after the call, or the exception, is the one `ZeroFill` specifies |
| GeneralUtils.ZeroFillRaises | data_preprocessing/general_utils.py:19-22 | it raises exactly when a matching column holds a cell the cast rejects; with no matching column the frame is unchanged |
| GeneralUtils.ZeroFillEffect | data_preprocessing/general_utils.py:19-21 | each matching cell becomes its integer (missing becomes 0); other columns, names and rows are unchanged |
| GeneralUtils.ZeroFillIntegers | data_preprocessing/general_utils.py:21 | afterwards every matching column holds integers only |
| GeneralUtils.ZeroFillAsColumn | data_preprocessing/general_utils.py:19-21 | a matching column of a successful fill is castable, and afterwards holds each of its cells read as an integer |
| GeneralUtils.ZeroFillIdempotent | data_preprocessing/general_utils.py:19-22 | filling twice is filling once |
| GeneralUtils.ZeroFillNoop | data_preprocessing/general_utils.py:19-22 | a frame whose matching columns already hold integers only is left as it is and does not raise |
| GeneralUtils.Picked | data_preprocessing/general_utils.py:52-64 | a row's picked names are exactly the text after the first separator of the matching columns that are positive on that row |
| GeneralUtils.PickedAppend | data_preprocessing/general_utils.py:59-64 | picking keeps column order |
| GeneralUtils.CrearColumnaCombinada | data_preprocessing/general_utils.py:25-68 | the frame after the call, or the exception, is the one `Combine` specifies |
| GeneralUtils.CombineNoMatch | data_preprocessing/general_utils.py:46-50 | with no matching column the new column is `empty_value` on every row |
| GeneralUtils.CombineRows | data_preprocessing/general_utils.py:52-66 | each row is `empty_value` exactly when no matching column is positive there, and otherwise the `join_separator` join, in column order, of the positive columns' names; nothing else changes |
| GeneralUtils.CombineRaises | data_preprocessing/general_utils.py:53-64 | it raises exactly when a matching column holds text or dates (`gt(0)` fails), or a positive column lacks the name separator |
| GeneralUtils.Labels | data_preprocessing/general_utils.py:96-99 | the categories are the distinct text values of the column, sorted, with none for missing cells |
| GeneralUtils.Categories | data_preprocessing/general_utils.py:96-99 | a column of texts and gaps gives its labels; any other column is reported as unsupported |
| GeneralUtils.DummyNamesDistinct | data_preprocessing/general_utils.py:96-99 | distinct categories give distinct dummy names |
| GeneralUtils.OtrosADummy | data_preprocessing/general_utils.py:71-115 | the returned frame, or the exception, is the one `Dummies` specifies; it is the caller's frame when the source is absent and a new one otherwise |
| GeneralUtils.DummiesNoSource | data_preprocessing/general_utils.py:92-93 | an absent source column leaves the frame unchanged |
| GeneralUtils.DummiesOneHot | data_preprocessing/general_utils.py:96-105 | one 0/1 column `prefix+sep+v` per distinct value, appended; each row has a single 1 in its value's column, or all 0 when missing |
| GeneralUtils.DummiesDrops | data_preprocessing/general_utils.py:107-113 | every `drop_columns` name is absent (unknown names ignored), the source is absent when `drop_source` is set, and every other column is kept |
| GeneralUtils.RowSumSpread | data_preprocessing/general_utils.py:146-155 | over distinct categories the spread cells of a row add up to the row's quantity when its source is one of them, and to 0 otherwise |
| GeneralUtils.SpreadAllCols | data_preprocessing/general_utils.py:154-155 | after the loop every category column holds the spread quantity, whether it was new or overwritten |
| GeneralUtils.SpreadAllKeeps | data_preprocessing/general_utils.py:154-155 | the loop keeps every other column and its place, and only appends new names |
| GeneralUtils.AgregarCantidadesOtras | data_preprocessing/general_utils.py:119-163 | the frame after the call, or the exception, is the one `Cantidades` specifies |
| GeneralUtils.CantidadesNeedsBoth | data_preprocessing/general_utils.py:142-143 | nothing changes unless both the source and the quantity columns exist |
| GeneralUtils.CantidadesConserve | data_preprocessing/general_utils.py:146-161 | column `prefix+sep+v` holds the quantity on rows whose source is `v` and 0 elsewhere, so a row's category columns add up to its quantity, or to 0 when the source is missing |
| PrevUtils.RowTexts | data_preprocessing/prev_utils.py:67 | the texts of a row's non-missing cells: none exactly when all are missing, and each one a present cell's text |
| PrevUtils.AgregarArea | data_preprocessing/prev_utils.py:56-68 | the frame after the call, or the exception, is the one `Area` specifies |
| PrevUtils.AreaRow | data_preprocessing/prev_utils.py:66-67 | `Área` is `''` when both are missing, the present one alone, or `tower + ' ' + block` |
| PrevUtils.AreaEffect | data_preprocessing/prev_utils.py:66-67 | it raises exactly when a source column is absent; otherwise it writes `Área` and keeps everything else |
| PrevUtils.RenombrarSubareas | data_preprocessing/prev_utils.py:71-85 | the renames use `subareas_preventivos` whatever list is passed |
| PrevUtils.RenameSubareasKeeps | data_preprocessing/prev_utils.py:82-84 | the renames keep the rows, the number of columns and every column outside the list |
| PrevUtils.RenameSubareasOnlyPrefixed | data_preprocessing/prev_utils.py:82-84 | every unprefixed name afterwards was a column before and is not a listed sub-area |
| PrevUtils.RenameSubareasMoves | data_preprocessing/prev_utils.py:82-84 | each listed column present moves, with its cells, to `'Subárea: ' + name`, and the old name is gone |
| PrevUtils.RenameSubareasRaises | data_preprocessing/prev_utils.py:82-84 | the renames fail, always with a duplicate-name error, exactly when some listed column present already has its prefixed name taken |
| PrevUtils.SubareasRenamable | data_preprocessing/prev_utils.py:81 | the configured sub-areas are distinct and none carries the prefix |
| PrevUtils.RowTextsSingle | data_preprocessing/prev_utils.py:99 | when one column alone has a value, the row's texts are that value alone |
| PrevUtils.AgregarSubarea | data_preprocessing/prev_utils.py:88-100 | the frame after the call is the one `Subarea` specifies |
| PrevUtils.SubareaCells | data_preprocessing/prev_utils.py:98-99 | `Subárea` is the `' - '` join of the row's present sub-area values, `''` when none is marked or no column carries the prefix; everything else is kept |
| PrevUtils.SubareaSingle | data_preprocessing/prev_utils.py:98-99 | on a row where exactly one sub-area is marked, `Subárea` is that value's own text |
| PrevUtils.OrdenarPrevRaises | data_preprocessing/prev_utils.py:53 | both views raise exactly when a fixed column is missing |
| PrevUtils.OrdenarPrevShape | data_preprocessing/prev_utils.py:16-53 | each view has its listed names in order, all distinct, the frame's rows and cells; the full view holds every quantity and pesticide column, the main view none of the pesticide columns and not `Fecha pandas` |
| PrevUtils.OrdenarPrevNested | data_preprocessing/prev_utils.py:20-51 | the main column list is a subsequence of the full one |
| LampUtils.FilledText | data_preprocessing/lamp_utils.py:10-11 | `fillna('').astype(str)`: a gap is `''`, a text stays |
| LampUtils.AgregarColumnaLampara | data_preprocessing/lamp_utils.py:5-19 | the frame after the call, or the exception, is the one `Lampara` specifies |
| LampUtils.LamparaText | data_preprocessing/lamp_utils.py:14 | one present identifier is kept as is, two are joined by a space with Rionegro first, two gaps give `''` |
| LampUtils.LamparaEffect | data_preprocessing/lamp_utils.py:10-17 | it raises exactly when a city column is missing; otherwise `Lámpara` is written, both city columns are gone and everything else is kept |
| LampUtils.GapThenText | data_preprocessing/lamp_utils.py:10-14 | a one-row frame with a Rionegro gap and a stripped Medellín text yields exactly that text |
| LampUtils.LamparaExample | data_preprocessing/lamp_utils.py:10-14 | a Rionegro gap beside Medellín `A12` gives `A12` |
| LampUtils.OrdenarLamparasRaises | data_preprocessing/lamp_utils.py:68 | both views raise exactly when a fixed column is missing |
| LampUtils.OrdenarLamparasShape | data_preprocessing/lamp_utils.py:35-68 | each view has its listed names in order with the frame's rows and cells; the full view holds every lamp-state and count column, the main view no lamp-state column, neither view a species indicator |
| LampUtils.OrdenarLamparasNested | data_preprocessing/lamp_utils.py:39-66 | the main column list is a subsequence of the full one |
| RoedUtils.StationNumbers | data_preprocessing/roed_utils.py:10-11 | a city column is cast exactly when every cell is castable, with a gap read as 0 |
| RoedUtils.AgregarColumnaNumEstacion | data_preprocessing/roed_utils.py:5-19 | the frame after the call, or the exception, is the one `NumEstacion` specifies |
| RoedUtils.NumEstacionRaises | data_preprocessing/roed_utils.py:10-11 | it raises exactly when a city column is missing or not castable |
| RoedUtils.NumEstacionEffect | data_preprocessing/roed_utils.py:14-17 | the number column is written, both city columns are dropped, everything else is kept |
| RoedUtils.NumEstacionRows | data_preprocessing/roed_utils.py:10-14 | the number is Rionegro plus Medellín with gaps as 0, so one city alone gives its number and two gaps give 0 |
| RoedUtils.NumEstacionMedellinFirst | data_preprocessing/roed_utils.py:10 | Medellín's error is the one reported when its column is bad |
| RoedUtils.UnirColumnaConsumido | data_preprocessing/roed_utils.py:21-27 | the frame after the call, or the exception, is the one `UnirConsumido` specifies |
| RoedUtils.UnirConsumidoEffect | data_preprocessing/roed_utils.py:25-26 | `Consumido` is gone, the bait-change column keeps its place, and on counts it is positive exactly when either count was; everything else is kept |
| RoedUtils.UnirConsumidoSum | data_preprocessing/roed_utils.py:25 | on two integers the merged count is their sum |
| RoedUtils.UnirConsumidoRaises | data_preprocessing/roed_utils.py:25 | it raises exactly when either column is missing or a row's cells cannot be added, so the read comes before the lenient drop |
| RoedUtils.OrdenarRoedoresRaises | data_preprocessing/roed_utils.py:65 | both views raise exactly when a fixed column is missing, in particular `Localización` |
| RoedUtils.OrdenarRoedoresShape | data_preprocessing/roed_utils.py:32-65 | each view has its listed names in order, all distinct, with the frame's rows and cells |
| RoedUtils.OrdenarRoedoresFamilies | data_preprocessing/roed_utils.py:32-63 | the full view holds every station-state and pesticide column; the main view no pesticide column and not `Fecha pandas` |
| RoedUtils.OrdenarRoedoresNested | data_preprocessing/roed_utils.py:36-63 | the main column list is a subsequence of the full one |
| Footprints.NuevaFechaFootprint | data_preprocessing/date_utils.py:13-21 | `agregar_nueva_fecha` keeps the rows and every column but `Fecha` and `Fecha pandas` |
| Footprints.MesFootprint | data_preprocessing/date_utils.py:37-41 | `columna_mes` keeps the rows and every column but `Mes` |
| Footprints.ZeroFillFootprint | data_preprocessing/general_utils.py:19-21 | the fill keeps every column outside its prefix |
| Footprints.CombineFootprint | data_preprocessing/general_utils.py:46-66 | the combine keeps every column but the new one |
| Footprints.DummiesFootprint | data_preprocessing/general_utils.py:96-113 | `otros_a_dummy` keeps every column but the source and the dropped ones |
| Footprints.CantidadesFootprint | data_preprocessing/general_utils.py:146-161 | `agregar_cantidades_otras` keeps every column but the source, the quantity and the new category columns |
| Footprints.AreaFootprint | data_preprocessing/prev_utils.py:67 | `agregar_area` keeps every column but `Área` |
| Footprints.RenameSubareasFootprint | data_preprocessing/prev_utils.py:82-84 | the renames keep every column outside the list |
| Footprints.SubareaFootprint | data_preprocessing/prev_utils.py:98-99 | `agregar_subarea` keeps every column but `Subárea` |
| Footprints.LamparaFootprint | data_preprocessing/lamp_utils.py:14-17 | `agregar_columna_lampara` keeps every column but `Lámpara` and the two city columns |
| Footprints.NumEstacionFootprint | data_preprocessing/roed_utils.py:14-17 | `agregar_columna_num_estacion` keeps every column but the number and the two city columns |
| Footprints.UnirConsumidoFootprint | data_preprocessing/roed_utils.py:25-26 | `unir_columna_consumido` keeps every column but the two counts |
| Pipeline.RenameIfPresentEffect | data_preprocessing/pipeline.py:39-40 | a guarded rename: an absent column changes nothing; a present one keeps its place and cells under the new name and the old name is gone; it raises exactly when both names are columns |
| Pipeline.Acompanante | data_preprocessing/pipeline.py:29-41 | `Servicio verificado por` becomes `Acompañante`, in place and with its cells, only when present; otherwise nothing changes |
| Pipeline.RenombrarId | data_preprocessing/pipeline.py:60-72 | `_index` becomes `ID`, in place and with its cells, only when present; otherwise nothing changes |
| Pipeline.FillNa | data_preprocessing/pipeline.py:56 | no gap is left, a gap becomes the fill text and every other cell stays |
| Pipeline.AgregarObservaciones | data_preprocessing/pipeline.py:44-57 | the frame after the call, or the exception, is the one `Observaciones` specifies |
| Pipeline.ObservacionesEffect | data_preprocessing/pipeline.py:54-56 | `OBSERVACIONES` moves to `Observaciones` in its place, every gap reading `Sin observaciones` |
| Pipeline.ObservacionesRaises | data_preprocessing/pipeline.py:54-56 | without `OBSERVACIONES` nothing changes, an existing `Observaciones` included; it raises exactly when both spellings are columns |
| Pipeline.FechasSteps | data_preprocessing/pipeline.py:94-96 | the two date steps leave the frame `Fechas` specifies, with the rows kept |
| Pipeline.UbicacionSteps | data_preprocessing/pipeline.py:100-104 | the location steps leave the frame `Ubicacion` specifies |
| Pipeline.TecnicosSteps | data_preprocessing/pipeline.py:109-116 | the fill and combine leave the frame `Tecnicos` specifies |
| Pipeline.PlagasSteps | data_preprocessing/pipeline.py:121-137 | spread, fill and combine leave the frame `Plagas` specifies |
| Pipeline.PlaguicidasSteps | data_preprocessing/pipeline.py:141-155 | dummies, fill and combine leave the frame `Plaguicidas` specifies, in the frame `otros_a_dummy` returned |
| Pipeline.OtrasPrevSteps | data_preprocessing/pipeline.py:160-164 | the three renames leave the frame `OtrasPrev` specifies |
| Pipeline.LamparaSteps | data_preprocessing/pipeline.py:197-206 | the lamp steps leave the frame `Lampara` specifies |
| Pipeline.EspeciesSteps | data_preprocessing/pipeline.py:213-228 | the species steps leave the frame `Especies` specifies |
| Pipeline.EstacionSteps | data_preprocessing/pipeline.py:269-280 | the station steps leave the frame `Estacion` specifies |
| Pipeline.OtrasSteps | data_preprocessing/pipeline.py:232-234 | the renames leave the frame `Otras` specifies |
| Pipeline.Preventivos | data_preprocessing/pipeline.py:85-169 | on success both views are well formed and have as many rows as the raw frame; which raw columns reach them cell for cell, and what their summary columns hold, is stated in `PipelineViews` |
| Pipeline.Lamparas | data_preprocessing/pipeline.py:175-240 | on success both views are well formed and have as many rows as the raw frame; which raw columns reach them cell for cell, and what their summary columns hold, is stated in `PipelineViews` |
| Pipeline.Roedores | data_preprocessing/pipeline.py:247-312 | on success both views are well formed and have as many rows as the raw frame; which raw columns reach them cell for cell, and what their summary columns hold, is stated in `PipelineViews` |
| Pipeline.ProcesarPreventivos | data_preprocessing/pipeline.py:85-169 | works on a copy, modifies nothing, and returns what `Preventivos` specifies |
| Pipeline.ProcesarLamparas | data_preprocessing/pipeline.py:175-240 | works on a copy, modifies nothing, and returns what `Lamparas` specifies |
| Pipeline.ProcesarRoedores | data_preprocessing/pipeline.py:247-312 | works on a copy, modifies nothing, and returns what `Roedores` specifies |
| PipelineStages.CombineSummarises | data_preprocessing/general_utils.py:59-66 | after a combine its column holds, on every row, the combination of the family, which is left alone |
| PipelineStages.FechasFootprint | data_preprocessing/pipeline.py:94-96 | the date stage keeps every column but `Fecha`, `Fecha pandas` and `Mes` |
| PipelineStages.UbicacionFamily | data_preprocessing/pipeline.py:100-104 | the location stage keeps every family not touching `Área`, `Subárea` and the sub-area names |
| PipelineStages.TecnicosFootprint | data_preprocessing/pipeline.py:109-116 | the technician stage keeps every column but `Técnicos` and the technician family |
| PipelineStages.TecnicosSummarises | data_preprocessing/pipeline.py:109-116 | `Técnicos` is the `', '` join of the technicians positive on the row, over the filled columns, `''` when none |
| PipelineStages.PlagasFootprint | data_preprocessing/pipeline.py:121-137 | the pest stage keeps every column but its source, quantity, summary and quantity family |
| PipelineStages.PlagasSummarises | data_preprocessing/pipeline.py:121-137 | `Evidencia de plagas` combines every quantity column, the ones spread from the other-pest text included: `Sin evidencia` when none is positive, else the positive pests joined by `', '` |
| PipelineStages.PlaguicidasFootprint | data_preprocessing/pipeline.py:141-155 | the pesticide stage keeps every column but its source, the dropped dummy, its family and `Plaguicidas utilizados` |
| PipelineStages.OtrasPrevFootprint | data_preprocessing/pipeline.py:160-164 | the renames keep every column but the renamed ones |
| PipelineStages.OtrasFootprint | data_preprocessing/pipeline.py:232-234 | the renames keep every column but the renamed ones |
| PipelineStages.LamparaStageFootprint | data_preprocessing/pipeline.py:197-206 | the lamp stage keeps every column but the lamp, city and lamp-state ones |
| PipelineStages.EspeciesFootprint | data_preprocessing/pipeline.py:213-228 | the species stage keeps every column but the count family, its source and its summary |
| PipelineStages.EspeciesSummarises | data_preprocessing/pipeline.py:223-228 | `Especies encontradas` combines the species columns as the stage found them: `Sin evidencia` when none is positive, else the positive species joined by `', '` |
| PipelineStages.EstacionFootprint | data_preprocessing/pipeline.py:269-280 | the station stage keeps every column but the number, city and station-state ones |
| PipelineStages.EstacionSummarises | data_preprocessing/pipeline.py:269-280 | `Estado de la estación` combines the station states left after the merge: `Consumido` is gone and `Cambio de cebo por consumo` is there |
| PipelineStages.FillThenMerge | data_preprocessing/pipeline.py:271-273 | filling then merging leaves the bait-change count equal to the raw consumed plus raw bait-change counts, gaps read as 0 |
| PipelineStages.EstacionCambio | data_preprocessing/pipeline.py:269-280 | in the rodent stage the bait-change count is the raw consumed count plus the raw bait-change count, gaps read as 0 |
| PipelineStages.UbicacionFootprint | data_preprocessing/pipeline.py:100-104 | the location stage keeps every column but `Área`, `Subárea` and the configured sub-area names |
| PipelineStages.PlaguicidasSummarises | data_preprocessing/pipeline.py:147-155 | `Plaguicidas utilizados` combines the zero-filled pesticide family, names after `/` joined by `' - '`, `''` when none is positive |
| PipelineStages.LamparaStageSummarises | data_preprocessing/pipeline.py:198-206 | `Estado de la lámpara` combines the zero-filled lamp-state family, names after `/` joined by `' - '` |
| PipelineStages.EspeciesFamily | data_preprocessing/pipeline.py:211-228 | the species stage leaves alone every family apart from the count prefix and not touching its source, quantity and summary columns |
| PipelineViews.PreventivosKeeps | data_preprocessing/pipeline.py:85-169 | a raw column that no preventive stage writes, renames or drops reaches both views with its raw cells |
| PipelineViews.PreventivosSede | data_preprocessing/pipeline.py:85-169 | `Sede` is in both views and, when the raw frame has it, with the raw cells |
| PipelineViews.PreventivosTecnicos | data_preprocessing/pipeline.py:107-116 | in both views `Técnicos` is, row by row, the `', '` join of the raw technician columns zero-filled: the date and location stages leave that family alone |
| PipelineViews.PrevViewsSummarise | data_preprocessing/prev_utils.py:6-53 | the views keep the summaries: `Evidencia de plagas` over the quantity family in both, `Plaguicidas utilizados` over the pesticide family in the full view, and the main view's `Plaguicidas utilizados` is the full view's summary |
| PipelineViews.PreventivosSummaries | data_preprocessing/pipeline.py:119-169 | in both views `Evidencia de plagas` combines the quantity columns of the view; in the full view `Plaguicidas utilizados` combines its pesticide columns and the main view holds the same column |
| PipelineViews.LamparasKeeps | data_preprocessing/pipeline.py:175-240 | a raw column that no lamp stage writes, renames or drops reaches both views with its raw cells |
| PipelineViews.LamparasSede | data_preprocessing/pipeline.py:175-240 | `Sede` is in both views and, when the raw frame has it, with the raw cells |
| PipelineViews.LamparasTecnicos | data_preprocessing/pipeline.py:184-193 | in both views `Técnicos` is, row by row, the `', '` join of the raw technician columns zero-filled |
| PipelineViews.LampStagesEspecies | data_preprocessing/pipeline.py:211-234 | after the last lamp stage `Especies encontradas` combines the raw species columns: no earlier stage touches that family |
| PipelineViews.LampViews | data_preprocessing/lamp_utils.py:23-68 | the full view keeps the lamp-state summary, the main view's `Estado de la lámpara` is the full view's summary, and both keep `Especies encontradas` |
| PipelineViews.LamparasSummaries | data_preprocessing/pipeline.py:195-240 | in the full view `Estado de la lámpara` combines its lamp-state columns and the main view holds the same column; in both views `Especies encontradas` combines the raw species columns (`Sin evidencia` when none is positive) |
| PipelineViews.RoedoresKeeps | data_preprocessing/pipeline.py:247-312 | a raw column that no rodent stage writes, renames or drops reaches both views with its raw cells |
| PipelineViews.RoedoresSede | data_preprocessing/pipeline.py:247-312 | `Sede` is in both views and, when the raw frame has it, with the raw cells |
| PipelineViews.RoedoresTecnicos | data_preprocessing/pipeline.py:256-265 | in both views `Técnicos` is, row by row, the `', '` join of the raw technician columns zero-filled |
| PipelineViews.RoedStagesCambio | data_preprocessing/pipeline.py:252-280 | after the station stage the bait-change count is the raw consumed count plus the raw bait-change count, gaps read as 0; both raw counts must be there |
| PipelineViews.RoedViews | data_preprocessing/roed_utils.py:29-65 | both views keep the station-state summary and the bait-change count; the full view keeps the pesticide summary and the main view's `Plaguicidas utilizados` is that summary |
| PipelineViews.RoedoresSummaries | data_preprocessing/pipeline.py:267-312 | in both views `Estado de la estación` combines the station-state columns of the view and `Cambio de cebo por consumo` is the raw consumed plus raw bait-change count; in the full view `Plaguicidas utilizados` combines its pesticide columns and the main view holds the same column |
| ReportGenerator.CountMatches | report_generator.py:114-116 | an equality mask keeps exactly the occurrences of the value |
| ReportGenerator.CountDiffers | report_generator.py:125-127 | an inequality mask keeps all rows but the occurrences of the value |
| ReportGenerator.AtLocation | report_generator.py:114-116 | filtering by `Sede` raises exactly when `Sede` is missing, and otherwise keeps exactly the location's rows, in order, each with that `Sede` |
| ReportGenerator.WithoutMonth | report_generator.py:125-127 | it raises exactly when `Mes` is missing, and otherwise drops exactly the rows of that month and keeps the others in order |
| ReportGenerator.WithoutMonthNoop | report_generator.py:125-127 | a table with no row of the month is unchanged |
| ReportGenerator.WithoutMonthIdempotent | report_generator.py:125-127 | excluding a month twice is excluding it once |
| ReportGenerator.ProcessLocation | report_generator.py:98-132 | every failure is the location's, tagged with its name; success needs `Sede` in all three tables |
| ReportGenerator.LocationRows | report_generator.py:114-121 | with no month excluded, each full view has one row per raw row of the location |
| ReportGenerator.LocationExcludes | report_generator.py:124-127 | with a month given, each full view is the unexcluded one minus exactly that month's rows, and a failure without exclusion is the same failure |
| ReportGenerator.AsList | report_generator.py:226-227 | a single name becomes a one-element list; a list stays |
| ReportGenerator.Prefix | report_generator.py:238 | the prefix is `med` exactly for `Medellín` and `rio` exactly for anything else |
| ReportGenerator.PlainJoin | report_generator.py:256 | replacing accents after joining is joining the replaced names |
| ReportGenerator.FileNameParts | report_generator.py:256-258 | split on `_`, the file name is `Informe`, the locations without accents, and the date with `.docx` |
| ReportGenerator.CollectSections | report_generator.py:236-248 | the loop succeeds exactly when every location does, collects their results in order, and otherwise reports the first failure |
| ReportGenerator.GenerateReport | report_generator.py:211-263 | with `section` required to be `SectionOf` on the loaded tables and month: one section per location in order, or the first failing location's error wrapped as a report failure; a file name exactly when no buffer is asked for |
| ReportGenerator.SectionContents | report_generator.py:236-243 | a location's section carries its prefix and the three full views `process_location_data` returns |
| ReportGenerator.Texts | report_generator.py:297 | the non-missing texts of the column are exactly its text cells |
| ReportGenerator.DateRange | report_generator.py:297 | on a text column with rows, the range is `min - max`, both ends taken from the column and bounding every cell |
| ReportGenerator.SummaryOf | report_generator.py:283-299 | a location's summary fails exactly when some table lacks `Sede`, or it has preventive rows whose date range cannot be computed |
| ReportGenerator.SummaryCounts | report_generator.py:286-297 | each count is the raw rows of that type at the location, the total is their sum, and a date range is given exactly when the location has a preventive row |
| ReportGenerator.FillSummary | report_generator.py:282-299 | the loop succeeds exactly when every location does, with one entry per location, and otherwise reports the first failure |
| ReportGenerator.DataSummary | report_generator.py:266-304 | one summary per location, or the first failing location's error wrapped as a summary failure |

## Left out

- Reading the exports (`leer_data`, `load_api_data` with its environment,
  secrets and SSL handling): the three raw tables are parameters.
- `pd.to_datetime` on free text is the `parse` parameter (text to an
  optional calendar date). `strftime('%b')` uses the English abbreviations
  of the C locale.
- `datetime.now()` in the file name is the `today` parameter, a
  `YYYY-MM-DD` text.
- `add_location_visualizations`, the plots of `data_visualization`, and the
  Word document of `Engine/engine.py` (`generar_informe`, the buffer and
  the saved file) are left out. A section holds the prefix and the three
  full views that would be drawn. Their failures are not modelled.
- `app.py` and `main.py` are glue and UI, and are not part of this model.
- Float columns: counts are integers, and a float that `astype(int)`
  would truncate is not modelled.
- ZeroCell: a text is read as `int()` reads ASCII text (blanks, one sign,
  digits with single underscores between them); the other Unicode
  decimal digits and white space that `int()` also accepts are not read.
- `pd.to_numeric(errors='coerce')` in `agregar_cantidades_otras`
  (`QtyCell`) reads an integer or a plain run of digits; a sign, blanks, a
  fraction or an exponent, which pandas would read, give 0 here, and a
  timestamp gives 0.
- Coerce: an integer is read as nanoseconds only when it fits pandas'
  64-bit range; a float cell, a timestamp's time of day and its time
  zone are not modelled.
- Combine: the column names are split on `name_separator` literally, and
  an empty separator raises. pandas' `str.split` reads a separator longer
  than one character as a regular expression, and splits an empty one off
  as an empty first piece. The pipeline's separators, `/` and
  `hallazgos de `, hold no regular-expression metacharacters, so the
  results agree for them.
- AgregarNuevaFecha, ColumnaMes and the other in-place steps say nothing
  about the frame after they raise. The source writes before some of its
  raises (`Fecha pandas` at `data_preprocessing/date_utils.py:13` before
  the strict parse at line 16; `Mes` at lines 37 and 39 before line 41),
  so a caller could see a half-updated frame. `procesar_*` work on a copy
  and re-raise, so the pipeline never shows that frame.
- Column names that pandas would duplicate are reported as
  `DuplicateName` instead: a rename onto an existing name, or a dummy named
  like an existing column.
- GeneralUtils.Categories: a source column holding numbers or dates gives
  `Unsupported`, because the text of such categories is not modelled.
- ReportGenerator.DateRange: a `Fecha` column that is not all text or gaps
  gives `CompareError`, although pandas would order numbers or timestamps.
  The raw `Fecha` of the exports is text.
- `mes_excluir=None` is modelled as `""`; both are falsy and exclude
  nothing.
- The error texts of the re-raised exceptions are reduced to their cause,
  tagged with the location for `process_location_data`.
- The second parse in `agregar_nueva_fecha`
  (`data_preprocessing/date_utils.py:16`) has no coercion. A non-missing
  `Fecha` that does not parse therefore raises; it does not become
  missing. The model follows the code.
