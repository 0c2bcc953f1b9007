/** The "new support" dialog: its field list with today's date filled in,
    the initial form data, and the date rewrite done before the ticket is
    created. */
module NuevoSoporte {
  import opened Seqs
  import opened Assoc
  import opened Js
  import opened Entities
  import opened Forms

  const FechaKey: string := "fecha_soporte"
  const DescripcionKey: string := "descripcion_problema"

  /** `getFullYear() + '-' + String(getMonth() + 1).padStart(2, '0') + '-' +
      String(getDate()).padStart(2, '0')`, with the 0-based month. */
  function LocalToday(year: nat, month0: nat, day: nat): string {
    DecimalString(year) + "-" + PadTwo(month0 + 1) + "-" + PadTwo(day)
  }

  /** For a four-digit year, a month and a day of the month, `localToday` is
      `YYYY-MM-DD`: ten characters, dashes at 4 and 7, digits elsewhere, and
      the three numbers read back from their places. */
  lemma LocalTodayFormat(year: nat, month0: nat, day: nat)
    requires 1000 <= year < 10000 && month0 < 12 && 1 <= day <= 31
    ensures var r := LocalToday(year, month0, day);
      |r| == 10 && r[4] == '-' && r[7] == '-' &&
      (forall i :: 0 <= i < 10 && i != 4 && i != 7 ==> '0' <= r[i] <= '9') &&
      ParseDecimal(r[..4]) == year && ParseDecimal(r[5..7]) == month0 + 1 && ParseDecimal(r[8..]) == day
  {
    var y, m, d := DecimalString(year), PadTwo(month0 + 1), PadTwo(day);
    var r := LocalToday(year, month0, day);
    assert r == y + "-" + m + "-" + d;
    assert r[..4] == y;
    assert r[5..7] == m;
    assert r[8..] == d;
    DecimalRoundTrip(year);
  }

  const AsuntoOptions: seq<SelectOption> := [
    SelectOption("soporte técnico", "Soporte técnico"),
    SelectOption("soporte ofimático", "Soporte ofimático"),
    SelectOption("falla del saad", "Falla del SAAD"),
    SelectOption("falla de conexión", "Falla de conexión"),
    SelectOption("falla de internet", "Falla de internet"),
    SelectOption("falla de red", "Falla de red"),
    SelectOption("mantenimiento correctivo", "Mantenimiento Correctivo"),
    SelectOption("mantenimiento preventivo", "Mantenimiento Preventivo"),
    SelectOption("cableado estructurado", "Cableado Estructurado"),
    SelectOption("soporte de red", "Soporte de red")
  ]

  const StatusOptions: seq<SelectOption> := [
    SelectOption("pendiente", "Pendiente"),
    SelectOption("en progreso", "En Progreso"),
    SelectOption("resuelto", "Resuelto")
  ]

  /** The module-level `fields`, whose date default and maximum are the UTC
      date `new Date().toISOString().split('T')[0]`, given as `utcToday`. */
  function BaseFields(utcToday: string): seq<FieldSpec> {
    [ FieldSpec("asunto", "Asunto", SelectInput, false, Undefined, Undefined, AsuntoOptions),
      FieldSpec("status", "Status", SelectInput, false, Undefined, Undefined, StatusOptions),
      FieldSpec(DescripcionKey, "Descripción del Problema", Textarea, true, Undefined, Undefined, []),
      FieldSpec(FechaKey, "Fecha del Soporte", DateInput, false, Str(utcToday), Str(utcToday), []) ]
  }

  function DepartamentoOptions(ds: seq<Departamento>): (r: seq<SelectOption>)
    ensures |r| == |ds| && forall i :: 0 <= i < |ds| ==> r[i] == SelectOption(ds[i].id, ds[i].nombre)
  {
    seq(|ds|, i requires 0 <= i < |ds| => SelectOption(ds[i].id, ds[i].nombre))
  }

  function TecnicoOptions(ts: seq<Tecnico>): (r: seq<SelectOption>)
    ensures |r| == |ts| && forall i :: 0 <= i < |ts| ==> r[i] == SelectOption(ts[i].id, ts[i].nombre)
  {
    seq(|ts|, i requires 0 <= i < |ts| => SelectOption(ts[i].id, ts[i].nombre))
  }

  /** `f.key === 'fecha_soporte' ? { ...f, defaultValue: localToday, max: localToday } : f`. */
  function WithLocalDate(f: FieldSpec, localToday: string): FieldSpec {
    if f.key == FechaKey then f.(defaultValue := Str(localToday), max := Str(localToday)) else f
  }

  /** `dynamicFields`: the four base fields, the date one with the local
      date as default and maximum, then the department search and the
      technician multi-select. Only the description is optional. */
  function DynamicFields(utcToday: string, localToday: string, ds: seq<Departamento>, ts: seq<Tecnico>): (r: seq<FieldSpec>)
    ensures |r| == 6
    ensures FieldKeys(r) == ["asunto", "status", DescripcionKey, FechaKey, "departamento", "tecnicos_asociados"]
    ensures forall i :: 0 <= i < 3 ==> r[i] == BaseFields(utcToday)[i]
    ensures r[3] == BaseFields(utcToday)[3].(defaultValue := Str(localToday), max := Str(localToday))
    ensures r[4].kind == SearchableSelect && r[4].options == DepartamentoOptions(ds)
    ensures r[5].kind == MultiSelect && r[5].options == TecnicoOptions(ts)
    ensures forall i :: 0 <= i < 6 ==> (r[i].optional <==> r[i].key == DescripcionKey)
  {
    var base := BaseFields(utcToday);
    seq(4, i requires 0 <= i < 4 => WithLocalDate(base[i], localToday)) +
    [ FieldSpec("departamento", "Departamento", SearchableSelect, false, Undefined, Undefined, DepartamentoOptions(ds)),
      FieldSpec("tecnicos_asociados", "Técnicos Asociados", MultiSelect, false, Undefined, Undefined, TecnicoOptions(ts)) ]
  }

  /** `initialData`: the six keys in field order, the date bound to the
      local date and every other key to `''` (the technician list starts as
      `''`, not as an empty array). */
  lemma InitialData(utcToday: string, localToday: string, ds: seq<Departamento>, ts: seq<Tecnico>)
    requires localToday != ""
    ensures var init := InitialFormData(DynamicFields(utcToday, localToday, ds, ts));
      Keys(init) == ["asunto", "status", DescripcionKey, FechaKey, "departamento", "tecnicos_asociados"] &&
      Get(init, FechaKey) == Str(localToday) &&
      Get(init, "asunto") == Str("") && Get(init, "status") == Str("") && Get(init, DescripcionKey) == Str("") &&
      Get(init, "departamento") == Str("") && Get(init, "tecnicos_asociados") == Str("")
  {
    var fields := DynamicFields(utcToday, localToday, ds, ts);
    var keys := FieldKeys(fields);
    assert Distinct(keys);
    InitialFormDataKeys(fields);
    DedupOfDistinct(keys);
    InitialFormDataValue(fields, 0);
    InitialFormDataValue(fields, 1);
    InitialFormDataValue(fields, 2);
    InitialFormDataValue(fields, 3);
    InitialFormDataValue(fields, 4);
    InitialFormDataValue(fields, 5);
  }

  /** The validator's verdict never depends on the description: writing
      anything there, the empty string included, leaves every field's
      missing-or-not status as it was. */
  lemma DescriptionNeverBlocks(utcToday: string, localToday: string, ds: seq<Departamento>, ts: seq<Tecnico>,
                               data: Obj, v: Value, i: nat)
    requires i < 6
    ensures var f := DynamicFields(utcToday, localToday, ds, ts)[i];
      Missing(f, Put(data, DescripcionKey, v)) == Missing(f, data)
  {
    var fields := DynamicFields(utcToday, localToday, ds, ts);
    assert FieldKeys(fields)[i] == fields[i].key;
    if fields[i].key != DescripcionKey {
      GetPut(data, DescripcionKey, v, fields[i].key);
    }
  }

  /** `handleSubmit`: copy the data and, when the date is non-empty, replace
      it with the ISO string of noon on that day. */
  method FormatSubmission(data: Obj) returns (formatted: Obj)
    ensures Truthy(Get(data, FechaKey)) ==> Get(formatted, FechaKey) == NoonIso(Get(data, FechaKey))
    ensures !Truthy(Get(data, FechaKey)) ==> formatted == data
    ensures Keys(formatted) == Keys(data)
    ensures forall k :: k != FechaKey ==> Get(formatted, k) == Get(data, k)
  {
    formatted := data;
    var fecha := Get(formatted, FechaKey);
    if Truthy(fecha) {
      assert Lookup(data, FechaKey).Some?;
      KeysPut(data, FechaKey, NoonIso(fecha));
      forall k ensures Get(Put(data, FechaKey, NoonIso(fecha)), k) == if k == FechaKey then NoonIso(fecha) else Get(data, k) {
        GetPut(data, FechaKey, NoonIso(fecha), k);
      }
      formatted := Put(formatted, FechaKey, NoonIso(fecha));
    }
  }
}
