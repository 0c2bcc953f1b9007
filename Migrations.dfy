/** The five migrations of the `historial` collection, in filename-timestamp
    order. Each file is data (`Migration`: its version and the `up` and
    `down` steps) and a pair of methods on the `App` that do what the file's
    two bodies do; `Run` gives the effect of a step on the list of
    collections. The files live in two directories; only the timestamps
    order them. */
module Migrations {
  import opened Seqs
  import opened Lists
  import opened Schema
  import opened PocketBase

  const HistorialId: string := "pbc_1119805642"

  // 1762788936_created_historial.js: the six initial fields.

  const IdField: Field := Field("text3208210256", "id",
    TextField(15, 15, "^[a-z0-9]+$", "[a-z0-9]{15}", true), false, false, true, true)
  const StatusField: Field := Field("bool2063623452", "status", BoolField, false, false, false, false)
  const DescripcionField: Field := Field("editor26759595", "descripcion_problema",
    EditorField(false, 0), false, false, false, false)
  const TecnicosField: Field := Field("relation2427026673", "tecnicos_asociados",
    RelationField("pbc_1531729310", false, 0, 999), false, false, false, false)
  /** The autodate fields carry no `required` key; it is taken as false. */
  const CreatedField: Field := Field("autodate2990389176", "created", AutodateField(true, false), false, false, false, false)
  const UpdatedField: Field := Field("autodate3332085495", "updated", AutodateField(true, true), false, false, false, false)

  const InitialFields: seq<Field> := [IdField, StatusField, DescripcionField, TecnicosField, CreatedField, UpdatedField]
  const Historial: Collection := Collection(HistorialId, "historial", false, InitialFields)

  // 1763128207 and 1763128641: the `asunto` select field.

  const AsuntoId: string := "select1156485628"
  const SubjectsBefore: seq<string> := ["problemas de red", "soporte técnico", "soporte ofimático"]
  const SubjectsAfter: seq<string> := [
    "soporte técnico", "soporte ofimático", "falla del saad", "falla de conexión", "falla de internet",
    "falla de red", "mantenimiento correctivo", "mantenimiento preventivo", "cableado estructurado",
    "soporte de red"]

  function AsuntoField(values: seq<string>): Field {
    Field(AsuntoId, "asunto", SelectField(1, values), false, false, false, false)
  }

  /** The option values of the ticket form's `asunto` select, in the order
      the page lists them. */
  const FormSubjects: seq<string> := [
    "soporte técnico", "soporte ofimático", "falla del saad", "falla de conexión", "falla de internet",
    "falla de red", "mantenimiento correctivo", "mantenimiento preventivo", "cableado estructurado",
    "soporte de red"]

  // 1769009758 and 1770039471.

  const DepartamentoField: Field := Field("relation1088722923", "departamento",
    RelationField("pbc_3315739933", false, 0, 1), false, false, false, false)
  const FechaField: Field := Field("date1119911313", "fecha_soporte", DateField("", ""), false, false, false, false)

  /** One field-list call of a migration body. */
  datatype FieldEdit = Put(pos: nat, field: Field) | Drop(id: string)

  /** What a migration body does: save a new collection, delete the one a
      key finds, or look one up, edit its fields, and save it. */
  datatype Step = Create(collection: Collection) | Remove(key: string) | Edit(key: string, edit: FieldEdit)

  datatype Migration = Migration(version: nat, up: Step, down: Step)

  const M1762788936: Migration := Migration(1762788936, Create(Historial), Remove(HistorialId))
  const M1763128207: Migration :=
    Migration(1763128207, Edit(HistorialId, Put(4, AsuntoField(SubjectsBefore))), Edit(HistorialId, Drop(AsuntoId)))
  const M1763128641: Migration :=
    Migration(1763128641, Edit(HistorialId, Put(4, AsuntoField(SubjectsAfter))), Edit(HistorialId, Put(4, AsuntoField(SubjectsBefore))))
  const M1769009758: Migration :=
    Migration(1769009758, Edit(HistorialId, Put(5, DepartamentoField)), Edit(HistorialId, Drop(DepartamentoField.id)))
  const M1770039471: Migration :=
    Migration(1770039471, Edit(HistorialId, Put(6, FechaField)), Edit(HistorialId, Drop(FechaField.id)))

  const Ordered: seq<Migration> := [M1762788936, M1763128207, M1763128641, M1769009758, M1770039471]

  function ApplyEdit(fs: seq<Field>, e: FieldEdit): seq<Field> {
    match e
    case Put(pos, f) => AddAt(fs, pos, f)
    case Drop(id) => RemoveById(fs, FieldId, id)
  }

  /** The effect of one step on the list of collections. A lookup that
      finds nothing throws, and so does a save that validation refuses. */
  function Run(cs: seq<Collection>, s: Step): Outcome {
    match s
    case Create(c) => SaveNew(cs, c)
    case Remove(key) =>
      (match Find(cs, key)
       case None => Failed(NotFound(key))
       case Some(k) => Done(DeleteFrom(cs, cs[k])))
    case Edit(key, e) =>
      (match Find(cs, key)
       case None => Failed(NotFound(key))
       case Some(k) => SaveExisting(cs, cs[k].(fields := ApplyEdit(cs[k].fields, e))))
  }

  /** The `up` steps of `ms`, first to last, stopping at the first error. */
  function UpAll(cs: seq<Collection>, ms: seq<Migration>): Outcome
    decreases |ms|
  {
    if |ms| == 0 then Done(cs)
    else match Run(cs, ms[0].up)
      case Failed(e) => Failed(e)
      case Done(next) => UpAll(next, ms[1..])
  }

  /** The `down` steps of `ms`, last to first, stopping at the first error. */
  function DownAll(cs: seq<Collection>, ms: seq<Migration>): Outcome
    decreases |ms|
  {
    if |ms| == 0 then Done(cs)
    else match Run(cs, ms[|ms| - 1].down)
      case Failed(e) => Failed(e)
      case Done(next) => DownAll(next, ms[..|ms| - 1])
  }

  // The migration files as methods on the app.

  /** 1762788936 `up`: save the new `historial` collection. */
  method Up1762788936(app: App) returns (err: Option<MigrationError>)
    modifies app
    ensures Reflects(Run(old(app.collections), M1762788936.up), old(app.collections), app.collections, err)
  {
    err := app.Save(Historial, true);
  }

  /** 1762788936 `down`: look the collection up by id and delete it. */
  method Down1762788936(app: App) returns (err: Option<MigrationError>)
    modifies app
    ensures Reflects(Run(old(app.collections), M1762788936.down), old(app.collections), app.collections, err)
  {
    var found := app.FindCollectionByNameOrId(HistorialId);
    match found
    case None =>
      err := Some(NotFound(HistorialId));
    case Some(c) =>
      app.Delete(c);
      err := None;
  }

  /** The shared shape of the other eight bodies: look `historial` up, make
      one call on its field list, save it. */
  method EditHistorial(app: App, e: FieldEdit) returns (err: Option<MigrationError>)
    modifies app
    ensures Reflects(Run(old(app.collections), Edit(HistorialId, e)), old(app.collections), app.collections, err)
  {
    var found := app.FindCollectionByNameOrId(HistorialId);
    if found.None? {
      return Some(NotFound(HistorialId));
    }
    var c := found.value;
    var fields := new FieldsList(c.fields);
    match e {
      case Put(pos, f) =>
        fields.AddAt(pos, f);
      case Drop(id) =>
        fields.RemoveById(id);
    }
    err := app.Save(c.(fields := fields.fields), false);
  }

  method Up1763128207(app: App) returns (err: Option<MigrationError>)
    modifies app
    ensures Reflects(Run(old(app.collections), M1763128207.up), old(app.collections), app.collections, err)
  {
    err := EditHistorial(app, Put(4, AsuntoField(SubjectsBefore)));
  }

  method Down1763128207(app: App) returns (err: Option<MigrationError>)
    modifies app
    ensures Reflects(Run(old(app.collections), M1763128207.down), old(app.collections), app.collections, err)
  {
    err := EditHistorial(app, Drop(AsuntoId));
  }

  method Up1763128641(app: App) returns (err: Option<MigrationError>)
    modifies app
    ensures Reflects(Run(old(app.collections), M1763128641.up), old(app.collections), app.collections, err)
  {
    err := EditHistorial(app, Put(4, AsuntoField(SubjectsAfter)));
  }

  method Down1763128641(app: App) returns (err: Option<MigrationError>)
    modifies app
    ensures Reflects(Run(old(app.collections), M1763128641.down), old(app.collections), app.collections, err)
  {
    err := EditHistorial(app, Put(4, AsuntoField(SubjectsBefore)));
  }

  method Up1769009758(app: App) returns (err: Option<MigrationError>)
    modifies app
    ensures Reflects(Run(old(app.collections), M1769009758.up), old(app.collections), app.collections, err)
  {
    err := EditHistorial(app, Put(5, DepartamentoField));
  }

  method Down1769009758(app: App) returns (err: Option<MigrationError>)
    modifies app
    ensures Reflects(Run(old(app.collections), M1769009758.down), old(app.collections), app.collections, err)
  {
    err := EditHistorial(app, Drop(DepartamentoField.id));
  }

  method Up1770039471(app: App) returns (err: Option<MigrationError>)
    modifies app
    ensures Reflects(Run(old(app.collections), M1770039471.up), old(app.collections), app.collections, err)
  {
    err := EditHistorial(app, Put(6, FechaField));
  }

  method Down1770039471(app: App) returns (err: Option<MigrationError>)
    modifies app
    ensures Reflects(Run(old(app.collections), M1770039471.down), old(app.collections), app.collections, err)
  {
    err := EditHistorial(app, Drop(FechaField.id));
  }

  // What the files promise.

  /** The collection 1762788936 creates: its id and name, its six fields in
      order under distinct ids, the primary key, and the two timestamps. */
  lemma HistorialSchema()
    ensures Historial.id == HistorialId && Historial.name == "historial"
    ensures Names(Historial.fields) == ["id", "status", "descripcion_problema", "tecnicos_asociados", "created", "updated"]
    ensures Distinct(Ids(Historial.fields))
    ensures IdField.kind.TextField? && IdField.kind.primaryKey && IdField.kind.min == 15 && IdField.kind.max == 15
    ensures IdField.required && IdField.system
    ensures CreatedField.kind.onCreate && !CreatedField.kind.onUpdate
    ensures UpdatedField.kind.onCreate && UpdatedField.kind.onUpdate
  {
  }

  lemma InitialDistinct()
    ensures Distinct(Ids(InitialFields))
  {
    HistorialSchema();
  }

  /** No collection answers to the `historial` id or uses its name. */
  predicate Fresh(cs: seq<Collection>) {
    forall i :: 0 <= i < |cs| ==> !Matches(cs[i], HistorialId) && cs[i].name != "historial"
  }

  /** 1762788936 `up` succeeds exactly when neither the id nor the name is
      taken, and then appends the collection. */
  lemma CreateSpec(cs: seq<Collection>)
    ensures Run(cs, M1762788936.up).Done? <==>
      forall i :: 0 <= i < |cs| ==> cs[i].id != HistorialId && cs[i].name != "historial"
    ensures Run(cs, M1762788936.up).Done? ==> Run(cs, M1762788936.up).store == cs + [Historial]
  {
    HistorialSchema();
    SaveNewSpec(cs, Historial);
  }

  /** 1762788936 `down` fails when nothing answers to the id; otherwise one
      collection goes, and none with its id is left. */
  lemma DeleteSpec(cs: seq<Collection>)
    ensures Run(cs, M1762788936.down).Failed? <==> forall i :: 0 <= i < |cs| ==> !Matches(cs[i], HistorialId)
    ensures Run(cs, M1762788936.down).Done? ==>
      var k := Find(cs, HistorialId).value;
      var after := Run(cs, M1762788936.down).store;
      |after| < |cs| && forall i :: 0 <= i < |after| ==> after[i].id != cs[k].id
  {
    if Find(cs, HistorialId).Some? {
      var k := Find(cs, HistorialId).value;
      RemoveByIdMember(cs, CollectionId, cs[k].id, cs[k]);
      FilterLength(cs, k);
    }
  }

  /** Removing the id of the element at `k` drops at least that element. */
  lemma FilterLength(cs: seq<Collection>, k: nat)
    requires k < |cs|
    ensures |RemoveById(cs, CollectionId, cs[k].id)| < |cs|
  {
    var id := cs[k].id;
    assert cs == cs[..k] + [cs[k]] + cs[k + 1..];
    RemoveByIdConcat(cs[..k] + [cs[k]], cs[k + 1..], CollectionId, id);
    RemoveByIdSnoc(cs[..k], cs[k], CollectionId, id);
  }

  /** On a store without it, 1762788936 `up` adds the collection and `down`
      takes it away again. */
  lemma CreateThenDelete(cs: seq<Collection>)
    requires Fresh(cs)
    ensures Run(cs, M1762788936.up) == Done(cs + [Historial])
    ensures Run(cs + [Historial], M1762788936.down) == Done(cs)
  {
    CreateSpec(cs);
    InstalledOnly(cs, Historial.fields);
    assert cs + [Historial] == Installed(cs, Historial.fields);
    FindOnly(cs + [Historial], |cs|, HistorialId);
    DeleteOnly(cs + [Historial], |cs|, HistorialId);
    assert (cs + [Historial])[..|cs|] == cs;
  }

  /** A field edit on the lone collection that answers to `key`: the edited
      collection replaces it in place, and still answers alone. */
  lemma EditAt(cs: seq<Collection>, k: nat, key: string, e: FieldEdit)
    requires OnlyAt(cs, k, key) && Distinct(Ids(ApplyEdit(cs[k].fields, e)))
    ensures Run(cs, Edit(key, e)) == Done(cs[k := cs[k].(fields := ApplyEdit(cs[k].fields, e))])
    ensures OnlyAt(cs[k := cs[k].(fields := ApplyEdit(cs[k].fields, e))], k, key)
  {
    FindOnly(cs, k, key);
    ReplaceOnly(cs, k, key, cs[k].(fields := ApplyEdit(cs[k].fields, e)));
  }

  /** The migrations that add a field (1763128207, 1769009758, 1770039471):
      when the field's id is new, `up` puts it in (at `pos`, the fields
      before it in place and the rest shifted right, when `pos` is within
      the list) and `down` gives back the store as it was. */
  lemma AddRoundTrip(cs: seq<Collection>, k: nat, pos: nat, f: Field)
    requires OnlyAt(cs, k, HistorialId) && Distinct(Ids(cs[k].fields)) && f.id !in Ids(cs[k].fields)
    ensures var up := Run(cs, Edit(HistorialId, Put(pos, f)));
      up.Done? && up.store == cs[k := cs[k].(fields := AddAt(cs[k].fields, pos, f))] &&
      Run(up.store, Edit(HistorialId, Drop(f.id))) == Done(cs)
    ensures pos <= |cs[k].fields| ==>
      Run(cs, Edit(HistorialId, Put(pos, f))).store[k].fields == cs[k].fields[..pos] + [f] + cs[k].fields[pos..]
  {
    var fs := cs[k].fields;
    AddAtDistinct(fs, pos, f);
    EditAt(cs, k, HistorialId, Put(pos, f));
    var up := cs[k := cs[k].(fields := AddAt(fs, pos, f))];
    AddAtThenRemove(fs, pos, f);
    EditAt(up, k, HistorialId, Drop(f.id));
    assert up[k := up[k].(fields := fs)] == cs;
    if pos <= |fs| {
      AddAtFresh(fs, pos, f);
    }
  }

  lemma AsuntoRoundTrip(cs: seq<Collection>, k: nat)
    requires OnlyAt(cs, k, HistorialId) && Distinct(Ids(cs[k].fields)) && AsuntoId !in Ids(cs[k].fields)
    ensures Run(cs, M1763128207.up).Done?
    ensures Run(Run(cs, M1763128207.up).store, M1763128207.down) == Done(cs)
    ensures 4 <= |cs[k].fields| ==>
      (Run(cs, M1763128207.up).store[k].fields == cs[k].fields[..4] + [AsuntoField(SubjectsBefore)] + cs[k].fields[4..])
  {
    AddRoundTrip(cs, k, 4, AsuntoField(SubjectsBefore));
  }

  lemma DepartamentoRoundTrip(cs: seq<Collection>, k: nat)
    requires OnlyAt(cs, k, HistorialId) && Distinct(Ids(cs[k].fields)) && DepartamentoField.id !in Ids(cs[k].fields)
    ensures Run(cs, M1769009758.up).Done?
    ensures Run(Run(cs, M1769009758.up).store, M1769009758.down) == Done(cs)
    ensures 5 <= |cs[k].fields| ==>
      (Run(cs, M1769009758.up).store[k].fields == cs[k].fields[..5] + [DepartamentoField] + cs[k].fields[5..])
  {
    AddRoundTrip(cs, k, 5, DepartamentoField);
  }

  lemma FechaRoundTrip(cs: seq<Collection>, k: nat)
    requires OnlyAt(cs, k, HistorialId) && Distinct(Ids(cs[k].fields)) && FechaField.id !in Ids(cs[k].fields)
    ensures Run(cs, M1770039471.up).Done?
    ensures Run(Run(cs, M1770039471.up).store, M1770039471.down) == Done(cs)
    ensures 6 <= |cs[k].fields| ==>
      (Run(cs, M1770039471.up).store[k].fields == cs[k].fields[..6] + [FechaField] + cs[k].fields[6..])
  {
    AddRoundTrip(cs, k, 6, FechaField);
  }

  /** The two `asunto` definitions differ in their values only; the new
      values are the ticket form's options, and "problemas de red" is no
      longer one of them. */
  lemma SubjectLists()
    ensures AsuntoField(SubjectsAfter) == AsuntoField(SubjectsBefore).(kind := SelectField(1, SubjectsAfter))
    ensures SubjectsAfter == FormSubjects && |SubjectsAfter| == 10
    ensures SubjectsBefore[1..] == SubjectsAfter[..2]
    ensures "problemas de red" in SubjectsBefore && "problemas de red" !in SubjectsAfter
  {
  }

  /** 1763128641: with `asunto` at index 4, `up` swaps its definition for
      the ten-value one in place (same id, same position, same number of
      fields), and when the old definition was the one 1763128207 added,
      `down` gives back the store as it was. */
  lemma SubjectsUpdate(cs: seq<Collection>, k: nat)
    requires OnlyAt(cs, k, HistorialId) && Distinct(Ids(cs[k].fields))
    requires 4 < |cs[k].fields| && cs[k].fields[4].id == AsuntoId
    ensures Run(cs, M1763128641.up).Done?
    ensures Run(cs, M1763128641.up).store == cs[k := cs[k].(fields := cs[k].fields[4 := AsuntoField(SubjectsAfter)])]
    ensures cs[k].fields[4] == AsuntoField(SubjectsBefore) ==>
      Run(Run(cs, M1763128641.up).store, M1763128641.down) == Done(cs)
  {
    var fs := cs[k].fields;
    var g := AsuntoField(SubjectsAfter);
    AddAtReplace(fs, 4, g);
    assert fs[..4] + [g] + fs[5..] == fs[4 := g];
    AddAtDistinct(fs, 4, g);
    EditAt(cs, k, HistorialId, Put(4, g));
    var up := cs[k := cs[k].(fields := fs[4 := g])];
    if fs[4] == AsuntoField(SubjectsBefore) {
      var h := AsuntoField(SubjectsBefore);
      var fs2 := fs[4 := g];
      AddAtReplace(fs2, 4, h);
      assert fs2[..4] + [h] + fs2[5..] == fs;
      EditAt(up, k, HistorialId, Put(4, h));
      assert up[k := up[k].(fields := fs)] == cs;
    }
  }

  // The five files in order, on a store that has no `historial` yet.

  function Installed(cs: seq<Collection>, fs: seq<Field>): seq<Collection> {
    cs + [Historial.(fields := fs)]
  }

  lemma InstalledOnly(cs: seq<Collection>, fs: seq<Field>)
    requires Fresh(cs)
    ensures OnlyAt(Installed(cs, fs), |cs|, HistorialId)
  {
    assert forall j :: 0 <= j < |cs| ==> Installed(cs, fs)[j] == cs[j];
  }

  /** A field edit on the installed collection. */
  lemma StepInstalled(cs: seq<Collection>, fs: seq<Field>, e: FieldEdit)
    requires Fresh(cs) && Distinct(Ids(ApplyEdit(fs, e)))
    ensures Run(Installed(cs, fs), Edit(HistorialId, e)) == Done(Installed(cs, ApplyEdit(fs, e)))
  {
    InstalledOnly(cs, fs);
    EditAt(Installed(cs, fs), |cs|, HistorialId, e);
    assert Installed(cs, fs)[|cs| := Historial.(fields := ApplyEdit(fs, e))] == Installed(cs, ApplyEdit(fs, e));
  }

  const Fields2: seq<Field> := [IdField, StatusField, DescripcionField, TecnicosField, AsuntoField(SubjectsBefore), CreatedField, UpdatedField]
  const Fields3: seq<Field> := [IdField, StatusField, DescripcionField, TecnicosField, AsuntoField(SubjectsAfter), CreatedField, UpdatedField]
  const Fields4: seq<Field> :=
    [IdField, StatusField, DescripcionField, TecnicosField, AsuntoField(SubjectsAfter), DepartamentoField, CreatedField, UpdatedField]
  const FinalFields: seq<Field> :=
    [IdField, StatusField, DescripcionField, TecnicosField, AsuntoField(SubjectsAfter), DepartamentoField, FechaField, CreatedField, UpdatedField]

  /** 1763128207 after 1762788936: `asunto` goes between
      `tecnicos_asociados` and `created`, and `down` takes it out again. */
  lemma AsuntoStep()
    ensures AddAt(InitialFields, 4, AsuntoField(SubjectsBefore)) == Fields2
    ensures RemoveById(Fields2, FieldId, AsuntoId) == InitialFields
    ensures Names(Fields2) == ["id", "status", "descripcion_problema", "tecnicos_asociados", "asunto", "created", "updated"]
    ensures Distinct(Ids(Fields2))
  {
    HistorialSchema();
    AddAtFresh(InitialFields, 4, AsuntoField(SubjectsBefore));
    AddAtThenRemove(InitialFields, 4, AsuntoField(SubjectsBefore));
    AddAtDistinct(InitialFields, 4, AsuntoField(SubjectsBefore));
  }

  /** 1763128641 after those two: `asunto` is replaced where it stands, and
      `down` puts the three-value definition back. */
  lemma SubjectsStep()
    ensures AddAt(Fields2, 4, AsuntoField(SubjectsAfter)) == Fields3
    ensures AddAt(Fields3, 4, AsuntoField(SubjectsBefore)) == Fields2
    ensures Distinct(Ids(Fields3))
  {
    AsuntoStep();
    AddAtReplace(Fields2, 4, AsuntoField(SubjectsAfter));
    assert Fields2[..4] + [AsuntoField(SubjectsAfter)] + Fields2[5..] == Fields3;
    AddAtDistinct(Fields2, 4, AsuntoField(SubjectsAfter));
    AddAtReplace(Fields3, 4, AsuntoField(SubjectsBefore));
    assert Fields3[..4] + [AsuntoField(SubjectsBefore)] + Fields3[5..] == Fields2;
  }

  /** 1769009758 next: `departamento` lands right after `asunto`. */
  lemma DepartamentoStep()
    ensures AddAt(Fields3, 5, DepartamentoField) == Fields4
    ensures RemoveById(Fields4, FieldId, DepartamentoField.id) == Fields3
    ensures Names(Fields4)[4..6] == ["asunto", "departamento"]
    ensures Distinct(Ids(Fields4))
  {
    SubjectsStep();
    AddAtFresh(Fields3, 5, DepartamentoField);
    AddAtThenRemove(Fields3, 5, DepartamentoField);
    AddAtDistinct(Fields3, 5, DepartamentoField);
  }

  /** 1770039471 last: `fecha_soporte` at index 6. */
  lemma FechaStep()
    ensures AddAt(Fields4, 6, FechaField) == FinalFields
    ensures RemoveById(FinalFields, FieldId, FechaField.id) == Fields4
    ensures Distinct(Ids(FinalFields))
    ensures Names(FinalFields) == ["id", "status", "descripcion_problema", "tecnicos_asociados", "asunto",
      "departamento", "fecha_soporte", "created", "updated"]
  {
    DepartamentoStep();
    AddAtFresh(Fields4, 6, FechaField);
    AddAtThenRemove(Fields4, 6, FechaField);
    AddAtDistinct(Fields4, 6, FechaField);
  }

  /** `up` steps that each succeed, taking `stores[i]` to `stores[i + 1]`,
      run through to the last store. */
  lemma {:induction false} UpChain(stores: seq<seq<Collection>>, ms: seq<Migration>)
    requires |stores| == |ms| + 1
    requires forall i :: 0 <= i < |ms| ==> Run(stores[i], ms[i].up) == Done(stores[i + 1])
    ensures UpAll(stores[0], ms) == Done(stores[|ms|])
    decreases |ms|
  {
    if |ms| > 0 {
      forall i | 0 <= i < |ms[1..]|
        ensures Run(stores[1..][i], ms[1..][i].up) == Done(stores[1..][i + 1])
      {
        assert stores[1..][i] == stores[i + 1] && stores[1..][i + 1] == stores[i + 2];
        assert ms[1..][i] == ms[i + 1];
      }
      UpChain(stores[1..], ms[1..]);
    }
  }

  /** `down` steps that each succeed, taking `stores[i + 1]` back to
      `stores[i]`, run from the last store back to the first. */
  lemma {:induction false} DownChain(stores: seq<seq<Collection>>, ms: seq<Migration>)
    requires |stores| == |ms| + 1
    requires forall i :: 0 <= i < |ms| ==> Run(stores[i + 1], ms[i].down) == Done(stores[i])
    ensures DownAll(stores[|ms|], ms) == Done(stores[0])
    decreases |ms|
  {
    if |ms| > 0 {
      var n := |ms|;
      forall i | 0 <= i < |ms[..n - 1]|
        ensures Run(stores[..n][i + 1], ms[..n - 1][i].down) == Done(stores[..n][i])
      {
        assert stores[..n][i] == stores[i] && stores[..n][i + 1] == stores[i + 1];
        assert ms[..n - 1][i] == ms[i];
      }
      DownChain(stores[..n], ms[..n - 1]);
      assert stores[..n][n - 1] == stores[n - 1];
    }
  }

  /** The stores a fresh install passes through, one per applied file. */
  function InstallStages(cs: seq<Collection>): (r: seq<seq<Collection>>)
    ensures |r| == 6 && r[0] == cs && r[5] == Installed(cs, FinalFields)
  {
    [cs, Installed(cs, InitialFields), Installed(cs, Fields2), Installed(cs, Fields3), Installed(cs, Fields4),
     Installed(cs, FinalFields)]
  }

  /** File 1762788936 takes the store from stage 0 of a fresh install to
      stage 1 and its `down` takes it back. */
  lemma Stage1(cs: seq<Collection>)
    requires Fresh(cs)
    ensures Run(InstallStages(cs)[0], Ordered[0].up) == Done(InstallStages(cs)[1])
    ensures Run(InstallStages(cs)[1], Ordered[0].down) == Done(InstallStages(cs)[0])
  {
    CreateThenDelete(cs);
    assert cs + [Historial] == Installed(cs, InitialFields);
    assert Ordered[0] == M1762788936;
    assert InstallStages(cs)[0] == cs && InstallStages(cs)[1] == Installed(cs, InitialFields);
  }

  /** File 1763128207 takes the store from stage 1 of a fresh install to
      stage 2 and its `down` takes it back. */
  lemma Stage2(cs: seq<Collection>)
    requires Fresh(cs)
    ensures Run(InstallStages(cs)[1], Ordered[1].up) == Done(InstallStages(cs)[2])
    ensures Run(InstallStages(cs)[2], Ordered[1].down) == Done(InstallStages(cs)[1])
  {
    Stage2Up(cs);
    Stage2Down(cs);
  }

  lemma Stage2Up(cs: seq<Collection>)
    requires Fresh(cs)
    ensures Run(InstallStages(cs)[1], Ordered[1].up) == Done(InstallStages(cs)[2])
  {
    AsuntoStep();
    InitialDistinct();
    StepInstalled(cs, InitialFields, Put(4, AsuntoField(SubjectsBefore)));
    assert Ordered[1] == M1763128207;
    assert InstallStages(cs)[1] == Installed(cs, InitialFields) && InstallStages(cs)[2] == Installed(cs, Fields2);
  }

  lemma Stage2Down(cs: seq<Collection>)
    requires Fresh(cs)
    ensures Run(InstallStages(cs)[2], Ordered[1].down) == Done(InstallStages(cs)[1])
  {
    AsuntoStep();
    InitialDistinct();
    StepInstalled(cs, Fields2, Drop(AsuntoId));
    assert Ordered[1] == M1763128207;
    assert InstallStages(cs)[1] == Installed(cs, InitialFields) && InstallStages(cs)[2] == Installed(cs, Fields2);
  }

  /** File 1763128641 takes the store from stage 2 of a fresh install to
      stage 3 and its `down` takes it back. */
  lemma Stage3(cs: seq<Collection>)
    requires Fresh(cs)
    ensures Run(InstallStages(cs)[2], Ordered[2].up) == Done(InstallStages(cs)[3])
    ensures Run(InstallStages(cs)[3], Ordered[2].down) == Done(InstallStages(cs)[2])
  {
    AsuntoStep();
    SubjectsStep();
    StepInstalled(cs, Fields2, Put(4, AsuntoField(SubjectsAfter)));
    StepInstalled(cs, Fields3, Put(4, AsuntoField(SubjectsBefore)));
    assert Ordered[2] == M1763128641;
    assert InstallStages(cs)[2] == Installed(cs, Fields2) && InstallStages(cs)[3] == Installed(cs, Fields3);
  }

  /** File 1769009758 takes the store from stage 3 of a fresh install to
      stage 4 and its `down` takes it back. */
  lemma Stage4(cs: seq<Collection>)
    requires Fresh(cs)
    ensures Run(InstallStages(cs)[3], Ordered[3].up) == Done(InstallStages(cs)[4])
    ensures Run(InstallStages(cs)[4], Ordered[3].down) == Done(InstallStages(cs)[3])
  {
    SubjectsStep();
    DepartamentoStep();
    StepInstalled(cs, Fields3, Put(5, DepartamentoField));
    StepInstalled(cs, Fields4, Drop(DepartamentoField.id));
    assert Ordered[3] == M1769009758;
    assert InstallStages(cs)[3] == Installed(cs, Fields3) && InstallStages(cs)[4] == Installed(cs, Fields4);
  }

  /** File 1770039471 takes the store from stage 4 of a fresh install to
      stage 5 and its `down` takes it back. */
  lemma Stage5(cs: seq<Collection>)
    requires Fresh(cs)
    ensures Run(InstallStages(cs)[4], Ordered[4].up) == Done(InstallStages(cs)[5])
    ensures Run(InstallStages(cs)[5], Ordered[4].down) == Done(InstallStages(cs)[4])
  {
    DepartamentoStep();
    FechaStep();
    StepInstalled(cs, Fields4, Put(6, FechaField));
    StepInstalled(cs, FinalFields, Drop(FechaField.id));
    assert Ordered[4] == M1770039471;
    assert InstallStages(cs)[4] == Installed(cs, Fields4) && InstallStages(cs)[5] == Installed(cs, FinalFields);
  }

  lemma StagesUp(cs: seq<Collection>)
    requires Fresh(cs)
    ensures var st := InstallStages(cs);
      forall i :: 0 <= i < 5 ==> Run(st[i], Ordered[i].up) == Done(st[i + 1])
  {
    var st := InstallStages(cs);
    forall i | 0 <= i < 5
      ensures Run(st[i], Ordered[i].up) == Done(st[i + 1])
    {
      if i == 0 {
        Stage1(cs);
      } else if i == 1 {
        Stage2Up(cs);
      } else if i == 2 {
        Stage3(cs);
      } else if i == 3 {
        Stage4(cs);
      } else {
        Stage5(cs);
      }
    }
  }

  lemma StagesDown(cs: seq<Collection>)
    requires Fresh(cs)
    ensures var st := InstallStages(cs);
      forall i :: 0 <= i < 5 ==> Run(st[i + 1], Ordered[i].down) == Done(st[i])
  {
    var st := InstallStages(cs);
    forall i | 0 <= i < 5
      ensures Run(st[i + 1], Ordered[i].down) == Done(st[i])
    {
      if i == 0 {
        Stage1(cs);
      } else if i == 1 {
        Stage2Down(cs);
      } else if i == 2 {
        Stage3(cs);
      } else if i == 3 {
        Stage4(cs);
      } else {
        Stage5(cs);
      }
    }
  }

  /** Applying the five files in timestamp order to a store without
      `historial` installs it with the nine fields in this order. */
  lemma FreshInstall(cs: seq<Collection>)
    requires Fresh(cs)
    ensures UpAll(cs, Ordered) == Done(Installed(cs, FinalFields))
  {
    StagesUp(cs);
    UpChain(InstallStages(cs), Ordered);
  }

  /** Running the five `down` bodies, newest first, after a fresh install
      gives back the store as it was. */
  lemma FullRollback(cs: seq<Collection>)
    requires Fresh(cs)
    ensures DownAll(Installed(cs, FinalFields), Ordered) == Done(cs)
  {
    StagesDown(cs);
    DownChain(InstallStages(cs), Ordered);
  }
}
