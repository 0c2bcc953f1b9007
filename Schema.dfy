/** The PocketBase collection schema the migrations edit: field records,
    collections, and the two field-list operations the migrations call.
    `fields.addAt(pos, f)` is taken to drop any field with `f`'s id and then
    insert `f` at `pos` (at the end when `pos` is past it); `removeById(id)`
    drops the fields with that id and does nothing when there is none. */
module Schema {
  import opened Seqs
  import opened Lists

  /** The type-specific attributes of a field. */
  datatype FieldKind =
    | TextField(min: nat, max: nat, pattern: string, autogeneratePattern: string, primaryKey: bool)
    | BoolField
    | EditorField(convertURLs: bool, maxSize: nat)
    | RelationField(collectionId: string, cascadeDelete: bool, minSelect: nat, maxSelect: nat)
    | AutodateField(onCreate: bool, onUpdate: bool)
    | SelectField(maxSelect: nat, values: seq<string>)
    | DateField(minDate: string, maxDate: string)

  datatype Field = Field(id: string, name: string, kind: FieldKind, hidden: bool, presentable: bool, required: bool, system: bool)

  /** A collection; its rules are all `null` and its index list empty in
      every migration, and are not modelled. */
  datatype Collection = Collection(id: string, name: string, system: bool, fields: seq<Field>)

  function FieldId(f: Field): string { f.id }
  function FieldName(f: Field): string { f.name }
  function CollectionId(c: Collection): string { c.id }

  function Names(fs: seq<Field>): (r: seq<string>)
    ensures |r| == |fs|
    ensures forall i :: 0 <= i < |fs| ==> r[i] == fs[i].name
  {
    seq(|fs|, i requires 0 <= i < |fs| => fs[i].name)
  }

  function Ids(fs: seq<Field>): (r: seq<string>)
    ensures |r| == |fs|
    ensures forall i :: 0 <= i < |fs| ==> r[i] == fs[i].id
  {
    seq(|fs|, i requires 0 <= i < |fs| => fs[i].id)
  }

  function Min(a: nat, b: nat): nat { if a <= b then a else b }

  /** `fields.addAt(pos, f)`. */
  function AddAt(fs: seq<Field>, pos: nat, f: Field): seq<Field> {
    var rest := RemoveById(fs, FieldId, f.id);
    var p := Min(pos, |rest|);
    rest[..p] + [f] + rest[p..]
  }

  /** Removing an id that no field has changes nothing. */
  lemma RemoveAbsent(fs: seq<Field>, id: string)
    requires id !in Ids(fs)
    ensures RemoveById(fs, FieldId, id) == fs
  {
    assert forall i :: 0 <= i < |fs| ==> fs[i].id == Ids(fs)[i];
    RemoveByIdAbsent(fs, FieldId, id);
  }

  /** Removal and concatenation commute. */
  lemma RemoveConcat(a: seq<Field>, b: seq<Field>, id: string)
    ensures RemoveById(a + b, FieldId, id) == RemoveById(a, FieldId, id) + RemoveById(b, FieldId, id)
  {
    RemoveByIdConcat(a, b, FieldId, id);
  }

  /** A field whose id is new goes in at `pos`: the fields before it stay
      where they are and the others move one place right. */
  lemma AddAtFresh(fs: seq<Field>, pos: nat, f: Field)
    requires f.id !in Ids(fs) && pos <= |fs|
    ensures AddAt(fs, pos, f) == fs[..pos] + [f] + fs[pos..]
    ensures |AddAt(fs, pos, f)| == |fs| + 1 && AddAt(fs, pos, f)[pos] == f
  {
    RemoveAbsent(fs, f.id);
  }

  lemma IdsConcat(a: seq<Field>, b: seq<Field>)
    ensures Ids(a + b) == Ids(a) + Ids(b)
  {
  }

  lemma AbsentSlices(fs: seq<Field>, id: string, p: nat)
    requires id !in Ids(fs) && p <= |fs|
    ensures RemoveById(fs[..p], FieldId, id) == fs[..p]
    ensures RemoveById(fs[p..], FieldId, id) == fs[p..]
  {
    assert Ids(fs[..p]) == Ids(fs)[..p];
    assert Ids(fs[p..]) == Ids(fs)[p..];
    RemoveAbsent(fs[..p], id);
    RemoveAbsent(fs[p..], id);
  }

  /** `removeById` undoes an `addAt` of a field whose id was new. */
  lemma AddAtThenRemove(fs: seq<Field>, pos: nat, f: Field)
    requires f.id !in Ids(fs)
    ensures RemoveById(AddAt(fs, pos, f), FieldId, f.id) == fs
  {
    RemoveAbsent(fs, f.id);
    var p := Min(pos, |fs|);
    var before, after := fs[..p], fs[p..];
    assert AddAt(fs, pos, f) == before + [f] + after;
    RemoveByIdConcat(before + [f], after, FieldId, f.id);
    RemoveByIdSnoc(before, f, FieldId, f.id);
    AbsentSlices(fs, f.id, p);
    assert before + after == fs;
  }

  /** The ids after an `addAt` are those left by the removal plus the new one. */
  lemma AddAtIdsMultiset(fs: seq<Field>, pos: nat, f: Field)
    ensures multiset(Ids(AddAt(fs, pos, f))) == multiset(Ids(RemoveById(fs, FieldId, f.id))) + multiset{f.id}
  {
    var rest := RemoveById(fs, FieldId, f.id);
    var p := Min(pos, |rest|);
    IdsConcat(rest[..p] + [f], rest[p..]);
    IdsConcat(rest[..p], [f]);
    IdsConcat(rest[..p], rest[p..]);
    assert rest[..p] + rest[p..] == rest;
  }

  /** After an `addAt`, exactly one field has the added id. */
  lemma AddAtOnce(fs: seq<Field>, pos: nat, f: Field)
    ensures multiset(Ids(AddAt(fs, pos, f)))[f.id] == 1
  {
    RemovedGone(fs, f.id);
    AddAtIdsMultiset(fs, pos, f);
  }

  /** An `addAt` keeps the ids of a list distinct. */
  lemma AddAtDistinct(fs: seq<Field>, pos: nat, f: Field)
    requires Distinct(Ids(fs))
    ensures Distinct(Ids(AddAt(fs, pos, f)))
  {
    var r := Ids(AddAt(fs, pos, f));
    forall i, j | 0 <= i < j < |r|
      ensures r[i] != r[j]
    {
      if r[i] == r[j] {
        RepeatMultiplicity(r, i, j);
        if r[i] == f.id {
          AddAtOnce(fs, pos, f);
        } else {
          AddAtIdsMultiset(fs, pos, f);
          KeptIdsBound(fs, f.id, r[i]);
        }
      }
    }
  }

  /** Removing fields from a list with distinct ids keeps each id at most
      once. */
  lemma {:induction false} KeptIdsBound(fs: seq<Field>, id: string, x: string)
    requires Distinct(Ids(fs))
    ensures multiset(Ids(RemoveById(fs, FieldId, id)))[x] <= 1
    decreases |fs|
  {
    if |fs| > 0 {
      var p := fs[..|fs| - 1];
      var last := fs[|fs| - 1];
      assert Ids(p) == Ids(fs)[..|fs| - 1];
      assert Distinct(Ids(p));
      KeptIdsBound(p, id, x);
      assert fs == p + [last];
      RemoveByIdSnoc(p, last, FieldId, id);
      assert last.id !in Ids(p) by {
        assert Ids(fs)[|fs| - 1] == last.id;
      }
      KeptIdsSubset(p, id, last.id);
      var rp := RemoveById(p, FieldId, id);
      if last.id != id {
        assert Ids(RemoveById(fs, FieldId, id)) == Ids(rp) + [last.id];
      } else {
        assert RemoveById(fs, FieldId, id) == rp;
      }
    }
  }

  lemma KeptIdsSubset(fs: seq<Field>, id: string, x: string)
    requires x !in Ids(fs)
    ensures x !in Ids(RemoveById(fs, FieldId, id))
  {
    var rest := RemoveById(fs, FieldId, id);
    if x in Ids(rest) {
      var i :| 0 <= i < |rest| && rest[i].id == x;
      RemoveByIdMember(fs, FieldId, id, rest[i]);
    }
  }

  /** No field with the removed id is left. */
  lemma RemovedGone(fs: seq<Field>, id: string)
    ensures id !in Ids(RemoveById(fs, FieldId, id))
  {
  }

  /** In a list with distinct ids, the field at index `i` is the only one
      with its id, so removing that id takes out just that field. */
  lemma RemoveAt(fs: seq<Field>, i: nat)
    requires Distinct(Ids(fs)) && i < |fs|
    ensures RemoveById(fs, FieldId, fs[i].id) == fs[..i] + fs[i + 1..]
  {
    var id := fs[i].id;
    assert fs == fs[..i] + [fs[i]] + fs[i + 1..];
    RemoveConcat(fs[..i] + [fs[i]], fs[i + 1..], id);
    RemoveConcat(fs[..i], [fs[i]], id);
    RemoveAroundDistinct(fs, i);
    RemoveSingle(fs[i]);
  }

  /** The fields on either side of the one at `i` do not have its id. */
  lemma RemoveAroundDistinct(fs: seq<Field>, i: nat)
    requires Distinct(Ids(fs)) && i < |fs|
    ensures RemoveById(fs[..i], FieldId, fs[i].id) == fs[..i]
    ensures RemoveById(fs[i + 1..], FieldId, fs[i].id) == fs[i + 1..]
  {
    var id := fs[i].id;
    assert Ids(fs[..i]) == Ids(fs)[..i];
    assert Ids(fs[i + 1..]) == Ids(fs)[i + 1..];
    RemoveAbsent(fs[..i], id);
    RemoveAbsent(fs[i + 1..], id);
  }

  lemma RemoveSingle(f: Field)
    ensures RemoveById([f], FieldId, f.id) == []
  {
    RemoveByIdSnoc([], f, FieldId, f.id);
    assert [] + [f] == [f];
  }

  /** An `addAt` at the index of the field with the same id replaces that
      field in place: the length and every other field stay as they were. */
  lemma AddAtReplace(fs: seq<Field>, i: nat, g: Field)
    requires Distinct(Ids(fs)) && i < |fs| && g.id == fs[i].id
    ensures AddAt(fs, i, g) == fs[..i] + [g] + fs[i + 1..]
    ensures |AddAt(fs, i, g)| == |fs|
  {
    RemoveAt(fs, i);
    var rest := fs[..i] + fs[i + 1..];
    assert rest[..i] == fs[..i];
    assert rest[i..] == fs[i + 1..];
  }
}
