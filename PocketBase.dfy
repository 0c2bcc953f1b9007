/** The part of the PocketBase app the migrations call: looking a collection
    up by name or id, saving it (new or existing), deleting it, and the
    in-place field list of a collection. These are library operations whose
    code is not part of this model; their behaviour here is an assumption,
    stated with each one. */
module PocketBase {
  import opened Seqs
  import opened Lists
  import opened Schema

  /** Why a store operation fails. */
  datatype MigrationError =
    | NotFound(key: string)
    | Taken(id: string, name: string)
    | DuplicateFieldId(collection: string)

  /** What a migration body leaves: the new list of collections, or the
      error it threw (and then the store is as it was). */
  datatype Outcome = Done(store: seq<Collection>) | Failed(error: MigrationError)

  predicate Matches(c: Collection, key: string) {
    c.id == key || c.name == key
  }

  /** `findCollectionByNameOrId(key)`: the first collection, in store order,
      whose id or name is `key`. */
  function Find(cs: seq<Collection>, key: string): (r: Option<nat>)
    ensures r.None? <==> forall i :: 0 <= i < |cs| ==> !Matches(cs[i], key)
    ensures r.Some? ==> r.value < |cs| && Matches(cs[r.value], key)
    ensures r.Some? ==> forall i :: 0 <= i < r.value ==> !Matches(cs[i], key)
  {
    if |cs| == 0 then None
    else if Matches(cs[0], key) then Some(0)
    else match Find(cs[1..], key)
      case None => None
      case Some(i) => Some(i + 1)
  }

  /** The collection `key` names is the one at `k`, by its id, and no other
      collection has `key` as its id or name. */
  predicate OnlyAt(cs: seq<Collection>, k: nat, key: string) {
    k < |cs| && cs[k].id == key && forall j :: 0 <= j < |cs| && j != k ==> !Matches(cs[j], key)
  }

  /** When exactly one collection answers to `key`, the lookup finds it. */
  lemma FindOnly(cs: seq<Collection>, k: nat, key: string)
    requires OnlyAt(cs, k, key)
    ensures Find(cs, key) == Some(k)
  {
    assert Matches(cs[k], key);
  }

  /** `app.save(collection)` of a collection built with `new Collection`:
      validation refuses duplicate field ids and an id or a name that
      another collection already has; otherwise it is added at the end. */
  function SaveNew(cs: seq<Collection>, c: Collection): Outcome {
    if !Distinct(Ids(c.fields)) then Failed(DuplicateFieldId(c.id))
    else if exists i :: 0 <= i < |cs| && (cs[i].id == c.id || cs[i].name == c.name) then Failed(Taken(c.id, c.name))
    else Done(cs + [c])
  }

  /** `app.save(collection)` of a collection that was looked up: validation
      refuses duplicate field ids; otherwise the stored collection with that
      id is replaced. */
  function SaveExisting(cs: seq<Collection>, c: Collection): Outcome {
    if !Distinct(Ids(c.fields)) then Failed(DuplicateFieldId(c.id))
    else Done(ReplaceById(cs, CollectionId, c.id, c))
  }

  /** `app.delete(collection)`: the collection with its id goes. */
  function DeleteFrom(cs: seq<Collection>, c: Collection): seq<Collection> {
    RemoveById(cs, CollectionId, c.id)
  }

  /** Saving a collection that is new by id and by name, with distinct field
      ids, appends it; any clash makes the save fail. */
  lemma SaveNewSpec(cs: seq<Collection>, c: Collection)
    ensures SaveNew(cs, c).Done? <==>
      Distinct(Ids(c.fields)) && forall i :: 0 <= i < |cs| ==> cs[i].id != c.id && cs[i].name != c.name
    ensures SaveNew(cs, c).Done? ==> SaveNew(cs, c).store == cs + [c]
  {
  }

  /** Deleting the lone collection that answers to `key` removes it and
      leaves every other collection in order. */
  lemma DeleteOnly(cs: seq<Collection>, k: nat, key: string)
    requires OnlyAt(cs, k, key)
    ensures DeleteFrom(cs, cs[k]) == cs[..k] + cs[k + 1..]
    ensures forall i :: 0 <= i < |DeleteFrom(cs, cs[k])| ==> !Matches(DeleteFrom(cs, cs[k])[i], key)
  {
    assert cs == cs[..k] + [cs[k]] + cs[k + 1..];
    RemoveByIdConcat(cs[..k] + [cs[k]], cs[k + 1..], CollectionId, key);
    RemoveByIdSnoc(cs[..k], cs[k], CollectionId, key);
    assert forall i :: 0 <= i < k ==> cs[..k][i] == cs[i];
    RemoveByIdAbsent(cs[..k], CollectionId, key);
    RemoveByIdAbsent(cs[k + 1..], CollectionId, key);
    var rest := cs[..k] + cs[k + 1..];
    forall i | 0 <= i < |rest|
      ensures !Matches(rest[i], key)
    {
      if i < k {
        assert rest[i] == cs[i];
      } else {
        assert rest[i] == cs[i + 1];
      }
    }
  }

  /** Replacing the lone collection that answers to `key` with one under the
      same id changes that position only, and it still answers alone. */
  lemma ReplaceOnly(cs: seq<Collection>, k: nat, key: string, c: Collection)
    requires OnlyAt(cs, k, key) && c.id == key
    ensures ReplaceById(cs, CollectionId, key, c) == cs[k := c]
    ensures OnlyAt(cs[k := c], k, key)
  {
    var r := ReplaceById(cs, CollectionId, key, c);
    forall i | 0 <= i < |cs|
      ensures r[i] == cs[k := c][i]
    {
      if i != k {
        assert !Matches(cs[i], key);
      }
    }
  }

  /** A collection's `fields`, which `addAt` and `removeById` change in
      place. */
  class FieldsList {
    var fields: seq<Field>

    constructor(fs: seq<Field>)
      ensures fields == fs
    {
      fields := fs;
    }

    /** `fields.addAt(pos, f)`, as described in `Schema`. */
    method AddAt(pos: nat, f: Field)
      modifies this
      ensures fields == Schema.AddAt(old(fields), pos, f)
    {
      fields := Schema.AddAt(fields, pos, f);
    }

    /** `fields.removeById(id)`. */
    method RemoveById(id: string)
      modifies this
      ensures fields == Lists.RemoveById(old(fields), FieldId, id)
    {
      fields := Lists.RemoveById(fields, FieldId, id);
    }
  }

  /** The `app` handle a migration receives: its collections in store
      order. */
  class App {
    var collections: seq<Collection>

    constructor(cs: seq<Collection>)
      ensures collections == cs
    {
      collections := cs;
    }

    /** `app.findCollectionByNameOrId(key)`; `None` stands for the error it
        throws when nothing answers to `key`. */
    method FindCollectionByNameOrId(key: string) returns (found: Option<Collection>)
      ensures found.None? <==> forall i :: 0 <= i < |collections| ==> !Matches(collections[i], key)
      ensures found.Some? ==> exists i :: 0 <= i < |collections| && found.value == collections[i] && Matches(found.value, key)
      ensures found.Some? ==> found.value == collections[Find(collections, key).value]
    {
      match Find(collections, key)
      case None =>
        found := None;
      case Some(i) =>
        found := Some(collections[i]);
    }

    /** `app.save(collection)`; `isNew` tells a collection built with
        `new Collection` from one that was looked up. */
    method Save(c: Collection, isNew: bool) returns (err: Option<MigrationError>)
      modifies this
      ensures Reflects(if isNew then SaveNew(old(collections), c) else SaveExisting(old(collections), c),
        old(collections), collections, err)
    {
      var outcome := if isNew then SaveNew(collections, c) else SaveExisting(collections, c);
      match outcome
      case Done(s) =>
        collections, err := s, None;
      case Failed(e) =>
        err := Some(e);
    }

    /** `app.delete(collection)`. */
    method Delete(c: Collection)
      modifies this
      ensures collections == DeleteFrom(old(collections), c)
    {
      collections := DeleteFrom(collections, c);
    }
  }

  /** The store and the thrown error after a body whose effect is
      `outcome`. */
  predicate Reflects(outcome: Outcome, before: seq<Collection>, after: seq<Collection>, err: Option<MigrationError>) {
    match outcome
    case Done(s) => after == s && err.None?
    case Failed(e) => after == before && err == Some(e)
  }
}
