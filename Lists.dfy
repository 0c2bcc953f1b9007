/** What the three stores share: the list updates they apply after a
    successful backend call, `list.map(x => x.id === id ? record : x)` and
    `list.filter(x => x.id !== id)`, and the prefixes of the error they
    record when a call fails. */
module Lists {
  import opened Seqs

  const CreatePrefix: string := "Failed to create record: "
  const UpdatePrefix: string := "Failed to update record: "
  const DeletePrefix: string := "Failed to delete record: "

  /** Replaces exactly the elements whose id is `id` by `r`; the length and
      every other element stay as they were. */
  function ReplaceById<R>(s: seq<R>, idOf: R -> string, id: string, r: R): (t: seq<R>)
    ensures |t| == |s|
    ensures forall i :: 0 <= i < |s| ==> t[i] == if idOf(s[i]) == id then r else s[i]
  {
    seq(|s|, i requires 0 <= i < |s| => if idOf(s[i]) == id then r else s[i])
  }

  /** Drops every element whose id is `id` and keeps the others in order. */
  function RemoveById<R>(s: seq<R>, idOf: R -> string, id: string): (t: seq<R>)
    ensures |t| <= |s|
    ensures forall i :: 0 <= i < |t| ==> idOf(t[i]) != id
  {
    Filter(s, x => idOf(x) != id)
  }

  /** Removal loses nothing else: each element with another id keeps its
      multiplicity. */
  lemma RemoveByIdKeeps<R>(s: seq<R>, idOf: R -> string, id: string, x: R)
    requires idOf(x) != id
    ensures multiset(RemoveById(s, idOf, id))[x] == multiset(s)[x]
  {
    FilterMultiset(s, x => idOf(x) != id, x);
  }

  /** Removing an id no element has changes nothing. */
  lemma RemoveByIdAbsent<R>(s: seq<R>, idOf: R -> string, id: string)
    requires forall i :: 0 <= i < |s| ==> idOf(s[i]) != id
    ensures RemoveById(s, idOf, id) == s
  {
    FilterAll(s, x => idOf(x) != id);
  }

  lemma RemoveByIdConcat<R>(a: seq<R>, b: seq<R>, idOf: R -> string, id: string)
    ensures RemoveById(a + b, idOf, id) == RemoveById(a, idOf, id) + RemoveById(b, idOf, id)
  {
    FilterConcat(a, b, x => idOf(x) != id);
  }

  lemma RemoveByIdSnoc<R>(s: seq<R>, x: R, idOf: R -> string, id: string)
    ensures RemoveById(s + [x], idOf, id) == RemoveById(s, idOf, id) + (if idOf(x) != id then [x] else [])
  {
    FilterSnoc(s, x, y => idOf(y) != id);
  }

  /** An element survives removal exactly when it was there with another
      id. */
  lemma RemoveByIdMember<R>(s: seq<R>, idOf: R -> string, id: string, x: R)
    ensures x in RemoveById(s, idOf, id) <==> x in s && idOf(x) != id
  {
    FilterMultiset(s, y => idOf(y) != id, x);
    assert x in RemoveById(s, idOf, id) <==> x in multiset(RemoveById(s, idOf, id));
    assert x in s <==> x in multiset(s);
  }

  /** An update that returns the record under the same id leaves the list
      of ids as it was. */
  lemma ReplaceByIdIds<R>(s: seq<R>, idOf: R -> string, id: string, r: R)
    requires idOf(r) == id
    ensures forall i :: 0 <= i < |s| ==> idOf(ReplaceById(s, idOf, id, r)[i]) == idOf(s[i])
  {
  }

  /** Deleting a record that was just created, under a fresh id, gives the
      list back. */
  lemma RemoveCreated<R>(s: seq<R>, idOf: R -> string, r: R)
    requires forall i :: 0 <= i < |s| ==> idOf(s[i]) != idOf(r)
    ensures RemoveById([r] + s, idOf, idOf(r)) == s
  {
    FilterConcat([r], s, x => idOf(x) != idOf(r));
    FilterAll(s, x => idOf(x) != idOf(r));
    assert Filter([r], x => idOf(x) != idOf(r)) == [] by {
      assert [r][..0] == [];
    }
  }
}
