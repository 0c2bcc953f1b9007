/** The department store, and the multipart body it builds when the data
    carries a location image. */
module DepartamentosStore {
  import opened Seqs
  import opened Assoc
  import opened Js
  import opened Entities
  import opened Lists

  const ImageKey: string := "ubicacion_img"

  /** What is sent to the backend: the data object itself, or a `FormData`
      given as its appended `(key, value)` pairs in order. */
  datatype Payload = Plain(data: Obj) | Multipart(parts: seq<(string, Value)>)

  predicate NotImage(k: string) { k != ImageKey }

  /** `formData.append(key, data[key])` for each key in turn. */
  function Appended(keys: seq<string>, data: Obj): (parts: seq<(string, Value)>)
    ensures |parts| == |keys|
    ensures forall i :: 0 <= i < |keys| ==> parts[i] == (keys[i], Get(data, keys[i]))
  {
    seq(|keys|, i requires 0 <= i < |keys| => (keys[i], Get(data, keys[i])))
  }

  /** The body of a create or an update: with a truthy image, every other
      key in key order and then the image; otherwise the data object. */
  function PayloadFor(data: Obj): Payload {
    if Truthy(Get(data, ImageKey)) then
      Multipart(Appended(Filter(Keys(data), NotImage), data) + [(ImageKey, Get(data, ImageKey))])
    else Plain(data)
  }

  /** Appending keys one at a time: the key at `i` adds its part unless it
      is the image. */
  lemma AppendedStep(data: Obj, i: nat)
    requires i < |data|
    ensures Appended(Filter(Keys(data)[..i + 1], NotImage), data) ==
      Appended(Filter(Keys(data)[..i], NotImage), data) +
      (if data[i].0 != ImageKey then [(data[i].0, Get(data, data[i].0))] else [])
  {
    var key := data[i].0;
    assert Keys(data)[..i + 1] == Keys(data)[..i] + [key];
    FilterSnoc(Keys(data)[..i], key, NotImage);
  }

  /** The loop that builds the `FormData`. */
  method BuildPayload(data: Obj) returns (payload: Payload)
    ensures payload == PayloadFor(data)
  {
    if !Truthy(Get(data, ImageKey)) {
      return Plain(data);
    }
    var parts: seq<(string, Value)> := [];
    for i := 0 to |data|
      invariant parts == Appended(Filter(Keys(data)[..i], NotImage), data)
    {
      var key := data[i].0;
      AppendedStep(data, i);
      if key != ImageKey {
        parts := parts + [(key, Get(data, key))];
      }
    }
    assert Keys(data)[..|data|] == Keys(data);
    parts := parts + [(ImageKey, Get(data, ImageKey))];
    payload := Multipart(parts);
  }

  /** With an image, the body lists every other key of the data as often
      as the data does and in the same order, then the image exactly once
      and last; each part carries the data's value for its key. Without
      one, the data goes unchanged. */
  lemma PayloadShape(data: Obj)
    ensures !Truthy(Get(data, ImageKey)) ==> PayloadFor(data) == Plain(data)
    ensures Truthy(Get(data, ImageKey)) ==>
      var parts := PayloadFor(data).parts;
      |parts| > 0 && parts[|parts| - 1] == (ImageKey, Get(data, ImageKey)) &&
      Keys(parts) == Filter(Keys(data), NotImage) + [ImageKey] &&
      multiset(Keys(parts))[ImageKey] == 1 &&
      (forall k :: k != ImageKey ==> multiset(Keys(parts))[k] == multiset(Keys(data))[k]) &&
      (forall i :: 0 <= i < |parts| ==> parts[i].1 == Get(data, parts[i].0))
  {
    if Truthy(Get(data, ImageKey)) {
      var rest := Filter(Keys(data), NotImage);
      var parts := PayloadFor(data).parts;
      assert Keys(parts) == rest + [ImageKey];
      assert multiset(Keys(parts)) == multiset(rest) + multiset{ImageKey};
      FilterMultiset(Keys(data), NotImage, ImageKey);
      forall k | k != ImageKey
        ensures multiset(Keys(parts))[k] == multiset(Keys(data))[k]
      {
        FilterMultiset(Keys(data), NotImage, k);
      }
    }
  }

  class Store {
    var departamentos: seq<Departamento>
    var loading: bool
    var error: Option<string>

    constructor()
      ensures departamentos == [] && !loading && error.None?
    {
      departamentos := [];
      loading := false;
      error := None;
    }

    /** `fetchDepartamentos`: nothing while a request is in flight; the
        fetched list replaces the old one; a failure keeps it and records
        the message. */
    method FetchDepartamentos(response: Response<seq<Departamento>>)
      modifies this
      ensures old(loading) ==> departamentos == old(departamentos) && loading && error == old(error)
      ensures !old(loading) ==> !loading
      ensures !old(loading) && response.Ok? ==> departamentos == response.value && error.None?
      ensures !old(loading) && response.Err? ==> departamentos == old(departamentos) && error == Some(response.message)
    {
      if loading {
        return;
      }
      loading, error := true, None;
      match response
      case Ok(records) =>
        departamentos, loading := records, false;
      case Err(message) =>
        error, loading := Some(message), false;
    }

    /** `createDepartamento(data)`: sends `PayloadFor(data)`; the new
        record goes first. */
    method CreateDepartamento(data: Obj, response: Response<Departamento>)
      returns (sent: Payload, result: Response<Departamento>)
      modifies this
      ensures sent == PayloadFor(data) && result == response && !loading
      ensures response.Ok? ==> departamentos == [response.value] + old(departamentos) && error.None?
      ensures response.Err? ==> departamentos == old(departamentos) && error == Some(CreatePrefix + response.message)
    {
      loading, error := true, None;
      sent := BuildPayload(data);
      result := response;
      match response
      case Ok(record) =>
        departamentos, loading := [record] + departamentos, false;
      case Err(message) =>
        error, loading := Some(CreatePrefix + message), false;
    }

    /** `updateDepartamento(id, data)`: every department with that id
        becomes the returned record. */
    method UpdateDepartamento(id: string, data: Obj, response: Response<Departamento>)
      returns (sent: Payload, result: Response<Departamento>)
      modifies this
      ensures sent == PayloadFor(data) && result == response && !loading
      ensures response.Ok? ==>
        departamentos == ReplaceById(old(departamentos), DepartamentoId, id, response.value) && error.None?
      ensures response.Err? ==> departamentos == old(departamentos) && error == Some(UpdatePrefix + response.message)
    {
      loading, error := true, None;
      sent := BuildPayload(data);
      result := response;
      match response
      case Ok(record) =>
        departamentos, loading := ReplaceById(departamentos, DepartamentoId, id, record), false;
      case Err(message) =>
        error, loading := Some(UpdatePrefix + message), false;
    }

    /** `deleteDepartamento(id)`; returns the error it rethrows. */
    method DeleteDepartamento(id: string, deleted: Response<()>) returns (thrown: Option<string>)
      modifies this
      ensures !loading
      ensures deleted.Ok? ==> departamentos == RemoveById(old(departamentos), DepartamentoId, id) && error.None? && thrown.None?
      ensures deleted.Err? ==>
        departamentos == old(departamentos) && error == Some(DeletePrefix + deleted.message) && thrown == Some(deleted.message)
    {
      loading, error := true, None;
      match deleted
      case Ok(_) =>
        departamentos, loading, thrown := RemoveById(departamentos, DepartamentoId, id), false, None;
      case Err(message) =>
        error, loading, thrown := Some(DeletePrefix + message), false, Some(message);
    }
  }
}
