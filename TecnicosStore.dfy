/** The technician store. */
module TecnicosStore {
  import opened Seqs
  import opened Entities
  import opened Lists

  class Store {
    var tecnicos: seq<Tecnico>
    var loading: bool
    var error: Option<string>

    constructor()
      ensures tecnicos == [] && !loading && error.None?
    {
      tecnicos := [];
      loading := false;
      error := None;
    }

    /** `fetchTecnicos`: returns early while a request is in flight; the
        fetched list replaces the old one; a failure keeps it and records
        the message. */
    method FetchTecnicos(response: Response<seq<Tecnico>>)
      modifies this
      ensures old(loading) ==> tecnicos == old(tecnicos) && loading && error == old(error)
      ensures !old(loading) ==> !loading
      ensures !old(loading) && response.Ok? ==> tecnicos == response.value && error.None?
      ensures !old(loading) && response.Err? ==> tecnicos == old(tecnicos) && error == Some(response.message)
    {
      if loading {
        return;
      }
      loading, error := true, None;
      match response
      case Ok(records) =>
        tecnicos, loading := records, false;
      case Err(message) =>
        error, loading := Some(message), false;
    }

    /** `createTecnico(data)`: the new record goes first. */
    method CreateTecnico(response: Response<Tecnico>) returns (result: Response<Tecnico>)
      modifies this
      ensures result == response && !loading
      ensures response.Ok? ==> tecnicos == [response.value] + old(tecnicos) && error.None?
      ensures response.Err? ==> tecnicos == old(tecnicos) && error == Some(CreatePrefix + response.message)
    {
      loading, error := true, None;
      result := response;
      match response
      case Ok(record) =>
        tecnicos, loading := [record] + tecnicos, false;
      case Err(message) =>
        error, loading := Some(CreatePrefix + message), false;
    }

    /** `updateTecnico(id, data)`: only the technicians with that id are
        replaced. */
    method UpdateTecnico(id: string, response: Response<Tecnico>) returns (result: Response<Tecnico>)
      modifies this
      ensures result == response && !loading
      ensures response.Ok? ==> tecnicos == ReplaceById(old(tecnicos), TecnicoId, id, response.value) && error.None?
      ensures response.Err? ==> tecnicos == old(tecnicos) && error == Some(UpdatePrefix + response.message)
    {
      loading, error := true, None;
      result := response;
      match response
      case Ok(record) =>
        tecnicos, loading := ReplaceById(tecnicos, TecnicoId, id, record), false;
      case Err(message) =>
        error, loading := Some(UpdatePrefix + message), false;
    }

    /** `deleteTecnico(id)`; returns the error it rethrows. */
    method DeleteTecnico(id: string, deleted: Response<()>) returns (thrown: Option<string>)
      modifies this
      ensures !loading
      ensures deleted.Ok? ==> tecnicos == RemoveById(old(tecnicos), TecnicoId, id) && error.None? && thrown.None?
      ensures deleted.Err? ==>
        tecnicos == old(tecnicos) && error == Some(DeletePrefix + deleted.message) && thrown == Some(deleted.message)
    {
      loading, error := true, None;
      match deleted
      case Ok(_) =>
        tecnicos, loading, thrown := RemoveById(tecnicos, TecnicoId, id), false, None;
      case Err(message) =>
        error, loading, thrown := Some(DeletePrefix + message), false, Some(message);
    }
  }
}
