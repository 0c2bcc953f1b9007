/** The ticket store: the fetched list of tickets, the re-entrancy flag,
    the last error, and the technician and department that appear most
    often. Each backend call is a `Response` parameter. */
module HistorialStore {
  import opened Seqs
  import opened Assoc
  import opened Counting
  import opened Entities
  import opened Lists

  /** The technician whose id occurs most often across the tickets'
      expanded lists (ties: the id counted first), as the first ticket
      lists it. */
  function TopTecnico(records: seq<Historial>): Option<Tecnico> {
    TopBy(AllTecnicos(records), TecnicoId)
  }

  /** The department linked to most tickets, likewise. */
  function TopDepartamento(records: seq<Historial>): Option<Departamento> {
    TopBy(AllDepartamentos(records), DepartamentoId)
  }

  /** Counting one more object adds one to its key. */
  lemma TallySnoc<T>(xs: seq<T>, x: T, key: T -> string)
    ensures TallyOf(MapKeys(xs + [x], key)) == Bump(TallyOf(MapKeys(xs, key)), key(x))
  {
    MapKeysConcat(xs, [x], key);
    TallyOfSnoc(MapKeys(xs, key), key(x));
  }

  lemma AllTecnicosStep(records: seq<Historial>, i: nat)
    requires i < |records|
    ensures AllTecnicos(records[..i + 1]) == AllTecnicos(records[..i]) + records[i].tecnicos
  {
    assert records[..i + 1][..i] == records[..i];
  }

  lemma AllDepartamentosStep(records: seq<Historial>, i: nat)
    requires i < |records|
    ensures AllDepartamentos(records[..i + 1]) == AllDepartamentos(records[..i]) +
      (if records[i].departamento.Some? then [records[i].departamento.value] else [])
  {
    assert records[..i + 1][..i] == records[..i];
  }

  /** One more ticket in the technician search: the prefix had no match,
      so the first match is the ticket's own, and a match there is the
      first in all the tickets. */
  lemma FindTecnicoStep(records: seq<Historial>, i: nat, id: string)
    requires i < |records|
    requires FirstWith(AllTecnicos(records[..i]), TecnicoId, id).None?
    ensures FirstWith(AllTecnicos(records[..i + 1]), TecnicoId, id) == FirstWith(records[i].tecnicos, TecnicoId, id)
    ensures FirstWith(records[i].tecnicos, TecnicoId, id).Some? ==>
      FirstWith(AllTecnicos(records), TecnicoId, id) == FirstWith(records[i].tecnicos, TecnicoId, id)
  {
    AllTecnicosStep(records, i);
    FirstWithConcat(AllTecnicos(records[..i]), records[i].tecnicos, TecnicoId, id);
    assert records == records[..i + 1] + records[i + 1..];
    AllTecnicosConcat(records[..i + 1], records[i + 1..]);
    FirstWithConcat(AllTecnicos(records[..i + 1]), AllTecnicos(records[i + 1..]), TecnicoId, id);
  }

  /** The ticket's department has the id. */
  predicate HasDepartamento(h: Historial, id: string) {
    h.departamento.Some? && h.departamento.value.id == id
  }

  /** The same step for the department search. */
  lemma FindDepartamentoStep(records: seq<Historial>, i: nat, id: string)
    requires i < |records|
    requires FirstWith(AllDepartamentos(records[..i]), DepartamentoId, id).None?
    ensures HasDepartamento(records[i], id) ==>
      FirstWith(AllDepartamentos(records), DepartamentoId, id) == records[i].departamento
    ensures !HasDepartamento(records[i], id) ==>
      FirstWith(AllDepartamentos(records[..i + 1]), DepartamentoId, id).None?
  {
    AllDepartamentosStep(records, i);
    var own := if records[i].departamento.Some? then [records[i].departamento.value] else [];
    FirstWithConcat(AllDepartamentos(records[..i]), own, DepartamentoId, id);
    if records[i].departamento.Some? {
      assert own[1..] == [];
    }
    assert records == records[..i + 1] + records[i + 1..];
    AllDepartamentosConcat(records[..i + 1], records[i + 1..]);
    FirstWithConcat(AllDepartamentos(records[..i + 1]), AllDepartamentos(records[i + 1..]), DepartamentoId, id);
  }

  /** The nested `forEach` that fills `tecnicoCounts`. */
  method CountTecnicos(records: seq<Historial>) returns (counts: Tally<string>)
    ensures counts == TallyOf(MapKeys(AllTecnicos(records), TecnicoId))
  {
    counts := [];
    for i := 0 to |records|
      invariant counts == TallyOf(MapKeys(AllTecnicos(records[..i]), TecnicoId))
    {
      counts := CountEach(counts, records[i].tecnicos, TecnicoId, MapKeys(AllTecnicos(records[..i]), TecnicoId));
      AllTecnicosStep(records, i);
      MapKeysConcat(AllTecnicos(records[..i]), records[i].tecnicos, TecnicoId);
    }
    assert records[..|records|] == records;
  }

  /** The department ids counted after one more ticket: the ticket's own,
      when it has a department. */
  lemma DeptKeysStep(records: seq<Historial>, i: nat)
    requires i < |records|
    ensures records[i].departamento.Some? ==>
      MapKeys(AllDepartamentos(records[..i + 1]), DepartamentoId) ==
      MapKeys(AllDepartamentos(records[..i]), DepartamentoId) + [records[i].departamento.value.id]
    ensures records[i].departamento.None? ==>
      MapKeys(AllDepartamentos(records[..i + 1]), DepartamentoId) == MapKeys(AllDepartamentos(records[..i]), DepartamentoId)
  {
    AllDepartamentosStep(records, i);
    if records[i].departamento.Some? {
      MapKeysConcat(AllDepartamentos(records[..i]), [records[i].departamento.value], DepartamentoId);
    }
  }

  /** The `forEach` that fills `departamentoCounts`. */
  method CountDepartamentos(records: seq<Historial>) returns (counts: Tally<string>)
    ensures counts == TallyOf(MapKeys(AllDepartamentos(records), DepartamentoId))
  {
    counts := [];
    ghost var seen: seq<string> := [];
    for i := 0 to |records|
      invariant seen == MapKeys(AllDepartamentos(records[..i]), DepartamentoId)
      invariant counts == TallyOf(seen)
    {
      DeptKeysStep(records, i);
      if records[i].departamento.Some? {
        var d := records[i].departamento.value;
        TallyOfSnoc(seen, d.id);
        counts := Bump(counts, d.id);
        seen := seen + [d.id];
      }
    }
    assert records[..|records|] == records;
  }

  /** The inner `for…of` with `break`: the first ticket that lists the
      technician, and the technician as that ticket lists it. */
  method FindTecnico(records: seq<Historial>, id: string) returns (found: Option<Tecnico>)
    ensures found == FirstWith(AllTecnicos(records), TecnicoId, id)
  {
    found := None;
    var i := 0;
    while i < |records|
      invariant 0 <= i <= |records|
      invariant found.None? && FirstWith(AllTecnicos(records[..i]), TecnicoId, id).None?
    {
      var t := FirstWith(records[i].tecnicos, TecnicoId, id);
      FindTecnicoStep(records, i, id);
      if t.Some? {
        found := t;
        return;
      }
      i := i + 1;
    }
    assert records[..|records|] == records;
  }

  /** The department loop: the first ticket whose department has the id. */
  method FindDepartamento(records: seq<Historial>, id: string) returns (found: Option<Departamento>)
    ensures found == FirstWith(AllDepartamentos(records), DepartamentoId, id)
  {
    found := None;
    var i := 0;
    while i < |records|
      invariant 0 <= i <= |records|
      invariant found.None? && FirstWith(AllDepartamentos(records[..i]), DepartamentoId, id).None?
    {
      FindDepartamentoStep(records, i, id);
      if HasDepartamento(records[i], id) {
        found := records[i].departamento;
        return;
      }
      i := i + 1;
    }
    assert records[..|records|] == records;
  }

  /** The arg-max loop over `Object.entries(tecnicoCounts)` with a strict
      `>`, which looks the winner up in the tickets each time the maximum
      grows. */
  method ComputeTopTecnico(records: seq<Historial>) returns (top: Option<Tecnico>)
    ensures top == TopTecnico(records)
  {
    var counts := CountTecnicos(records);
    ghost var ks := MapKeys(AllTecnicos(records), TecnicoId);
    top := None;
    var maxCount: nat := 0;
    for i := 0 to |counts|
      invariant maxCount == MaxCount(counts[..i])
      invariant top == FoundFor(FirstMaxKey(counts[..i]), AllTecnicos(records), TecnicoId)
    {
      ScanStep(counts, i);
      var (id, count) := counts[i];
      if count > maxCount {
        maxCount := count;
        TallyKeyIn(ks, i);
        var found := FindTecnico(records, id);
        if found.Some? {
          top := found;
        }
      }
    }
    assert counts[..|counts|] == counts;
  }

  /** The same arg-max over `departamentoCounts`. */
  method ComputeTopDepartamento(records: seq<Historial>) returns (top: Option<Departamento>)
    ensures top == TopDepartamento(records)
  {
    var counts := CountDepartamentos(records);
    ghost var ks := MapKeys(AllDepartamentos(records), DepartamentoId);
    top := None;
    var maxCount: nat := 0;
    for i := 0 to |counts|
      invariant maxCount == MaxCount(counts[..i])
      invariant top == FoundFor(FirstMaxKey(counts[..i]), AllDepartamentos(records), DepartamentoId)
    {
      ScanStep(counts, i);
      var (id, count) := counts[i];
      if count > maxCount {
        maxCount := count;
        TallyKeyIn(ks, i);
        var found := FindDepartamento(records, id);
        if found.Some? {
          top := found;
        }
      }
    }
    assert counts[..|counts|] == counts;
  }

  /** There is a top technician exactly when some ticket lists one. It is
      listed by some ticket, no technician id occurs more often, and every
      id counted before it occurs strictly less often. */
  lemma TopTecnicoSpec(records: seq<Historial>)
    ensures TopTecnico(records).None? <==> |AllTecnicos(records)| == 0
    ensures TopTecnico(records).Some? ==>
      var ids := MapKeys(AllTecnicos(records), TecnicoId);
      var id := TopTecnico(records).value.id;
      TopTecnico(records).value in AllTecnicos(records) &&
      (forall y :: y in multiset(ids) ==> multiset(ids)[y] <= multiset(ids)[id]) &&
      exists i :: 0 <= i < |Dedup(ids)| && Dedup(ids)[i] == id &&
        forall j :: 0 <= j < i ==> multiset(ids)[Dedup(ids)[j]] < multiset(ids)[id]
  {
    TopBySpec(AllTecnicos(records), TecnicoId);
  }

  /** The same for the department: absent exactly when no ticket has one. */
  lemma TopDepartamentoSpec(records: seq<Historial>)
    ensures TopDepartamento(records).None? <==> forall i :: 0 <= i < |records| ==> records[i].departamento.None?
    ensures TopDepartamento(records).Some? ==>
      var ids := MapKeys(AllDepartamentos(records), DepartamentoId);
      var id := TopDepartamento(records).value.id;
      TopDepartamento(records).value in AllDepartamentos(records) &&
      (forall y :: y in multiset(ids) ==> multiset(ids)[y] <= multiset(ids)[id]) &&
      exists i :: 0 <= i < |Dedup(ids)| && Dedup(ids)[i] == id &&
        forall j :: 0 <= j < i ==> multiset(ids)[Dedup(ids)[j]] < multiset(ids)[id]
  {
    TopBySpec(AllDepartamentos(records), DepartamentoId);
    NoDepartamentos(records);
  }

  lemma {:induction false} NoDepartamentos(records: seq<Historial>)
    ensures |AllDepartamentos(records)| == 0 <==> forall i :: 0 <= i < |records| ==> records[i].departamento.None?
  {
    if |records| > 0 {
      var p := records[..|records| - 1];
      NoDepartamentos(p);
      assert forall i :: 0 <= i < |p| ==> p[i] == records[i];
    }
  }

  class Store {
    var historial: seq<Historial>
    var loading: bool
    var error: Option<string>
    var topTecnico: Option<Tecnico>
    var topDepartamento: Option<Departamento>

    constructor()
      ensures historial == [] && !loading && error.None? && topTecnico.None? && topDepartamento.None?
    {
      historial := [];
      loading := false;
      error := None;
      topTecnico := None;
      topDepartamento := None;
    }

    /** `fetchHistorial`. With a request already in flight nothing
        changes. Otherwise the fetched list replaces the old one together
        with its top technician and department; a failure keeps the old
        list and records the error's message as it is. */
    method FetchHistorial(response: Response<seq<Historial>>)
      modifies this
      ensures old(loading) ==>
        historial == old(historial) && loading && error == old(error) &&
        topTecnico == old(topTecnico) && topDepartamento == old(topDepartamento)
      ensures !old(loading) ==> !loading
      ensures !old(loading) && response.Ok? ==>
        historial == response.value && error.None? &&
        topTecnico == TopTecnico(response.value) && topDepartamento == TopDepartamento(response.value)
      ensures !old(loading) && response.Err? ==>
        historial == old(historial) && error == Some(response.message) &&
        topTecnico == old(topTecnico) && topDepartamento == old(topDepartamento)
    {
      if loading {
        return;
      }
      loading, error := true, None;
      match response
      case Ok(records) =>
        var t := ComputeTopTecnico(records);
        var d := ComputeTopDepartamento(records);
        historial, topTecnico, topDepartamento, loading := records, t, d, false;
      case Err(message) =>
        error, loading := Some(message), false;
    }

    /** `createHistorial`: the new ticket goes first; a failure keeps the
        list, records the prefixed message and rethrows. */
    method CreateHistorial(response: Response<Historial>) returns (result: Response<Historial>)
      modifies this
      ensures result == response && !loading
      ensures response.Ok? ==> historial == [response.value] + old(historial) && error.None?
      ensures response.Err? ==> historial == old(historial) && error == Some(CreatePrefix + response.message)
      ensures topTecnico == old(topTecnico) && topDepartamento == old(topDepartamento)
    {
      loading, error := true, None;
      result := response;
      match response
      case Ok(record) =>
        historial, loading := [record] + historial, false;
      case Err(message) =>
        error, loading := Some(CreatePrefix + message), false;
    }

    /** `updateHistorial(id, data)`: every ticket with that id becomes the
        returned record. */
    method UpdateHistorial(id: string, response: Response<Historial>) returns (result: Response<Historial>)
      modifies this
      ensures result == response && !loading
      ensures response.Ok? ==> historial == ReplaceById(old(historial), HistorialId, id, response.value) && error.None?
      ensures response.Err? ==> historial == old(historial) && error == Some(UpdatePrefix + response.message)
      ensures topTecnico == old(topTecnico) && topDepartamento == old(topDepartamento)
    {
      loading, error := true, None;
      result := response;
      match response
      case Ok(record) =>
        historial, loading := ReplaceById(historial, HistorialId, id, record), false;
      case Err(message) =>
        error, loading := Some(UpdatePrefix + message), false;
    }

    /** `deleteHistorial(id)`: `deleted` is the backend's answer; on success
        every ticket with that id goes. Returns the error it rethrows. */
    method DeleteHistorial(id: string, deleted: Response<()>) returns (thrown: Option<string>)
      modifies this
      ensures !loading
      ensures deleted.Ok? ==> historial == RemoveById(old(historial), HistorialId, id) && error.None? && thrown.None?
      ensures deleted.Err? ==>
        historial == old(historial) && error == Some(DeletePrefix + deleted.message) && thrown == Some(deleted.message)
      ensures topTecnico == old(topTecnico) && topDepartamento == old(topDepartamento)
    {
      loading, error := true, None;
      match deleted
      case Ok(_) =>
        historial, loading, thrown := RemoveById(historial, HistorialId, id), false, None;
      case Err(message) =>
        error, loading, thrown := Some(DeletePrefix + message), false, Some(message);
    }
  }
}
