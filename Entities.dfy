/** The records the dashboard reads from its PocketBase backend, after the
    `expand` of their relations, and the outcome of a backend call. Dates
    arrive already decoded: the calendar year, the 1-based month and the
    instant in milliseconds since the epoch, as `new Date(...)` would give
    them; a missing or unparsable date is `None`. */
module Entities {
  import opened Seqs

  datatype Date = Date(year: nat, month: nat, millis: int)

  /** A technician (`tecnicos` collection). A missing `nombre` is `""`. */
  datatype Tecnico = Tecnico(id: string, nombre: string)

  /** A department (`departamentos` collection). */
  datatype Departamento = Departamento(id: string, nombre: string)

  /** A support ticket (`historial` collection) with `expand.tecnicos_asociados`
      (empty when not expanded) and `expand.departamento`. */
  datatype Historial = Historial(
    id: string,
    asunto: string,
    fechaSoporte: Option<Date>,
    created: Option<Date>,
    tecnicos: seq<Tecnico>,
    departamento: Option<Departamento>)

  /** What a backend call produced: a value, or a thrown error and its
      `message`. */
  datatype Response<T> = Ok(value: T) | Err(message: string)

  /** `h.expand?.tecnicos_asociados?.some(t => t.id === id)`. */
  predicate HasTecnico(h: Historial, id: string) {
    exists i :: 0 <= i < |h.tecnicos| && h.tecnicos[i].id == id
  }

  /** `h.expand?.departamento?.nombre`, when truthy. */
  function DeptName(h: Historial): Option<string> {
    if h.departamento.Some? && h.departamento.value.nombre != "" then Some(h.departamento.value.nombre)
    else None
  }

  function HistorialId(h: Historial): string { h.id }
  function TecnicoId(t: Tecnico): string { t.id }
  function DepartamentoId(d: Departamento): string { d.id }

  /** Every expanded technician of every ticket, ticket by ticket. */
  function AllTecnicos(hs: seq<Historial>): seq<Tecnico> {
    if |hs| == 0 then [] else AllTecnicos(hs[..|hs| - 1]) + hs[|hs| - 1].tecnicos
  }

  /** A technician is in the flattened list exactly when some ticket lists
      it. */
  lemma {:induction false} AllTecnicosMembers(hs: seq<Historial>, t: Tecnico)
    ensures t in AllTecnicos(hs) <==> exists i :: 0 <= i < |hs| && t in hs[i].tecnicos
  {
    if |hs| > 0 {
      var p := hs[..|hs| - 1];
      AllTecnicosMembers(p, t);
      assert forall i :: 0 <= i < |p| ==> p[i] == hs[i];
      if t in hs[|hs| - 1].tecnicos {
        assert 0 <= |hs| - 1 < |hs| && t in hs[|hs| - 1].tecnicos;
      }
    }
  }

  /** Every expanded department, ticket by ticket (tickets without one are
      skipped). */
  function AllDepartamentos(hs: seq<Historial>): (ds: seq<Departamento>)
    ensures |ds| <= |hs|
  {
    if |hs| == 0 then []
    else
      var last := hs[|hs| - 1];
      AllDepartamentos(hs[..|hs| - 1]) + (if last.departamento.Some? then [last.departamento.value] else [])
  }

  lemma {:induction false} AllTecnicosConcat(a: seq<Historial>, b: seq<Historial>)
    ensures AllTecnicos(a + b) == AllTecnicos(a) + AllTecnicos(b)
  {
    if |b| == 0 {
      assert a + b == a;
    } else {
      var p := b[..|b| - 1];
      AllTecnicosConcat(a, p);
      assert (a + b)[..|a + b| - 1] == a + p;
    }
  }

  lemma {:induction false} AllDepartamentosConcat(a: seq<Historial>, b: seq<Historial>)
    ensures AllDepartamentos(a + b) == AllDepartamentos(a) + AllDepartamentos(b)
  {
    if |b| == 0 {
      assert a + b == a;
    } else {
      var p := b[..|b| - 1];
      AllDepartamentosConcat(a, p);
      assert (a + b)[..|a + b| - 1] == a + p;
    }
  }
}
