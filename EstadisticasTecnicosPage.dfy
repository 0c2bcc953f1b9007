/** The per-technician statistics page: the technician list gathered from
    the tickets' expanded technicians through a `Map`, the auto-selection
    of the first technician, the title's name fallback, and the two charts
    it renders for the selection. */
module EstadisticasTecnicosPage {
  import opened Seqs
  import opened Assoc
  import opened Counting
  import opened Entities
  import opened Periods
  import opened RadarChart
  import Radar = EstadisticasTecnicosRadar
  import Depts = EstadisticasTecnicosDepartamentos

  /** `if (t.id && t.nombre)`. */
  predicate IsListed(t: Tecnico) { t.id != "" && t.nombre != "" }

  function Pair(t: Tecnico): (string, string) { (t.id, t.nombre) }

  /** The `tecnicos.set(t.id, t.nombre)` calls one ticket makes, in order. */
  function Listed(ts: seq<Tecnico>): seq<(string, string)> {
    if |ts| == 0 then []
    else Listed(ts[..|ts| - 1]) + (if IsListed(ts[|ts| - 1]) then [Pair(ts[|ts| - 1])] else [])
  }

  /** The `set` calls of the whole nested `forEach`. */
  function ListedIn(hs: seq<Historial>): seq<(string, string)> {
    if |hs| == 0 then [] else ListedIn(hs[..|hs| - 1]) + Listed(hs[|hs| - 1].tecnicos)
  }

  /** `Array.from(tecnicos, ([id, nombre]) => ({ id, nombre }))`. */
  function FromMap(m: Assoc<string, string>): (r: seq<Tecnico>)
    ensures |r| == |m|
    ensures forall i :: 0 <= i < |m| ==> r[i] == Tecnico(m[i].0, m[i].1)
  {
    seq(|m|, i requires 0 <= i < |m| => Tecnico(m[i].0, m[i].1))
  }

  /** The `tecnicosList` the effect computes. */
  function TecnicosList(hs: seq<Historial>): seq<Tecnico> {
    FromMap(PutAll([], ListedIn(hs)))
  }

  /** The `set` calls are those of the listed technicians, ticket by
      ticket, each in its ticket's order. */
  lemma {:induction false} ListedIsFilter(ts: seq<Tecnico>)
    ensures Listed(ts) == MapKeys(Filter(ts, IsListed), Pair)
  {
    if |ts| > 0 {
      var p := ts[..|ts| - 1];
      ListedIsFilter(p);
      assert ts == p + [ts[|ts| - 1]];
      FilterSnoc(p, ts[|ts| - 1], IsListed);
      if IsListed(ts[|ts| - 1]) {
        MapKeysSnoc(Filter(p, IsListed), ts[|ts| - 1], Pair);
      }
    }
  }

  lemma {:induction false} ListedInIsFilter(hs: seq<Historial>)
    ensures ListedIn(hs) == MapKeys(Filter(AllTecnicos(hs), IsListed), Pair)
  {
    if |hs| > 0 {
      var p := hs[..|hs| - 1];
      ListedInIsFilter(p);
      ListedIsFilter(hs[|hs| - 1].tecnicos);
      assert AllTecnicos(hs) == AllTecnicos(p) + hs[|hs| - 1].tecnicos;
      FilterConcat(AllTecnicos(p), hs[|hs| - 1].tecnicos, IsListed);
      MapKeysConcat(Filter(AllTecnicos(p), IsListed), Filter(hs[|hs| - 1].tecnicos, IsListed), Pair);
    }
  }

  lemma {:induction false} PutAllConcat<K, V>(m: Assoc<K, V>, a: seq<(K, V)>, b: seq<(K, V)>)
    ensures PutAll(m, a + b) == PutAll(PutAll(m, a), b)
  {
    if |b| == 0 {
      assert a + b == a;
    } else {
      var p := b[..|b| - 1];
      PutAllConcat(m, a, p);
      assert (a + b)[..|a + b| - 1] == a + p;
    }
  }

  /** The inner `forEach` over one ticket's technicians. */
  method SetListed(m: Assoc<string, string>, ts: seq<Tecnico>) returns (r: Assoc<string, string>)
    ensures r == PutAll(m, Listed(ts))
  {
    r := m;
    for j := 0 to |ts|
      invariant r == PutAll(m, Listed(ts[..j]))
    {
      assert ts[..j + 1][..j] == ts[..j];
      var t := ts[j];
      if t.id != "" && t.nombre != "" {
        var before := Listed(ts[..j]);
        assert Listed(ts[..j + 1]) == before + [(t.id, t.nombre)];
        assert (before + [(t.id, t.nombre)])[..|before|] == before;
        r := Put(r, t.id, t.nombre);
      } else {
        assert Listed(ts[..j + 1]) == Listed(ts[..j]) + [];
        assert Listed(ts[..j]) + [] == Listed(ts[..j]);
      }
    }
    assert ts[..|ts|] == ts;
  }

  /** The outer `forEach` and `Array.from`. */
  method ExtractTecnicos(hs: seq<Historial>) returns (list: seq<Tecnico>)
    ensures list == TecnicosList(hs)
  {
    var tecnicos: Assoc<string, string> := [];
    for i := 0 to |hs|
      invariant tecnicos == PutAll([], ListedIn(hs[..i]))
    {
      assert hs[..i + 1][..i] == hs[..i];
      PutAllConcat([], ListedIn(hs[..i]), Listed(hs[i].tecnicos));
      tecnicos := SetListed(tecnicos, hs[i].tecnicos);
    }
    assert hs[..|hs|] == hs;
    list := FromMap(tecnicos);
  }

  /** The list has one entry per distinct id of a technician with an id and
      a name, in order of first appearance, and each entry carries the last
      name seen for its id. */
  lemma TecnicosListSpec(hs: seq<Historial>)
    ensures var list := TecnicosList(hs);
      var pairs := MapKeys(Filter(AllTecnicos(hs), IsListed), Pair);
      MapKeys(list, TecnicoId) == Dedup(MapKeys(Filter(AllTecnicos(hs), IsListed), TecnicoId)) &&
      forall i :: 0 <= i < |list| ==>
        list[i].id != "" && list[i].nombre != "" && LastValue(pairs, list[i].id) == Some(list[i].nombre)
  {
    ListedInIsFilter(hs);
    var pairs := ListedIn(hs);
    var m := PutAll([], pairs);
    var list := TecnicosList(hs);
    var listed := Filter(AllTecnicos(hs), IsListed);
    KeysPutAll(pairs);
    assert Keys(pairs) == MapKeys(listed, TecnicoId);
    assert MapKeys(list, TecnicoId) == Keys(m);
    forall i | 0 <= i < |list|
      ensures list[i].id != "" && list[i].nombre != "" && LastValue(pairs, list[i].id) == Some(list[i].nombre)
    {
      LookupAt(m, i);
      LookupPutAll(pairs, m[i].0);
      LastValueListed(listed, m[i].0);
    }
  }

  /** A name recorded for an id comes from a listed technician. */
  lemma {:induction false} LastValueListed(ts: seq<Tecnico>, id: string)
    requires forall i :: 0 <= i < |ts| ==> IsListed(ts[i])
    ensures LastValue(MapKeys(ts, Pair), id).Some? ==> id != "" && LastValue(MapKeys(ts, Pair), id).value != ""
  {
    if |ts| > 0 {
      var p := ts[..|ts| - 1];
      LastValueListed(p, id);
      assert MapKeys(ts, Pair)[..|ts| - 1] == MapKeys(p, Pair);
    }
  }

  /** `if (tecnicosArray.length > 0 && !selectedTecnico)
      setSelectedTecnico(tecnicosArray[0].id)`: `null` and `""` count as
      nothing selected. */
  function AutoSelect(selected: Option<string>, list: seq<Tecnico>): Option<string> {
    if |list| > 0 && (selected.None? || selected.value == "") then Some(list[0].id) else selected
  }

  /** `tecnicosList.find(t => t.id === selectedTecnico)?.nombre || 'Técnico'`. */
  function SelectedName(list: seq<Tecnico>, selected: Option<string>): string {
    match selected
    case None => "Técnico"
    case Some(id) =>
      match FirstWith(list, TecnicoId, id)
      case None => "Técnico"
      case Some(t) => if t.nombre != "" then t.nombre else "Técnico"
  }

  /** An existing selection is never replaced; with a non-empty list and
      nothing selected, the first technician's id is chosen; with an empty
      list nothing changes; selecting again changes nothing. */
  lemma AutoSelectSpec(selected: Option<string>, list: seq<Tecnico>)
    ensures selected.Some? && selected.value != "" ==> AutoSelect(selected, list) == selected
    ensures |list| == 0 ==> AutoSelect(selected, list) == selected
    ensures |list| > 0 && (selected.None? || selected.value == "") ==> AutoSelect(selected, list) == Some(list[0].id)
    ensures AutoSelect(AutoSelect(selected, list), list) == AutoSelect(selected, list)
  {
  }

  /** On the gathered list, the title falls back to "Técnico" when no
      listed technician has the selected id, and otherwise shows the last
      name recorded for that id. */
  lemma SelectedNameSpec(hs: seq<Historial>, id: string)
    ensures id !in MapKeys(TecnicosList(hs), TecnicoId) ==> SelectedName(TecnicosList(hs), Some(id)) == "Técnico"
    ensures id in MapKeys(TecnicosList(hs), TecnicoId) ==>
      LastValue(MapKeys(Filter(AllTecnicos(hs), IsListed), Pair), id) == Some(SelectedName(TecnicosList(hs), Some(id)))
  {
    var list := TecnicosList(hs);
    FirstWithSpecOn(list, id);
    if id in MapKeys(list, TecnicoId) {
      var t := FirstWith(list, TecnicoId, id).value;
      var i :| 0 <= i < |list| && list[i] == t;
      TecnicosListSpec(hs);
      assert list[i].nombre != "";
    }
  }

  lemma FirstWithSpecOn(list: seq<Tecnico>, id: string)
    ensures FirstWith(list, TecnicoId, id).None? <==> id !in MapKeys(list, TecnicoId)
    ensures FirstWith(list, TecnicoId, id).Some? ==>
      FirstWith(list, TecnicoId, id).value in list && FirstWith(list, TecnicoId, id).value.id == id
  {
    if id in MapKeys(list, TecnicoId) {
      var i :| 0 <= i < |list| && list[i].id == id;
      FirstWithFound(list, id, i);
    } else {
      FirstWithAbsent(list, id);
    }
  }

  lemma {:induction false} FirstWithFound(list: seq<Tecnico>, id: string, i: nat)
    requires i < |list| && list[i].id == id
    ensures FirstWith(list, TecnicoId, id).Some?
    ensures FirstWith(list, TecnicoId, id).value in list && FirstWith(list, TecnicoId, id).value.id == id
  {
    if TecnicoId(list[0]) != id {
      FirstWithFound(list[1..], id, i - 1);
    }
  }

  lemma {:induction false} FirstWithAbsent(list: seq<Tecnico>, id: string)
    requires id !in MapKeys(list, TecnicoId)
    ensures FirstWith(list, TecnicoId, id).None?
  {
    if |list| > 0 {
      assert MapKeys(list, TecnicoId)[0] == list[0].id;
      assert MapKeys(list[1..], TecnicoId) == MapKeys(list, TecnicoId)[1..];
      FirstWithAbsent(list[1..], id);
    }
  }

  /** The two charts as the page renders them: it passes only
      `selectedTecnico`, so `selectedYear` and `selectedMonth` are
      `undefined`, which `parseInt` reads as `NaN`. */
  function PageRadarAsWritten(hs: seq<Historial>, id: string): seq<RadarPoint> {
    Radar.ChartData(hs, id, NotANumber, NotANumber)
  }

  function PageDepartmentsAsWritten(hs: seq<Historial>, id: string): seq<RadarPoint> {
    Depts.ChartData(hs, id, NotANumber, NotANumber)
  }

  /** As written, both charts of the page are always empty. */
  lemma PageChartsAlwaysEmpty(hs: seq<Historial>, id: string)
    ensures PageRadarAsWritten(hs, id) == [] && PageDepartmentsAsWritten(hs, id) == []
  {
    FilterByDateNaN(hs, NotANumber, NotANumber);
    RadarDataSpec([], Radar.CountedKey(id));
    RadarDataSpec([], Depts.CountedKey(id));
  }

  /** The charts with the selectors at `'all'`: every ticket of the
      technician. */
  function PageRadar(hs: seq<Historial>, id: string): seq<RadarPoint> {
    Radar.ChartData(hs, id, All, All)
  }

  function PageDepartments(hs: seq<Historial>, id: string): seq<RadarPoint> {
    Depts.ChartData(hs, id, All, All)
  }

  /** With the selectors at `'all'`, the subject chart totals every ticket
      of the technician that has a subject, and the department chart every
      ticket of the technician with a named department. */
  lemma PageChartsSpec(hs: seq<Historial>, id: string)
    ensures SumBy(PageRadar(hs, id), PointCount) ==
      |Filter(hs, (h: Historial) => HasTecnico(h, id) && h.asunto != "")|
    ensures SumBy(PageDepartments(hs, id), PointCount) ==
      |Filter(hs, (h: Historial) => HasTecnico(h, id) && DeptName(h).Some?)|
  {
    Radar.TotalSoportesSpec(hs, id, All, All);
    Depts.TotalSoportesSpec(hs, id, All, All, "");
  }

  /** One dated ticket with a subject, handled by technician "t1": the page
      as written shows nothing for "t1", the intended chart one support. */
  lemma PageChartsCounterexample()
    ensures var h := Historial("r1", "redes", Some(Date(2025, 3, 0)), None, [Tecnico("t1", "Ana")], None);
      PageRadarAsWritten([h], "t1") == [] && SumBy(PageRadar([h], "t1"), PointCount) == 1
  {
    var h := Historial("r1", "redes", Some(Date(2025, 3, 0)), None, [Tecnico("t1", "Ana")], None);
    PageChartsAlwaysEmpty([h], "t1");
    PageChartsSpec([h], "t1");
    assert h.tecnicos[0].id == "t1";
    FilterSnoc([], h, (h: Historial) => HasTecnico(h, "t1") && h.asunto != "");
    assert [h] == [] + [h];
  }

  class Page {
    var selectedTecnico: Option<string>
    var tecnicosList: seq<Tecnico>

    constructor()
      ensures selectedTecnico.None? && tecnicosList == []
    {
      selectedTecnico := None;
      tecnicosList := [];
    }

    /** The effect on `historial`: with tickets, the list is rebuilt and the
        first technician selected if nothing is; with none, nothing
        changes. */
    method Refresh(historial: seq<Historial>)
      modifies this
      ensures |historial| == 0 ==> selectedTecnico == old(selectedTecnico) && tecnicosList == old(tecnicosList)
      ensures |historial| > 0 ==>
        tecnicosList == TecnicosList(historial) && selectedTecnico == AutoSelect(old(selectedTecnico), tecnicosList)
    {
      if |historial| > 0 {
        var list := ExtractTecnicos(historial);
        tecnicosList := list;
        if |list| > 0 && (selectedTecnico.None? || selectedTecnico.value == "") {
          selectedTecnico := Some(list[0].id);
        }
      }
    }

    /** `onValueChange={setSelectedTecnico}`. */
    method Select(id: string)
      modifies this
      ensures selectedTecnico == Some(id) && tecnicosList == old(tecnicosList)
    {
      selectedTecnico := Some(id);
    }

    /** The name in the title. */
    function Title(): string
      reads this
    {
      SelectedName(tecnicosList, selectedTecnico)
    }
  }
}
