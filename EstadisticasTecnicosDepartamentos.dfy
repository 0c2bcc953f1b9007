/** One technician's department radar, for the tickets the year/month
    selector keeps. */
module EstadisticasTecnicosDepartamentos {
  import opened Seqs
  import opened Entities
  import opened Periods
  import opened RadarChart

  /** A ticket counts under its department's name when the technician is
      among its expanded technicians and the department has a name. */
  function DepartmentFor(tecnicoId: string, h: Historial): Option<string> {
    if HasTecnico(h, tecnicoId) then DeptName(h) else None
  }

  function CountedKey(tecnicoId: string): Historial -> Option<string> {
    (h: Historial) => DepartmentFor(tecnicoId, h)
  }

  /** `processData(tecnicoId)` over `filterByDate(historial)`; each point's
      `subject` is the chart's `department`. */
  function ChartData(historial: seq<Historial>, tecnicoId: string, year: Selector, month: Selector): seq<RadarPoint> {
    RadarData(FilterByDate(historial, year, month), CountedKey(tecnicoId))
  }

  /** The footer total is the number of kept tickets that list the
      technician and have a named department; each name is counted once
      per such ticket. */
  lemma TotalSoportesSpec(historial: seq<Historial>, tecnicoId: string, year: Selector, month: Selector, name: string)
    ensures SumBy(ChartData(historial, tecnicoId, year, month), PointCount) ==
      |Filter(FilterByDate(historial, year, month), (h: Historial) => HasTecnico(h, tecnicoId) && DeptName(h).Some?)|
    ensures multiset(Selected(FilterByDate(historial, year, month), CountedKey(tecnicoId)))[name] ==
      |Filter(FilterByDate(historial, year, month), (h: Historial) => HasTecnico(h, tecnicoId) && DeptName(h) == Some(name))|
  {
    var kept := FilterByDate(historial, year, month);
    RadarDataSpec(kept, CountedKey(tecnicoId));
    SelectedLength(kept, CountedKey(tecnicoId));
    FilterExt(kept, (h: Historial) => CountedKey(tecnicoId)(h).Some?, (h: Historial) => HasTecnico(h, tecnicoId) && DeptName(h).Some?);
    SelectedCount(kept, CountedKey(tecnicoId), name);
    FilterExt(kept, (h: Historial) => CountedKey(tecnicoId)(h) == Some(name),
      (h: Historial) => HasTecnico(h, tecnicoId) && DeptName(h) == Some(name));
  }

  class Chart {
    var chartData: seq<RadarPoint>

    constructor()
      ensures chartData == []
    {
      chartData := [];
    }

    /** The effect: recomputed only when a technician is selected and there
        are tickets. */
    method Refresh(selectedTecnico: Option<string>, historial: seq<Historial>, year: Selector, month: Selector)
      modifies this
      ensures selectedTecnico.Some? && selectedTecnico.value != "" && |historial| > 0 ==>
        chartData == ChartData(historial, selectedTecnico.value, year, month)
      ensures !(selectedTecnico.Some? && selectedTecnico.value != "" && |historial| > 0) ==> chartData == old(chartData)
    {
      if selectedTecnico.Some? && selectedTecnico.value != "" && |historial| > 0 {
        chartData := ProcessData(FilterByDate(historial, year, month), CountedKey(selectedTecnico.value));
      }
    }

    function TotalSoportes(): int
      reads this
    {
      SumBy(chartData, PointCount)
    }
  }
}
