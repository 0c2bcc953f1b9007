/** One technician's subject radar, for the tickets the year/month
    selector keeps. */
module EstadisticasTecnicosRadar {
  import opened Seqs
  import opened Entities
  import opened Periods
  import opened RadarChart

  /** A ticket counts under its subject when the technician is among its
      expanded technicians and it has a subject. */
  function SubjectFor(tecnicoId: string, h: Historial): Option<string> {
    if HasTecnico(h, tecnicoId) && h.asunto != "" then Some(h.asunto) else None
  }

  function CountedKey(tecnicoId: string): Historial -> Option<string> {
    (h: Historial) => SubjectFor(tecnicoId, h)
  }

  /** `processData(tecnicoId)` over `filterByDate(historial)`. */
  function ChartData(historial: seq<Historial>, tecnicoId: string, year: Selector, month: Selector): seq<RadarPoint> {
    RadarData(FilterByDate(historial, year, month), CountedKey(tecnicoId))
  }

  /** The footer total is the number of tickets the date selector keeps
      that list the technician and have a subject. */
  lemma TotalSoportesSpec(historial: seq<Historial>, tecnicoId: string, year: Selector, month: Selector)
    ensures SumBy(ChartData(historial, tecnicoId, year, month), PointCount) ==
      |Filter(FilterByDate(historial, year, month), (h: Historial) => HasTecnico(h, tecnicoId) && h.asunto != "")|
  {
    var kept := FilterByDate(historial, year, month);
    RadarDataSpec(kept, CountedKey(tecnicoId));
    SelectedLength(kept, CountedKey(tecnicoId));
    FilterExt(kept, (h: Historial) => CountedKey(tecnicoId)(h).Some?, (h: Historial) => HasTecnico(h, tecnicoId) && h.asunto != "");
  }

  class Chart {
    var chartData: seq<RadarPoint>

    constructor()
      ensures chartData == []
    {
      chartData := [];
    }

    /** The effect: recomputed only when a technician is selected and there
        are tickets; otherwise the chart keeps what it showed. */
    method Refresh(selectedTecnico: Option<string>, historial: seq<Historial>, year: Selector, month: Selector)
      modifies this
      ensures selectedTecnico.Some? && selectedTecnico.value != "" && |historial| > 0 ==>
        chartData == ChartData(historial, selectedTecnico.value, year, month)
      ensures !(selectedTecnico.Some? && selectedTecnico.value != "" && |historial| > 0) ==> chartData == old(chartData)
    {
      if selectedTecnico.Some? && selectedTecnico.value != "" && |historial| > 0 {
        chartData := ProcessData(FilterByDate(historial, year, month), CountedKey(selectedTecnico.value));
      }
    }

    /** `chartData.reduce((acc, curr) => acc + curr.count, 0)`. */
    function TotalSoportes(): int
      reads this
    {
      SumBy(chartData, PointCount)
    }
  }
}
