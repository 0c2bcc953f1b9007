/** The subject radar: the ticket count of each subject over the last
    week, month and year and over the whole history. */
module EstadisticasAsuntos {
  import opened Seqs
  import opened Entities
  import opened Periods
  import opened RadarChart

  /** `if (asunto)`: a ticket counts under its subject when it has one. */
  function AsuntoOf(h: Historial): Option<string> {
    if h.asunto != "" then Some(h.asunto) else None
  }

  /** The four tabs. */
  datatype Charts = Charts(semanal: seq<RadarPoint>, mensual: seq<RadarPoint>, anual: seq<RadarPoint>, general: seq<RadarPoint>)

  /** Each non-empty subject is counted once per ticket that has it, and
      the empty subject never. */
  lemma AsuntoCounts(hs: seq<Historial>, a: string)
    ensures "" !in multiset(Selected(hs, AsuntoOf))
    ensures a != "" ==> multiset(Selected(hs, AsuntoOf))[a] == |Filter(hs, (h: Historial) => h.asunto == a)|
  {
    EmptyAsuntoSkipped(hs);
    if a != "" {
      AsuntoCounted(hs, a);
    }
  }

  lemma EmptyAsuntoSkipped(hs: seq<Historial>)
    ensures "" !in multiset(Selected(hs, AsuntoOf))
  {
    SelectedCount(hs, AsuntoOf, "");
    assert forall x :: (AsuntoOf(x) == Some("")) == false;
    FilterExt(hs, (h: Historial) => AsuntoOf(h) == Some(""), (h: Historial) => false);
    FilterNone(hs, (h: Historial) => false);
  }

  lemma AsuntoCounted(hs: seq<Historial>, a: string)
    requires a != ""
    ensures multiset(Selected(hs, AsuntoOf))[a] == |Filter(hs, (h: Historial) => h.asunto == a)|
  {
    SelectedCount(hs, AsuntoOf, a);
    FilterExt(hs, (h: Historial) => AsuntoOf(h) == Some(a), (h: Historial) => h.asunto == a);
  }

  class Chart {
    var data: Charts

    constructor()
      ensures data == Charts([], [], [], [])
    {
      data := Charts([], [], [], []);
    }

    /** The effect on `historial`: with tickets, the three windows ending
        at `now` and the whole history, each through `processData`; with
        none, the charts stay as they were. */
    method Refresh(historial: seq<Historial>, now: int)
      modifies this
      ensures |historial| > 0 ==> data == Charts(
        RadarData(FilterByPeriod(historial, now, 7), AsuntoOf),
        RadarData(FilterByPeriod(historial, now, 30), AsuntoOf),
        RadarData(FilterByPeriod(historial, now, 365), AsuntoOf),
        RadarData(historial, AsuntoOf))
      ensures |historial| == 0 ==> data == old(data)
    {
      if |historial| > 0 {
        var semanal := ProcessData(FilterByPeriod(historial, now, 7), AsuntoOf);
        var mensual := ProcessData(FilterByPeriod(historial, now, 30), AsuntoOf);
        var anual := ProcessData(FilterByPeriod(historial, now, 365), AsuntoOf);
        var general := ProcessData(historial, AsuntoOf);
        data := Charts(semanal, mensual, anual, general);
      }
    }
  }
}
