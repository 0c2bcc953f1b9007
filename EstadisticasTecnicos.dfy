/** The technician pie: how many ticket associations each technician name
    has in the last week, month and year (windows measured on `created`). */
module EstadisticasTecnicos {
  import opened Seqs
  import opened Assoc
  import opened Counting
  import opened Entities
  import opened Periods

  /** `{ name, value }`. */
  datatype Slice = Slice(name: string, value: nat)

  function SliceValue(s: Slice): int { s.value }

  function NombreOf(t: Tecnico): string { t.nombre }

  /** `Object.entries(tecnicoCount).map(([name, value]) => ({ name, value }))`. */
  function Slices(t: Tally<string>): (r: seq<Slice>)
    ensures |r| == |t|
  {
    seq(|t|, i requires 0 <= i < |t| => Slice(t[i].0, t[i].1))
  }

  /** What `processData` returns. */
  function PieData(hs: seq<Historial>): seq<Slice> {
    Slices(TallyOf(MapKeys(AllTecnicos(hs), NombreOf)))
  }

  /** The nested `forEach`: every technician of every ticket adds one to its
      name. */
  method ProcessData(hs: seq<Historial>) returns (slices: seq<Slice>)
    ensures slices == PieData(hs)
  {
    var counts: Tally<string> := [];
    for i := 0 to |hs|
      invariant counts == TallyOf(MapKeys(AllTecnicos(hs[..i]), NombreOf))
    {
      counts := CountEach(counts, hs[i].tecnicos, NombreOf, MapKeys(AllTecnicos(hs[..i]), NombreOf));
      assert hs[..i + 1][..i] == hs[..i];
      MapKeysConcat(AllTecnicos(hs[..i]), hs[i].tecnicos, NombreOf);
    }
    assert hs[..|hs|] == hs;
    slices := Slices(counts);
  }

  lemma {:induction false} SumSlices(t: Tally<string>)
    ensures SumBy(Slices(t), SliceValue) == Total(t)
  {
    if |t| > 0 {
      SumSlices(t[..|t| - 1]);
      assert Slices(t)[..|t| - 1] == Slices(t[..|t| - 1]);
    }
  }

  /** One slice per distinct technician name, in first-seen order; each
      value is the number of associations with that name; the values add
      up to the number of associations. */
  lemma PieDataSpec(hs: seq<Historial>)
    ensures var names := MapKeys(AllTecnicos(hs), NombreOf);
      var d := PieData(hs);
      |d| == |Dedup(names)| &&
      (forall i :: 0 <= i < |d| ==> d[i].name == Dedup(names)[i] && d[i].value == multiset(names)[d[i].name]) &&
      SumBy(d, SliceValue) == |AllTecnicos(hs)|
  {
    var names := MapKeys(AllTecnicos(hs), NombreOf);
    var t := TallyOf(names);
    TallyKeys(names);
    TallyTotal(names);
    SumSlices(t);
    forall i | 0 <= i < |t|
      ensures t[i].1 == multiset(names)[t[i].0]
    {
      TallyEntry(names, i);
    }
  }

  const Colors: seq<string> := ["#0088FE", "#00a152", "#b2102f", "#FF8042", "#8884D8",
                                "#8bc34a", "#ff9800", "#e91e63", "#03a9f4", "#ffc107"]

  /** `COLORS[index % COLORS.length]`. */
  function Fill(index: nat): string {
    Colors[index % |Colors|]
  }

  /** The colours repeat every ten slices, and any ten consecutive slices
      all have different colours. */
  lemma FillCycle(i: nat, j: nat)
    ensures Fill(i + 10) == Fill(i)
    ensures i < j < i + 10 ==> Fill(i) != Fill(j)
  {
    assert (i + 10) % 10 == i % 10;
    if i < j < i + 10 {
      assert i % 10 != j % 10;
      ColorsDistinct();
    }
  }

  /** The ten colours are all different. */
  lemma ColorsDistinct()
    ensures Distinct(Colors)
  {
  }

  datatype Charts = Charts(semanal: seq<Slice>, mensual: seq<Slice>, anual: seq<Slice>)

  class Chart {
    var data: Charts

    constructor()
      ensures data == Charts([], [], [])
    {
      data := Charts([], [], []);
    }

    /** The effect: recomputed once both the tickets and the technician
        list are loaded. */
    method Refresh(historial: seq<Historial>, tecnicos: seq<Tecnico>, now: int)
      modifies this
      ensures |historial| > 0 && |tecnicos| > 0 ==> data == Charts(
        PieData(FilterByCreated(historial, now, 7)),
        PieData(FilterByCreated(historial, now, 30)),
        PieData(FilterByCreated(historial, now, 365)))
      ensures !(|historial| > 0 && |tecnicos| > 0) ==> data == old(data)
    {
      if |historial| > 0 && |tecnicos| > 0 {
        var semanal := ProcessData(FilterByCreated(historial, now, 7));
        var mensual := ProcessData(FilterByCreated(historial, now, 30));
        var anual := ProcessData(FilterByCreated(historial, now, 365));
        data := Charts(semanal, mensual, anual);
      }
    }
  }
}
