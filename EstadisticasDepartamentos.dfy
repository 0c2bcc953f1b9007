/** The department area chart: tickets per department with the department's
    most frequent technician, largest department first, each coloured from
    a fixed 21-entry palette. */
module EstadisticasDepartamentos {
  import opened Seqs
  import opened Assoc
  import opened Counting
  import opened Entities
  import opened Periods
  import opened Grouping

  /** Five colours repeated four times, then the first once more. */
  const Colors: seq<string> := [
    "#FF6384", "#36A2EB", "#FFCE56", "#4BC0C0", "#9966FF",
    "#FF6384", "#36A2EB", "#FFCE56", "#4BC0C0", "#9966FF",
    "#FF6384", "#36A2EB", "#FFCE56", "#4BC0C0", "#9966FF",
    "#FF6384", "#36A2EB", "#FFCE56", "#4BC0C0", "#9966FF",
    "#FF6384"]

  /** `{ name, value, topTecnico, topTecnicoCount, fill }`. */
  datatype DeptEntry = DeptEntry(name: string, value: nat, topTecnico: Option<string>, topTecnicoCount: nat, fill: string)

  function EntryValue(e: DeptEntry): int { e.value }

  /** The sort key of `(a, b) => b.value - a.value`: larger counts first. */
  function ByCountDescending(s: Summary<string>): int { -(s.count as int) }

  /** `.map((item, index) => ({ ...item, fill: COLORS[index % COLORS.length] }))`. */
  function WithFills(ss: seq<Summary<string>>): (r: seq<DeptEntry>)
    ensures |r| == |ss|
    ensures forall i :: 0 <= i < |ss| ==>
      r[i] == DeptEntry(ss[i].key, ss[i].count, ss[i].topTecnico, ss[i].topTecnicoCount, Colors[i % |Colors|])
  {
    seq(|ss|, i requires 0 <= i < |ss| =>
      DeptEntry(ss[i].key, ss[i].count, ss[i].topTecnico, ss[i].topTecnicoCount, Colors[i % |Colors|]))
  }

  /** What `processData` returns for some tickets. */
  function DeptData(hs: seq<Historial>): seq<DeptEntry> {
    WithFills(SortBy(Summaries(GroupOf(hs, DeptName)), ByCountDescending))
  }

  /** `processData`: bucket, pick each bucket's top technician, sort, colour. */
  method ProcessData(hs: seq<Historial>) returns (data: seq<DeptEntry>)
    ensures data == DeptData(hs)
  {
    var stats := GroupTickets(hs, DeptName);
    var result := Summarize(stats);
    data := WithFills(SortBy(result, ByCountDescending));
  }

  /** Summaries of buckets with distinct keys are distinct. */
  lemma SummariesDistinct<K>(g: Groups<K>)
    requires Distinct(Keys(g))
    ensures Distinct(Summaries(g))
  {
    forall i, j | 0 <= i < j < |g|
      ensures Summaries(g)[i] != Summaries(g)[j]
    {
      assert Keys(g)[i] == g[i].0 && Keys(g)[j] == g[j].0;
    }
  }

  /** An entry of the sorted list is the summary of some bucket. */
  lemma SortedFrom(ss: seq<Summary<string>>, i: nat) returns (j: nat)
    requires i < |SortBy(ss, ByCountDescending)|
    ensures j < |ss| && SortBy(ss, ByCountDescending)[i] == ss[j]
  {
    var sorted := SortBy(ss, ByCountDescending);
    assert sorted[i] in multiset(sorted);
    j :| 0 <= j < |ss| && sorted[i] == ss[j];
  }

  /** Entries go from the largest count down and no department appears
      twice. */
  lemma DeptOrder(hs: seq<Historial>)
    ensures var d := DeptData(hs);
      forall i, j :: 0 <= i < j < |d| ==> d[i].value >= d[j].value && d[i].name != d[j].name
  {
    var g := GroupOf(hs, DeptName);
    var sorted := SortBy(Summaries(g), ByCountDescending);
    var d := DeptData(hs);
    GroupKeys(hs, DeptName);
    forall i, j | 0 <= i < j < |d|
      ensures d[i].value >= d[j].value && d[i].name != d[j].name
    {
      assert ByCountDescending(sorted[i]) <= ByCountDescending(sorted[j]);
      NamesDiffer(g, i, j);
    }
  }

  /** Two positions of the sorted summaries hold different departments. */
  lemma NamesDiffer(g: Groups<string>, i: nat, j: nat)
    requires Distinct(Keys(g)) && i < j < |g|
    ensures SortBy(Summaries(g), ByCountDescending)[i].key != SortBy(Summaries(g), ByCountDescending)[j].key
  {
    var ss := Summaries(g);
    var sorted := SortBy(ss, ByCountDescending);
    SortedSummariesDiffer(g, i, j);
    var a := SortedFrom(ss, i);
    var b := SortedFrom(ss, j);
    assert a != b;
    assert Keys(g)[a] == g[a].0 && Keys(g)[b] == g[b].0;
    assert sorted[i].key == g[a].0 && sorted[j].key == g[b].0;
  }

  /** Sorting keeps buckets with distinct departments apart. */
  lemma SortedSummariesDiffer(g: Groups<string>, i: nat, j: nat)
    requires Distinct(Keys(g)) && i < j < |g|
    ensures SortBy(Summaries(g), ByCountDescending)[i] != SortBy(Summaries(g), ByCountDescending)[j]
  {
    SummariesDistinct(g);
    PermutationDistinct(SortBy(Summaries(g), ByCountDescending), Summaries(g));
  }

  /** Every department some ticket names has an entry, and there are as
      many entries as such departments. */
  lemma DeptCovers(hs: seq<Historial>)
    ensures var keys := KeysOf(hs, DeptName);
      var d := DeptData(hs);
      |d| == |Dedup(keys)| &&
      forall n :: n in keys ==> exists i :: 0 <= i < |d| && d[i].name == n
  {
    var keys := KeysOf(hs, DeptName);
    var g := GroupOf(hs, DeptName);
    var ss := Summaries(g);
    var sorted := SortBy(ss, ByCountDescending);
    var d := DeptData(hs);
    GroupKeys(hs, DeptName);
    forall n | n in keys
      ensures exists i :: 0 <= i < |d| && d[i].name == n
    {
      assert n in Keys(g);
      var a :| 0 <= a < |g| && Keys(g)[a] == n;
      var i := SortedPosition(g, a);
      assert d[i].name == n;
    }
  }

  /** The summary of the bucket at `a` sits at some position of the sorted
      list. */
  lemma SortedPosition(g: Groups<string>, a: nat) returns (i: nat)
    requires a < |g|
    ensures i < |SortBy(Summaries(g), ByCountDescending)|
    ensures SortBy(Summaries(g), ByCountDescending)[i].key == g[a].0
  {
    var ss := Summaries(g);
    var sorted := SortBy(ss, ByCountDescending);
    assert ss[a] in multiset(sorted);
    i :| 0 <= i < |sorted| && sorted[i] == ss[a];
  }

  /** Each entry is a department some ticket names; it counts exactly the
      tickets of that department and names their most frequent technician
      (`Counting.MostFrequent`) with that technician's count; its colour is
      the palette entry for its position. */
  lemma DeptEntries(hs: seq<Historial>)
    ensures var keys := KeysOf(hs, DeptName);
      var d := DeptData(hs);
      forall i :: 0 <= i < |d| ==>
        var ts := TicketsWith(hs, DeptName, d[i].name);
        var names := NamesIn(ts);
        d[i].name in keys && d[i].value == |ts| && d[i].value > 0 &&
        d[i].topTecnico == FirstMaxKey(TallyOf(names)) &&
        d[i].topTecnicoCount == MaxCount(TallyOf(names)) &&
        d[i].fill == Colors[i % 21]
  {
    var ss := Summaries(GroupOf(hs, DeptName));
    var sorted := SortBy(ss, ByCountDescending);
    var d := DeptData(hs);
    forall i | 0 <= i < |d|
      ensures var ts := TicketsWith(hs, DeptName, d[i].name);
        var names := NamesIn(ts);
        d[i].value == |ts| && d[i].name in KeysOf(hs, DeptName) && d[i].value > 0 &&
        d[i].topTecnico == FirstMaxKey(TallyOf(names)) &&
        d[i].topTecnicoCount == MaxCount(TallyOf(names))
    {
      var j := SortedFrom(ss, i);
      SummaryOf(hs, DeptName, j);
    }
  }

  /** The footer's total (`chartData.reduce((acc, curr) => acc + curr.value, 0)`)
      is the number of tickets that name a department. */
  lemma DeptTotal(hs: seq<Historial>)
    ensures SumBy(DeptData(hs), EntryValue) == |KeysOf(hs, DeptName)|
  {
    var g := GroupOf(hs, DeptName);
    var ss := Summaries(g);
    SumEntries(SortBy(ss, ByCountDescending));
    SumBySort(ss, ByCountDescending, SummaryCount);
    SumSummaries(g);
    GroupTotal(hs, DeptName);
  }

  function SummaryCount(s: Summary<string>): int { s.count }

  lemma {:induction false} SumEntries(ss: seq<Summary<string>>)
    ensures SumBy(WithFills(ss), EntryValue) == SumBy(ss, SummaryCount)
  {
    if |ss| > 0 {
      var p := ss[..|ss| - 1];
      SumEntries(p);
      assert WithFills(ss)[..|ss| - 1] == WithFills(p);
    }
  }

  lemma {:induction false} SumSummaries(g: Groups<string>)
    ensures SumBy(Summaries(g), SummaryCount) == SumBy(GroupCounts(g), (n: nat) => n as int)
  {
    if |g| > 0 {
      var p := g[..|g| - 1];
      SumSummaries(p);
      assert Summaries(g)[..|g| - 1] == Summaries(p);
      assert GroupCounts(g)[..|g| - 1] == GroupCounts(p);
    }
  }

  /** The four tabs. */
  datatype Charts = Charts(semanal: seq<DeptEntry>, mensual: seq<DeptEntry>, anual: seq<DeptEntry>, general: seq<DeptEntry>)

  class Chart {
    var data: Charts

    constructor()
      ensures data == Charts([], [], [], [])
    {
      data := Charts([], [], [], []);
    }

    /** The effect on `historial` and `departamentos`: with both non-empty,
        the three windows ending at `now` and the whole history, each through
        `processData`; otherwise the charts stay as they were. */
    method Refresh(historial: seq<Historial>, departamentos: seq<Departamento>, now: int)
      modifies this
      ensures |historial| > 0 && |departamentos| > 0 ==> data == Charts(
        DeptData(FilterByPeriod(historial, now, 7)),
        DeptData(FilterByPeriod(historial, now, 30)),
        DeptData(FilterByPeriod(historial, now, 365)),
        DeptData(historial))
      ensures |historial| == 0 || |departamentos| == 0 ==> data == old(data)
    {
      if |historial| > 0 && |departamentos| > 0 {
        var semanal := ProcessData(FilterByPeriod(historial, now, 7));
        var mensual := ProcessData(FilterByPeriod(historial, now, 30));
        var anual := ProcessData(FilterByPeriod(historial, now, 365));
        var general := ProcessData(historial);
        data := Charts(semanal, mensual, anual, general);
      }
    }
  }
}
