/** The monthly support chart: the years the tickets cover (newest first),
    the selected year kept among them, and the tickets of the selected year
    grouped by calendar month with each month's most frequent technician,
    in chronological order. */
module EstadisticasSoportesMensuales {
  import opened Seqs
  import opened Assoc
  import opened Js
  import opened Counting
  import opened Entities
  import opened Grouping

  /** `new Date(h.fecha_soporte).getFullYear()` for a ticket with a valid
      date. */
  function YearOf(h: Historial): Option<nat> {
    match h.fechaSoporte case Some(d) => Some(d.year) case None => None
  }

  function Descending(y: nat): int { -(y as int) }

  /** `[...new Set(years)].sort((a, b) => b - a)`. */
  function AvailableYears(hs: seq<Historial>): seq<nat> {
    SortBy(Dedup(KeysOf(hs, YearOf)), Descending)
  }

  /** `years.map(String)`. */
  function YearStrings(ys: seq<nat>): (r: seq<string>)
    ensures |r| == |ys|
    ensures forall i :: 0 <= i < |ys| ==> r[i] == DecimalString(ys[i])
  {
    seq(|ys|, i requires 0 <= i < |ys| => DecimalString(ys[i]))
  }

  /** The year list names each year of a dated ticket once, newest first. */
  lemma AvailableYearsSpec(hs: seq<Historial>)
    ensures var ys := AvailableYears(hs);
      (forall i, j :: 0 <= i < j < |ys| ==> ys[i] > ys[j]) &&
      (forall y :: y in ys <==> y in KeysOf(hs, YearOf)) &&
      (|ys| == 0 <==> |KeysOf(hs, YearOf)| == 0)
  {
    AvailableYearsOrder(hs);
    AvailableYearsMembers(hs);
  }

  lemma AvailableYearsOrder(hs: seq<Historial>)
    ensures var ys := AvailableYears(hs);
      forall i, j :: 0 <= i < j < |ys| ==> ys[i] > ys[j]
  {
    var ks := Dedup(KeysOf(hs, YearOf));
    PermutationDistinct(SortBy(ks, Descending), ks);
    StrictlyDescending(SortBy(ks, Descending));
  }

  lemma StrictlyDescending(ys: seq<nat>)
    requires SortedBy(ys, Descending) && Distinct(ys)
    ensures forall i, j :: 0 <= i < j < |ys| ==> ys[i] > ys[j]
  {
    forall i, j | 0 <= i < j < |ys|
      ensures ys[i] > ys[j]
    {
      assert Descending(ys[i]) <= Descending(ys[j]);
    }
  }

  lemma AvailableYearsMembers(hs: seq<Historial>)
    ensures var ys := AvailableYears(hs);
      (forall y :: y in ys <==> y in KeysOf(hs, YearOf)) &&
      (|ys| == 0 <==> |KeysOf(hs, YearOf)| == 0)
  {
    var ks := KeysOf(hs, YearOf);
    var ys := AvailableYears(hs);
    assert multiset(ys) == multiset(Dedup(ks));
    forall y
      ensures y in ys <==> y in ks
    {
      assert y in ys <==> y in multiset(ys);
      assert y in Dedup(ks) <==> y in multiset(Dedup(ks));
    }
    if |ks| > 0 {
      assert ks[0] in ys;
    }
  }

  /** A year is shown as its decimal digits, and different years are shown
      differently. */
  lemma YearStringsDistinct(ys: seq<nat>)
    requires Distinct(ys)
    ensures Distinct(YearStrings(ys))
  {
    forall i, j | 0 <= i < j < |ys|
      ensures YearStrings(ys)[i] != YearStrings(ys)[j]
    {
      DecimalRoundTrip(ys[i]);
      DecimalRoundTrip(ys[j]);
    }
  }

  /** `if (years.length > 0 && !years.map(String).includes(selectedYear))
      setSelectedYear(String(years[0]))`. */
  function ReconcileYear(selected: string, ys: seq<nat>): string {
    if |ys| > 0 && selected !in YearStrings(ys) then DecimalString(ys[0]) else selected
  }

  /** When there are years, the selection ends up among them; a selection
      already among them, or any selection when there are none, is kept;
      otherwise the newest year is chosen. Reconciling again changes
      nothing, so the effect's re-run after a change of year settles. */
  lemma ReconcileSpec(hs: seq<Historial>, selected: string)
    ensures var ys := AvailableYears(hs);
      var r := ReconcileYear(selected, ys);
      (|ys| > 0 ==> r in YearStrings(ys)) &&
      (selected in YearStrings(ys) || |ys| == 0 ==> r == selected) &&
      (selected !in YearStrings(ys) && |ys| > 0 ==>
        (r == DecimalString(ys[0]) && ys[0] in KeysOf(hs, YearOf) &&
         forall y :: y in KeysOf(hs, YearOf) ==> y <= ys[0])) &&
      ReconcileYear(r, ys) == r
  {
    var ys := AvailableYears(hs);
    ReconcileOn(selected, ys);
    if |ys| > 0 {
      NewestFirst(hs);
    }
  }

  /** Reconciling against any year list. */
  lemma ReconcileOn(selected: string, ys: seq<nat>)
    ensures var r := ReconcileYear(selected, ys);
      (|ys| > 0 ==> r in YearStrings(ys)) &&
      (selected in YearStrings(ys) || |ys| == 0 ==> r == selected) &&
      (selected !in YearStrings(ys) && |ys| > 0 ==> r == DecimalString(ys[0])) &&
      ReconcileYear(r, ys) == r
  {
    if |ys| > 0 {
      assert YearStrings(ys)[0] == DecimalString(ys[0]);
    }
  }

  /** The first listed year is the latest year of a dated ticket. */
  lemma NewestFirst(hs: seq<Historial>)
    requires |AvailableYears(hs)| > 0
    ensures var ys := AvailableYears(hs);
      ys[0] in KeysOf(hs, YearOf) && forall y :: y in KeysOf(hs, YearOf) ==> y <= ys[0]
  {
    var ys := AvailableYears(hs);
    AvailableYearsOrder(hs);
    AvailableYearsMembers(hs);
    assert ys[0] in ys;
    forall y | y in KeysOf(hs, YearOf)
      ensures y <= ys[0]
    {
      var k :| 0 <= k < |ys| && ys[k] == y;
      if k > 0 {
        assert ys[0] > ys[k];
      }
    }
  }

  /** The year filter's test: a valid date whose year reads as the
      selection. */
  predicate InYear(h: Historial, selected: string) {
    h.fechaSoporte.Some? && DecimalString(h.fechaSoporte.value.year) == selected
  }

  /** `historial.filter(h => ... d.getFullYear().toString() === selectedYear)`. */
  function FilterByYear(hs: seq<Historial>, selected: string): (r: seq<Historial>)
    ensures forall i :: 0 <= i < |r| ==> InYear(r[i], selected)
  {
    Filter(hs, (h: Historial) => InYear(h, selected))
  }

  /** The year filter keeps exactly the tickets of the selected year, each
      as often as it occurs. */
  lemma FilterByYearExact(hs: seq<Historial>, selected: string, h: Historial)
    ensures multiset(FilterByYear(hs, selected))[h] == if InYear(h, selected) then multiset(hs)[h] else 0
  {
    FilterMultiset(hs, (h: Historial) => InYear(h, selected), h);
  }

  /** The month bucket of a ticket with a valid date: `${year}-${month}`. */
  function MonthKey(h: Historial): Option<(nat, nat)> {
    match h.fechaSoporte case Some(d) => Some((d.year, d.month)) case None => None
  }

  /** A month bar, without its `Intl` labels. */
  datatype MonthEntry = MonthEntry(year: nat, month: nat, soportes: nat, sortDate: int, topTecnico: Option<string>, topTecnicoCount: nat)

  function EntrySortDate(e: MonthEntry): int { e.sortDate }
  function EntrySoportes(e: MonthEntry): int { e.soportes }

  /** `date.getTime()` of the first ticket of a month. */
  function SortDateOf(h: Historial): int {
    match h.fechaSoporte case Some(d) => d.millis case None => 0
  }

  function MonthEntryOf(s: Summary<(nat, nat)>): MonthEntry {
    MonthEntry(s.key.0, s.key.1, s.count, SortDateOf(s.first), s.topTecnico, s.topTecnicoCount)
  }

  /** `Object.values(monthCounts).map(month => ({ ...month, topTecnico, topTecnicoCount }))`. */
  function MonthEntries(ss: seq<Summary<(nat, nat)>>): (r: seq<MonthEntry>)
    ensures |r| == |ss|
    ensures forall i :: 0 <= i < |ss| ==> r[i] == MonthEntryOf(ss[i])
  {
    seq(|ss|, i requires 0 <= i < |ss| => MonthEntryOf(ss[i]))
  }

  /** What `processData` returns for some tickets. */
  function MonthData(hs: seq<Historial>): seq<MonthEntry> {
    SortBy(MonthEntries(Summaries(GroupOf(hs, MonthKey))), EntrySortDate)
  }

  /** `processData`: bucket per month, top technician per month, sort by
      `sortDate`. */
  method ProcessData(hs: seq<Historial>) returns (data: seq<MonthEntry>)
    ensures data == MonthData(hs)
  {
    var monthCounts := GroupTickets(hs, MonthKey);
    var result := Summarize(monthCounts);
    data := SortBy(MonthEntries(result), EntrySortDate);
  }

  /** An entry of the sorted list comes from some bucket. */
  lemma SortedFrom(ss: seq<Summary<(nat, nat)>>, i: nat) returns (j: nat)
    requires i < |SortBy(MonthEntries(ss), EntrySortDate)|
    ensures j < |ss| && SortBy(MonthEntries(ss), EntrySortDate)[i] == MonthEntryOf(ss[j])
  {
    var sorted := SortBy(MonthEntries(ss), EntrySortDate);
    assert sorted[i] in multiset(MonthEntries(ss));
    j :| 0 <= j < |ss| && sorted[i] == MonthEntries(ss)[j];
  }

  /** Months go in non-decreasing `sortDate` order and no month appears
      twice. */
  lemma MonthOrder(hs: seq<Historial>)
    ensures var d := MonthData(hs);
      forall i, j :: 0 <= i < j < |d| ==>
        d[i].sortDate <= d[j].sortDate && MonthOfEntry(d[i]) != MonthOfEntry(d[j])
  {
    var d := MonthData(hs);
    assert SortedBy(d, EntrySortDate);
    GroupKeys(hs, MonthKey);
    forall i, j | 0 <= i < j < |d|
      ensures MonthOfEntry(d[i]) != MonthOfEntry(d[j])
    {
      MonthsDiffer(GroupOf(hs, MonthKey), i, j);
    }
  }

  function MonthOfEntry(e: MonthEntry): (nat, nat) { (e.year, e.month) }

  /** Two positions of the sorted entries hold different months. */
  lemma MonthsDiffer(g: Groups<(nat, nat)>, i: nat, j: nat)
    requires Distinct(Keys(g)) && i < j < |g|
    ensures var d := SortBy(MonthEntries(Summaries(g)), EntrySortDate);
      MonthOfEntry(d[i]) != MonthOfEntry(d[j])
  {
    var ss := Summaries(g);
    var d := SortBy(MonthEntries(ss), EntrySortDate);
    SortedEntriesDiffer(g, i, j);
    var a := SortedFrom(ss, i);
    var b := SortedFrom(ss, j);
    assert a != b;
    assert Keys(g)[a] == g[a].0 && Keys(g)[b] == g[b].0;
    assert MonthOfEntry(d[i]) == ss[a].key == g[a].0;
    assert MonthOfEntry(d[j]) == ss[b].key == g[b].0;
  }

  /** Sorting keeps buckets with distinct months apart. */
  lemma SortedEntriesDiffer(g: Groups<(nat, nat)>, i: nat, j: nat)
    requires Distinct(Keys(g)) && i < j < |g|
    ensures var d := SortBy(MonthEntries(Summaries(g)), EntrySortDate);
      d[i] != d[j]
  {
    MonthEntriesDistinct(g);
    PermutationDistinct(SortBy(MonthEntries(Summaries(g)), EntrySortDate), MonthEntries(Summaries(g)));
  }

  lemma MonthEntriesDistinct(g: Groups<(nat, nat)>)
    requires Distinct(Keys(g))
    ensures Distinct(MonthEntries(Summaries(g)))
  {
    forall i, j | 0 <= i < j < |g|
      ensures MonthEntries(Summaries(g))[i] != MonthEntries(Summaries(g))[j]
    {
      assert Keys(g)[i] == g[i].0 && Keys(g)[j] == g[j].0;
    }
  }

  /** Every month some dated ticket falls in has an entry, and there are as
      many entries as such months. */
  lemma MonthCovers(hs: seq<Historial>)
    ensures var keys := KeysOf(hs, MonthKey);
      var d := MonthData(hs);
      |d| == |Dedup(keys)| &&
      forall k :: k in keys ==> exists i :: 0 <= i < |d| && (d[i].year, d[i].month) == k
  {
    var keys := KeysOf(hs, MonthKey);
    var g := GroupOf(hs, MonthKey);
    var ss := Summaries(g);
    var d := MonthData(hs);
    GroupKeys(hs, MonthKey);
    forall k | k in keys
      ensures exists i :: 0 <= i < |d| && (d[i].year, d[i].month) == k
    {
      assert k in Keys(g);
      var a :| 0 <= a < |g| && Keys(g)[a] == k;
      assert MonthEntries(ss)[a] in multiset(d);
      var i :| 0 <= i < |d| && d[i] == MonthEntries(ss)[a];
    }
  }

  /** Each entry is a month some dated ticket falls in; it counts exactly
      that month's tickets, its `sortDate` is the instant of the first of
      them, and it names their most frequent technician with that
      technician's count. */
  lemma MonthEntriesSpec(hs: seq<Historial>)
    ensures var d := MonthData(hs);
      forall i :: 0 <= i < |d| ==>
        var ts := TicketsWith(hs, MonthKey, (d[i].year, d[i].month));
        var names := NamesIn(ts);
        (d[i].year, d[i].month) in KeysOf(hs, MonthKey) &&
        d[i].soportes == |ts| && |ts| > 0 &&
        ts[0].fechaSoporte.Some? && d[i].sortDate == ts[0].fechaSoporte.value.millis &&
        d[i].topTecnico == FirstMaxKey(TallyOf(names)) &&
        d[i].topTecnicoCount == MaxCount(TallyOf(names))
  {
    var ss := Summaries(GroupOf(hs, MonthKey));
    var d := MonthData(hs);
    forall i | 0 <= i < |d|
      ensures var ts := TicketsWith(hs, MonthKey, (d[i].year, d[i].month));
        var names := NamesIn(ts);
        (d[i].year, d[i].month) in KeysOf(hs, MonthKey) &&
        d[i].soportes == |ts| && |ts| > 0 &&
        ts[0].fechaSoporte.Some? && d[i].sortDate == ts[0].fechaSoporte.value.millis &&
        d[i].topTecnico == FirstMaxKey(TallyOf(names)) &&
        d[i].topTecnicoCount == MaxCount(TallyOf(names))
    {
      var j := SortedFrom(ss, i);
      SummaryOf(hs, MonthKey, j);
      assert (d[i].year, d[i].month) == ss[j].key;
    }
  }

  /** The chart for the selected year only shows months of that year. */
  lemma MonthsInYear(hs: seq<Historial>, selected: string)
    ensures var d := MonthData(FilterByYear(hs, selected));
      forall i :: 0 <= i < |d| ==> DecimalString(d[i].year) == selected
  {
    var fs := FilterByYear(hs, selected);
    var d := MonthData(fs);
    MonthEntriesSpec(fs);
    forall i | 0 <= i < |d|
      ensures DecimalString(d[i].year) == selected
    {
      var ts := TicketsWith(fs, MonthKey, (d[i].year, d[i].month));
      assert ts[0] in fs;
    }
  }

  /** The bars add up to the number of tickets with a valid date. */
  lemma MonthTotal(hs: seq<Historial>)
    ensures SumBy(MonthData(hs), EntrySoportes) == |KeysOf(hs, MonthKey)|
  {
    var g := GroupOf(hs, MonthKey);
    var es := MonthEntries(Summaries(g));
    SumBySort(es, EntrySortDate, EntrySoportes);
    SumMonthEntries(g);
    GroupTotal(hs, MonthKey);
  }

  lemma {:induction false} SumMonthEntries(g: Groups<(nat, nat)>)
    ensures SumBy(MonthEntries(Summaries(g)), EntrySoportes) == SumBy(GroupCounts(g), (n: nat) => n as int)
  {
    if |g| > 0 {
      var p := g[..|g| - 1];
      SumMonthEntries(p);
      assert MonthEntries(Summaries(g))[..|g| - 1] == MonthEntries(Summaries(p));
      assert GroupCounts(g)[..|g| - 1] == GroupCounts(p);
    }
  }

  class Chart {
    var data: seq<MonthEntry>
    var selectedYear: string
    var availableYears: seq<string>

    /** The selection starts at the current year. */
    constructor(currentYear: nat)
      ensures data == [] && selectedYear == DecimalString(currentYear) && availableYears == []
    {
      data := [];
      selectedYear := DecimalString(currentYear);
      availableYears := [];
    }

    /** The effect on `historial`: with tickets, the year list is rebuilt,
        the selection is reconciled with it, and the chart shows the months
        of the year that was selected when the effect ran (a changed
        selection re-runs the effect, see `ReconcileSpec`); with none,
        nothing changes. */
    method Refresh(historial: seq<Historial>)
      modifies this
      ensures |historial| == 0 ==>
        data == old(data) && selectedYear == old(selectedYear) && availableYears == old(availableYears)
      ensures |historial| > 0 ==>
        availableYears == YearStrings(AvailableYears(historial)) &&
        selectedYear == ReconcileYear(old(selectedYear), AvailableYears(historial)) &&
        data == MonthData(FilterByYear(historial, old(selectedYear)))
    {
      if |historial| > 0 {
        var years := AvailableYears(historial);
        var current := selectedYear;
        availableYears := YearStrings(years);
        if |years| > 0 && current !in YearStrings(years) {
          selectedYear := DecimalString(years[0]);
        }
        assert selectedYear == ReconcileYear(current, years);
        data := ProcessData(FilterByYear(historial, current));
      }
    }

    /** Choosing a year in the selector (`onValueChange={setSelectedYear}`). */
    method SelectYear(year: string)
      modifies this
      ensures selectedYear == year && data == old(data) && availableYears == old(availableYears)
    {
      selectedYear := year;
    }
  }
}
