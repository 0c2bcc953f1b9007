/** The date filters the statistics charts apply before counting: the
    "last N days" window (`filterByPeriod`) and the year/month selector
    (`filterByDate`). */
module Periods {
  import opened Seqs
  import opened Entities

  /** `24 * 60 * 60 * 1000`. */
  const DayMillis: int := 86400000

  /** `new Date(x) >= startDate`: an invalid or missing date compares false. */
  predicate OnOrAfter(d: Option<Date>, start: int) {
    d.Some? && d.value.millis >= start
  }

  /** `historial.filter(h => new Date(h.fecha_soporte) >= startDate)` with
      `startDate = now - days * DayMillis`. */
  function FilterByPeriod(hs: seq<Historial>, now: int, days: nat): (r: seq<Historial>)
    ensures |r| <= |hs|
    ensures forall i :: 0 <= i < |r| ==>
      r[i].fechaSoporte.Some? && r[i].fechaSoporte.value.millis >= now - days * DayMillis
  {
    Filter(hs, (h: Historial) => OnOrAfter(h.fechaSoporte, now - days * DayMillis))
  }

  /** The same window measured on `created` (EstadisticasTecnicos). */
  function FilterByCreated(hs: seq<Historial>, now: int, days: nat): (r: seq<Historial>)
    ensures |r| <= |hs|
    ensures forall i :: 0 <= i < |r| ==>
      r[i].created.Some? && r[i].created.value.millis >= now - days * DayMillis
  {
    Filter(hs, (h: Historial) => OnOrAfter(h.created, now - days * DayMillis))
  }

  /** The period filter keeps exactly the tickets dated no earlier than the
      window start, each as often as it occurs, in their original order. */
  lemma FilterByPeriodExact(hs: seq<Historial>, now: int, days: nat, h: Historial)
    ensures multiset(FilterByPeriod(hs, now, days))[h] ==
      if h.fechaSoporte.Some? && h.fechaSoporte.value.millis >= now - days * DayMillis
      then multiset(hs)[h] else 0
  {
    FilterMultiset(hs, (h: Historial) => OnOrAfter(h.fechaSoporte, now - days * DayMillis), h);
  }

  lemma FilterByCreatedExact(hs: seq<Historial>, now: int, days: nat, h: Historial)
    ensures multiset(FilterByCreated(hs, now, days))[h] ==
      if h.created.Some? && h.created.value.millis >= now - days * DayMillis
      then multiset(hs)[h] else 0
  {
    FilterMultiset(hs, (h: Historial) => OnOrAfter(h.created, now - days * DayMillis), h);
  }

  /** A wider window keeps every ticket a narrower one keeps (the weekly
      chart never shows more than the monthly, nor the monthly more than the
      yearly). */
  lemma FilterByPeriodMonotone(hs: seq<Historial>, now: int, d1: nat, d2: nat, h: Historial)
    requires d1 <= d2
    ensures multiset(FilterByPeriod(hs, now, d1))[h] <= multiset(FilterByPeriod(hs, now, d2))[h]
  {
    FilterByPeriodExact(hs, now, d1, h);
    FilterByPeriodExact(hs, now, d2, h);
  }

  /** A `selectedYear` or `selectedMonth` prop: the string `'all'`, a string
      that `parseInt` reads as a number, or anything `parseInt` turns into
      `NaN` (such as `undefined`). */
  datatype Selector = All | Numeric(n: int) | NotANumber

  /** The per-ticket test of `filterByDate` once the year is not `'all'`:
      it needs a date, the year must equal `parseInt(selectedYear)` and,
      unless the month is `'all'`, the 1-based month must equal
      `parseInt(selectedMonth)`; a comparison with `NaN` always fails. */
  predicate KeptByDate(d: Option<Date>, year: Selector, month: Selector) {
    d.Some? && year.Numeric? && d.value.year == year.n &&
    (month.All? || (month.Numeric? && d.value.month == month.n))
  }

  function FilterByDate(hs: seq<Historial>, year: Selector, month: Selector): (r: seq<Historial>)
    ensures |r| <= |hs|
  {
    if year.All? then hs else Filter(hs, (h: Historial) => KeptByDate(h.fechaSoporte, year, month))
  }

  /** `selectedYear === 'all'` returns the input unchanged, whatever the month. */
  lemma FilterByDateAll(hs: seq<Historial>, month: Selector)
    ensures FilterByDate(hs, All, month) == hs
  {
  }

  /** Otherwise a ticket is kept exactly when it has a date in the selected
      year and, unless the month is `'all'`, in the selected month. */
  lemma FilterByDateExact(hs: seq<Historial>, year: Selector, month: Selector, h: Historial)
    requires !year.All?
    ensures multiset(FilterByDate(hs, year, month))[h] ==
      if h.fechaSoporte.Some? && year.Numeric? && h.fechaSoporte.value.year == year.n &&
         (month.All? || (month.Numeric? && h.fechaSoporte.value.month == month.n))
      then multiset(hs)[h] else 0
  {
    FilterMultiset(hs, (h: Historial) => KeptByDate(h.fechaSoporte, year, month), h);
  }

  /** A year that `parseInt` reads as `NaN`, or a month that does when the
      month is not `'all'`, keeps nothing at all. */
  lemma {:induction false} FilterByDateNaN(hs: seq<Historial>, year: Selector, month: Selector)
    requires year.NotANumber? || (year.Numeric? && month.NotANumber?)
    ensures FilterByDate(hs, year, month) == []
  {
    if |hs| > 0 {
      FilterByDateNaN(hs[..|hs| - 1], year, month);
    }
  }
}
