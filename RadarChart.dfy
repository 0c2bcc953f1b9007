/** The subject-count radar shared by the subject, technician-subject and
    technician-department charts: a `forEach` that counts one key per
    selected ticket while keeping the running maximum, then one point per
    key with the common scale `Math.ceil(maxVal * 1.2) || 10`. */
module RadarChart {
  import opened Seqs
  import opened Assoc
  import opened Js
  import opened Counting
  import opened Entities

  /** `{ subject: capitalize(key), count, fullMark }`. */
  datatype RadarPoint = RadarPoint(subject: string, count: nat, fullMark: nat)

  function PointCount(p: RadarPoint): int { p.count }

  /** The key each ticket contributes, in ticket order: tickets whose
      selector gives `None` contribute nothing. */
  function Selected(hs: seq<Historial>, sel: Historial -> Option<string>): seq<string> {
    if |hs| == 0 then []
    else
      Selected(hs[..|hs| - 1], sel) +
      (match sel(hs[|hs| - 1]) case Some(k) => [k] case None => [])
  }

  /** One key per selected ticket: as many keys as tickets the selector
      accepts. */
  lemma {:induction false} SelectedLength(hs: seq<Historial>, sel: Historial -> Option<string>)
    ensures |Selected(hs, sel)| == |Filter(hs, (h: Historial) => sel(h).Some?)|
  {
    if |hs| > 0 {
      SelectedLength(hs[..|hs| - 1], sel);
    }
  }

  /** A key occurs once for each ticket the selector maps to it. */
  lemma {:induction false} SelectedCount(hs: seq<Historial>, sel: Historial -> Option<string>, k: string)
    ensures multiset(Selected(hs, sel))[k] == |Filter(hs, (h: Historial) => sel(h) == Some(k))|
  {
    if |hs| > 0 {
      SelectedCount(hs[..|hs| - 1], sel, k);
    }
  }

  lemma SelectedStep(hs: seq<Historial>, i: nat, sel: Historial -> Option<string>)
    requires i < |hs|
    ensures Selected(hs[..i + 1], sel) == Selected(hs[..i], sel) + (match sel(hs[i]) case Some(k) => [k] case None => [])
  {
    assert hs[..i + 1][..i] == hs[..i];
  }

  /** `Object.entries(counts).map(...)`. */
  function Points(t: Tally<string>, fullMark: nat): (ps: seq<RadarPoint>)
    ensures |ps| == |t|
  {
    seq(|t|, i requires 0 <= i < |t| => RadarPoint(Capitalize(t[i].0), t[i].1, fullMark))
  }

  /** What `processData` returns for the tickets and the selector. */
  function RadarData(hs: seq<Historial>, sel: Historial -> Option<string>): seq<RadarPoint> {
    var t := TallyOf(Selected(hs, sel));
    Points(t, FullMark(MaxCount(t)))
  }

  /** The counting `forEach` with its running `maxVal`. */
  method CountSelected(hs: seq<Historial>, sel: Historial -> Option<string>) returns (counts: Tally<string>, maxVal: nat)
    ensures counts == TallyOf(Selected(hs, sel))
    ensures maxVal == MaxCount(counts)
  {
    counts, maxVal := [], 0;
    ghost var seen: seq<string> := [];
    for i := 0 to |hs|
      invariant seen == Selected(hs[..i], sel)
      invariant counts == TallyOf(seen)
      invariant maxVal == MaxCount(counts)
    {
      SelectedStep(hs, i, sel);
      var key := sel(hs[i]);
      if key.Some? {
        var k := key.value;
        TallyOfSnoc(seen, k);
        TallyKeys(seen);
        TallyMaxStep(counts, k);
        counts := Bump(counts, k);
        seen := seen + [k];
        if CountIn(counts, k) > maxVal {
          maxVal := CountIn(counts, k);
        }
      }
    }
    assert hs[..|hs|] == hs;
  }

  /** `processData`: count, scale, and build the points. */
  method ProcessData(hs: seq<Historial>, sel: Historial -> Option<string>) returns (data: seq<RadarPoint>)
    ensures data == RadarData(hs, sel)
  {
    var counts, maxVal := CountSelected(hs, sel);
    var fullMark := FullMark(maxVal);
    data := Points(counts, fullMark);
  }

  lemma {:induction false} SumPoints(t: Tally<string>, fullMark: nat)
    ensures SumBy(Points(t, fullMark), PointCount) == Total(t)
  {
    if |t| > 0 {
      var p := t[..|t| - 1];
      SumPoints(p, fullMark);
      assert Points(t, fullMark)[..|t| - 1] == Points(p, fullMark);
    }
  }

  /** One point per distinct selected key, in first-seen order, labelled
      with the capitalised key and counting the tickets that gave it; every
      count fits under the shared scale; the counts add up to the number of
      selected tickets; there is no point exactly when no ticket is
      selected. */
  lemma RadarDataSpec(hs: seq<Historial>, sel: Historial -> Option<string>)
    ensures var keys := Selected(hs, sel);
      var d := RadarData(hs, sel);
      |d| == |Dedup(keys)| &&
      (|d| == 0 <==> |keys| == 0) &&
      (forall i :: 0 <= i < |d| ==>
        d[i].subject == Capitalize(Dedup(keys)[i]) &&
        d[i].count == multiset(keys)[Dedup(keys)[i]] &&
        d[i].count <= d[i].fullMark &&
        d[i].fullMark == FullMark(MaxCount(TallyOf(keys)))) &&
      SumBy(d, PointCount) == |keys|
  {
    var keys := Selected(hs, sel);
    RadarShape(keys);
    RadarPoints(keys);
    RadarSum(keys);
  }

  lemma RadarShape(keys: seq<string>)
    ensures var t := TallyOf(keys);
      |t| == |Dedup(keys)| && (|t| == 0 <==> |keys| == 0)
  {
    TallyKeys(keys);
    if |keys| > 0 {
      assert keys[0] in Dedup(keys);
    }
  }

  lemma RadarPoints(keys: seq<string>)
    ensures var t := TallyOf(keys);
      var d := Points(t, FullMark(MaxCount(t)));
      forall i :: 0 <= i < |d| && i < |Dedup(keys)| ==>
        d[i].subject == Capitalize(Dedup(keys)[i]) && d[i].count == multiset(keys)[Dedup(keys)[i]] &&
        d[i].count <= d[i].fullMark && d[i].fullMark == FullMark(MaxCount(t))
  {
    var t := TallyOf(keys);
    var d := Points(t, FullMark(MaxCount(t)));
    forall i | 0 <= i < |d| && i < |Dedup(keys)|
      ensures d[i].subject == Capitalize(Dedup(keys)[i]) && d[i].count == multiset(keys)[Dedup(keys)[i]] &&
        d[i].count <= d[i].fullMark && d[i].fullMark == FullMark(MaxCount(t))
    {
      PointAt(keys, i);
    }
  }

  lemma RadarSum(keys: seq<string>)
    ensures var t := TallyOf(keys);
      SumBy(Points(t, FullMark(MaxCount(t))), PointCount) == |keys|
  {
    var t := TallyOf(keys);
    TallyTotal(keys);
    SumPoints(t, FullMark(MaxCount(t)));
  }

  /** The point at index `i` of the radar for `keys`. */
  lemma PointAt(keys: seq<string>, i: nat)
    requires i < |TallyOf(keys)| && i < |Dedup(keys)|
    ensures var t := TallyOf(keys);
      var d := Points(t, FullMark(MaxCount(t)));
      d[i].subject == Capitalize(Dedup(keys)[i]) && d[i].count == multiset(keys)[Dedup(keys)[i]] &&
      d[i].count <= d[i].fullMark && d[i].fullMark == FullMark(MaxCount(t))
  {
    var t := TallyOf(keys);
    TallyKeys(keys);
    TallyEntry(keys, i);
    assert Keys(t)[i] == t[i].0;
  }

  /** The scale is `ceil(1.2 * m)` for the largest multiplicity `m` of a
      selected key, and 10 when nothing is selected. */
  lemma FullMarkSpec(hs: seq<Historial>, sel: Historial -> Option<string>)
    ensures var keys := Selected(hs, sel);
      var m := MaxCount(TallyOf(keys));
      (forall x :: x in multiset(keys) ==> multiset(keys)[x] <= m) &&
      (|keys| > 0 ==> (exists x :: x in multiset(keys) && multiset(keys)[x] == m) &&
                      5 * FullMark(m) >= 6 * m && 5 * (FullMark(m) - 1) < 6 * m) &&
      (|keys| == 0 ==> FullMark(m) == 10)
  {
    TallyMax(Selected(hs, sel));
  }
}
