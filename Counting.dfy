/** Occurrence counting as the statistics code does it: a dictionary filled
    by `counts[k] = (counts[k] || 0) + 1` inside a `forEach`, an arg-max scan
    over `Object.entries(counts)` that keeps the first entry strictly above
    the running maximum, and the radar-chart scale `Math.ceil(max * 1.2) || 10`. */
module Counting {
  import opened Seqs
  import opened Assoc

  /** A count dictionary, in insertion order. */
  type Tally<K> = Assoc<K, nat>

  /** `counts[k] || 0`. */
  function CountIn<K(==)>(t: Tally<K>, k: K): nat {
    match Lookup(t, k)
    case Some(n) => n
    case None => 0
  }

  /** `counts[k] = (counts[k] || 0) + 1`. */
  function Bump<K(==)>(t: Tally<K>, k: K): Tally<K> {
    Put<K, nat>(t, k, CountIn(t, k) + 1)
  }

  /** The dictionary a counting `forEach` over `xs` leaves behind. */
  function TallyOf<K(==)>(xs: seq<K>): Tally<K> {
    if |xs| == 0 then [] else Bump(TallyOf(xs[..|xs| - 1]), xs[|xs| - 1])
  }

  lemma TallyOfSnoc<K>(xs: seq<K>, x: K)
    ensures TallyOf(xs + [x]) == Bump(TallyOf(xs), x)
  {
    assert (xs + [x])[..|xs + [x]| - 1] == xs;
  }

  lemma TallyOfLast<K>(xs: seq<K>)
    requires |xs| > 0
    ensures TallyOf(xs) == Bump(TallyOf(xs[..|xs| - 1]), xs[|xs| - 1])
  {
  }

  lemma BumpPut<K>(t: Tally<K>, k: K)
    ensures Bump(t, k) == Put<K, nat>(t, k, CountIn(t, k) + 1)
  {
  }

  function Counts<K>(t: Tally<K>): seq<nat> {
    seq(|t|, i requires 0 <= i < |t| => t[i].1)
  }

  function Total<K>(t: Tally<K>): nat {
    if |t| == 0 then 0 else Total(t[..|t| - 1]) + t[|t| - 1].1
  }

  /** The largest count, 0 for an empty dictionary (the `maxVal` the charts
      keep). */
  function MaxCount<K>(t: Tally<K>): (m: nat)
    ensures forall i :: 0 <= i < |t| ==> t[i].1 <= m
    ensures |t| > 0 ==> exists i :: 0 <= i < |t| && t[i].1 == m
    ensures |t| == 0 ==> m == 0
  {
    if |t| == 0 then 0
    else
      var p := MaxCount(t[..|t| - 1]);
      assert forall i :: 0 <= i < |t| - 1 ==> t[..|t| - 1][i] == t[i];
      if t[|t| - 1].1 > p then t[|t| - 1].1 else p
  }

  /** Each key is counted exactly as often as it occurs in `xs`. */
  lemma {:induction false} TallyCount<K>(xs: seq<K>, k: K)
    ensures CountIn(TallyOf(xs), k) == multiset(xs)[k]
  {
    if |xs| > 0 {
      var p := xs[..|xs| - 1];
      TallyCount(p, k);
      LookupPut<K, nat>(TallyOf(p), xs[|xs| - 1], CountIn(TallyOf(p), xs[|xs| - 1]) + 1, k);
      MultisetLast(xs);
    }
  }

  /** One entry per distinct key, in order of first appearance. */
  lemma {:induction false} TallyKeys<K>(xs: seq<K>)
    ensures Keys(TallyOf(xs)) == Dedup(xs)
    ensures Distinct(Keys(TallyOf(xs)))
  {
    if |xs| > 0 {
      var p := xs[..|xs| - 1];
      var x := xs[|xs| - 1];
      var t := TallyOf(p);
      TallyKeys(p);
      KeysPut<K, nat>(t, x, CountIn(t, x) + 1);
      TallyOfLast(xs);
      BumpPut(t, x);
      assert Dedup(xs) == if x in Dedup(p) then Dedup(p) else Dedup(p) + [x];
    }
  }

  /** Every recorded count is at least one. */
  lemma {:induction false} TallyPositive<K>(xs: seq<K>)
    ensures forall i :: 0 <= i < |TallyOf(xs)| ==> TallyOf(xs)[i].1 >= 1
  {
    if |xs| > 0 {
      var p := xs[..|xs| - 1];
      TallyPositive(p);
      PutPositive(TallyOf(p), xs[|xs| - 1], CountIn(TallyOf(p), xs[|xs| - 1]) + 1);
    }
  }

  lemma {:induction false} PutPositive<K>(t: Tally<K>, k: K, v: nat)
    requires v >= 1 && forall i :: 0 <= i < |t| ==> t[i].1 >= 1
    ensures forall i :: 0 <= i < |Put(t, k, v)| ==> Put(t, k, v)[i].1 >= 1
  {
    if |t| > 0 && t[0].0 != k {
      PutPositive(t[1..], k, v);
    }
  }

  lemma {:induction false} TotalCons<K>(e: (K, nat), t: Tally<K>)
    ensures Total([e] + t) == e.1 + Total(t)
  {
    if |t| > 0 {
      TotalCons(e, t[..|t| - 1]);
      assert ([e] + t)[..|[e] + t| - 1] == [e] + t[..|t| - 1];
    }
  }

  /** One increment adds exactly one to the total. */
  lemma {:induction false} TotalPut<K>(t: Tally<K>, k: K, v: nat)
    ensures Total(Put(t, k, v)) == Total(t) - CountIn(t, k) + v
  {
    if |t| == 0 {
      assert Total([(k, v)]) == Total([(k, v)][..0]) + v;
    } else {
      TotalCons(t[0], t[1..]);
      assert t == [t[0]] + t[1..];
      if t[0].0 == k {
        TotalCons((k, v), t[1..]);
      } else {
        TotalPut(t[1..], k, v);
        TotalCons(t[0], Put(t[1..], k, v));
        CountInNonNeg(t[1..], k);
      }
    }
  }

  lemma {:induction false} CountInNonNeg<K>(t: Tally<K>, k: K)
    ensures CountIn(t, k) <= Total(t)
  {
    if |t| > 0 {
      TotalCons(t[0], t[1..]);
      assert t == [t[0]] + t[1..];
      if t[0].0 != k {
        CountInNonNeg(t[1..], k);
      }
    }
  }

  /** The counts add up to the number of counted items. */
  lemma {:induction false} TallyTotal<K>(xs: seq<K>)
    ensures Total(TallyOf(xs)) == |xs|
  {
    if |xs| > 0 {
      var p := xs[..|xs| - 1];
      var x := xs[|xs| - 1];
      TallyTotal(p);
      TallyOfLast(xs);
      TotalBump(TallyOf(p), x);
    }
  }

  lemma TotalBump<K>(t: Tally<K>, k: K)
    ensures Total(Bump(t, k)) == Total(t) + 1
  {
    BumpPut(t, k);
    CountInNonNeg(t, k);
    TotalPut(t, k, CountIn(t, k) + 1);
  }

  /** Each entry of a tally holds the multiplicity of its key. */
  lemma TallyEntry<K>(xs: seq<K>, j: nat)
    requires j < |TallyOf(xs)|
    ensures TallyOf(xs)[j].1 == multiset(xs)[TallyOf(xs)[j].0]
  {
    TallyKeys(xs);
    LookupAt(TallyOf(xs), j);
    TallyCount(xs, TallyOf(xs)[j].0);
  }

  /** The largest count is the multiplicity of the most frequent item. */
  lemma TallyMax<K>(xs: seq<K>)
    ensures forall x :: x in multiset(xs) ==> multiset(xs)[x] <= MaxCount(TallyOf(xs))
    ensures |xs| > 0 ==> exists x :: x in multiset(xs) && multiset(xs)[x] == MaxCount(TallyOf(xs))
    ensures |xs| == 0 <==> MaxCount(TallyOf(xs)) == 0
  {
    var t := TallyOf(xs);
    TallyKeys(xs);
    forall x | x in multiset(xs)
      ensures multiset(xs)[x] <= MaxCount(t)
    {
      assert x in xs;
      assert x in Keys(t);
      var j :| 0 <= j < |t| && Keys(t)[j] == x;
      TallyEntry(xs, j);
    }
    if |xs| > 0 {
      assert xs[0] in Keys(t);
      var i :| 0 <= i < |t| && t[i].1 == MaxCount(t);
      TallyEntry(xs, i);
      TallyPositive(xs);
      assert t[i].0 in multiset(xs);
    }
  }

  /** The key an arg-max scan picks: the first entry whose count beats every
      earlier one, or `None` when no count beats the initial 0. */
  function FirstMaxKey<K>(t: Tally<K>): Option<K> {
    if |t| == 0 then None
    else if t[|t| - 1].1 > MaxCount(t[..|t| - 1]) then Some(t[|t| - 1].0)
    else FirstMaxKey(t[..|t| - 1])
  }

  /** The arg-max is absent exactly when every count is 0 (for a tally: when
      nothing was counted); otherwise it carries the maximum count and no
      earlier entry reaches that count, so ties go to the first key. */
  lemma {:induction false} FirstMaxKeySpec<K>(t: Tally<K>)
    ensures FirstMaxKey(t).None? <==> MaxCount(t) == 0
    ensures FirstMaxKey(t).Some? ==>
      exists i :: 0 <= i < |t| && t[i].0 == FirstMaxKey(t).value && t[i].1 == MaxCount(t) &&
        forall j :: 0 <= j < i ==> t[j].1 < MaxCount(t)
  {
    if |t| > 0 {
      var p: Tally<K> := t[..|t| - 1];
      FirstMaxKeySpec(p);
      assert forall i :: 0 <= i < |p| ==> p[i] == t[i];
      if t[|t| - 1].1 > MaxCount(p) {
        var i := |t| - 1;
        assert forall j :: 0 <= j < i ==> t[j].1 < MaxCount(t) by {
          forall j | 0 <= j < i ensures t[j].1 < MaxCount(t) { assert t[j] == p[j]; }
        }
      } else if MaxCount(p) > 0 {
        var i :| 0 <= i < |p| && p[i].0 == FirstMaxKey(p).value && p[i].1 == MaxCount(p) &&
          forall j :: 0 <= j < i ==> p[j].1 < MaxCount(p);
        assert t[i] == p[i];
      }
    }
  }

  /** Every key of a tally occurs in what was counted. */
  lemma TallyKeyIn<K>(xs: seq<K>, i: nat)
    requires i < |TallyOf(xs)|
    ensures TallyOf(xs)[i].0 in xs
  {
    TallyKeys(xs);
    assert Keys(TallyOf(xs))[i] == TallyOf(xs)[i].0;
  }

  /** One more entry of the arg-max scan. */
  lemma ScanStep<K>(t: Tally<K>, i: nat)
    requires i < |t|
    ensures MaxCount(t[..i + 1]) == if t[i].1 > MaxCount(t[..i]) then t[i].1 else MaxCount(t[..i])
    ensures FirstMaxKey(t[..i + 1]) == if t[i].1 > MaxCount(t[..i]) then Some(t[i].0) else FirstMaxKey(t[..i])
  {
    assert t[..i + 1][..i] == t[..i];
  }

  /** The scan `for (const [k, c] of Object.entries(t)) if (c > max) { max = c; top = k }`
      with `top = null` and `max = 0` to start. */
  method ArgMax<K>(t: Tally<K>) returns (top: Option<K>, topCount: nat)
    ensures top == FirstMaxKey(t)
    ensures topCount == MaxCount(t)
  {
    top, topCount := None, 0;
    var i := 0;
    while i < |t|
      invariant 0 <= i <= |t|
      invariant top == FirstMaxKey(t[..i])
      invariant topCount == MaxCount(t[..i])
    {
      assert t[..i + 1][..i] == t[..i];
      if t[i].1 > topCount {
        topCount := t[i].1;
        top := Some(t[i].0);
      }
      i := i + 1;
    }
    assert t[..|t|] == t;
  }

  /** `Math.ceil(max * 1.2) || 10`, with the factor taken as the exact
      rational 6/5. */
  function FullMark(max: nat): (m: nat)
    ensures m >= max
    ensures max > 0 ==> 5 * m >= 6 * max && 5 * (m - 1) < 6 * max
    ensures max == 0 ==> m == 10
  {
    if max == 0 then 10 else (6 * max + 4) / 5
  }

  /** Counting one more item raises the maximum to that item's new count if
      it exceeds the old maximum (the `if (c > maxVal) maxVal = c` update). */
  lemma {:induction false} MaxCountBump<K>(t: Tally<K>, k: K)
    requires Distinct(Keys(t))
    ensures MaxCount(Bump(t, k)) == if CountIn(t, k) + 1 > MaxCount(t) then CountIn(t, k) + 1 else MaxCount(t)
  {
    var c: nat := CountIn(t, k) + 1;
    if k in Keys(t) {
      var i :| 0 <= i < |t| && t[i].0 == k;
      LookupAt(t, i);
      PutAt<K, nat>(t, i, c);
      MaxCountRaise(t, i, c);
    } else {
      PutNew<K, nat>(t, k, c);
      MaxCountSnoc(t, (k, c));
    }
  }

  /** Raising the count at one index raises the maximum to at least it. */
  lemma MaxCountRaise<K>(t: Tally<K>, i: nat, c: nat)
    requires i < |t| && c >= t[i].1
    ensures MaxCount(t[i := (t[i].0, c)]) == if c > MaxCount(t) then c else MaxCount(t)
  {
    var u := t[i := (t[i].0, c)];
    var M := if c > MaxCount(t) then c else MaxCount(t);
    forall j | 0 <= j < |u|
      ensures u[j].1 <= M
    {
      if j != i {
        assert u[j] == t[j];
      }
    }
    if c <= MaxCount(t) {
      var j :| 0 <= j < |t| && t[j].1 == MaxCount(t);
      if j != i {
        assert u[j] == t[j];
      }
      assert u[j].1 == M;
    } else {
      assert u[i].1 == M;
    }
  }

  /** Appending an entry raises the maximum to at least its count. */
  lemma MaxCountSnoc<K>(t: Tally<K>, e: (K, nat))
    ensures MaxCount(t + [e]) == if e.1 > MaxCount(t) then e.1 else MaxCount(t)
  {
    assert (t + [e])[..|t|] == t;
  }

  /** The running maximum of a counting loop: after counting `k` once
      more, the new maximum is the larger of the old one and `k`'s new
      count. */
  lemma TallyMaxStep<K>(t: Tally<K>, k: K)
    requires Distinct(Keys(t))
    ensures CountIn(Bump(t, k), k) == CountIn(t, k) + 1
    ensures MaxCount(Bump(t, k)) == if CountIn(Bump(t, k), k) > MaxCount(t) then CountIn(Bump(t, k), k) else MaxCount(t)
  {
    MaxCountBump(t, k);
    LookupPut<K, nat>(t, k, CountIn(t, k) + 1, k);
  }

  lemma {:induction false} PutNew<K, V>(a: Assoc<K, V>, k: K, v: V)
    requires k !in Keys(a)
    ensures Put(a, k, v) == a + [(k, v)]
  {
    if |a| > 0 {
      assert Keys(a) == [a[0].0] + Keys(a[1..]);
      PutNew(a[1..], k, v);
      assert a == [a[0]] + a[1..];
    }
  }

  // ---------------------------------------------------------------------
  // The most frequent key of a list of objects, and the object found for it

  function MapKeys<T, K>(xs: seq<T>, key: T -> K): (ks: seq<K>)
    ensures |ks| == |xs|
    ensures forall i :: 0 <= i < |xs| ==> ks[i] == key(xs[i])
  {
    seq(|xs|, i requires 0 <= i < |xs| => key(xs[i]))
  }

  lemma MapKeysConcat<T, K>(a: seq<T>, b: seq<T>, key: T -> K)
    ensures MapKeys(a + b, key) == MapKeys(a, key) + MapKeys(b, key)
  {
  }

  lemma MapKeysSnoc<T, K>(a: seq<T>, x: T, key: T -> K)
    ensures MapKeys(a + [x], key) == MapKeys(a, key) + [key(x)]
  {
  }

  /** An inner `forEach` that counts the key of each object in turn,
      continuing a tally already filled from the keys `seen`. */
  method CountEach<T, K(==)>(counts: Tally<K>, xs: seq<T>, key: T -> K, ghost seen: seq<K>) returns (r: Tally<K>)
    requires counts == TallyOf(seen)
    ensures r == TallyOf(seen + MapKeys(xs, key))
  {
    r := counts;
    assert seen + MapKeys(xs[..0], key) == seen;
    for j := 0 to |xs|
      invariant r == TallyOf(seen + MapKeys(xs[..j], key))
    {
      CountEachStep(seen, xs, j, key);
      TallyOfSnoc(seen + MapKeys(xs[..j], key), key(xs[j]));
      r := Bump(r, key(xs[j]));
    }
    assert xs[..|xs|] == xs;
  }

  lemma CountEachStep<T, K>(seen: seq<K>, xs: seq<T>, j: nat, key: T -> K)
    requires j < |xs|
    ensures seen + MapKeys(xs[..j + 1], key) == (seen + MapKeys(xs[..j], key)) + [key(xs[j])]
  {
    assert xs[..j + 1] == xs[..j] + [xs[j]];
    MapKeysSnoc(xs[..j], xs[j], key);
  }

  /** `xs.find(x => key(x) === k)`: the first object with that key. */
  function FirstWith<T, K(==)>(xs: seq<T>, key: T -> K, k: K): (r: Option<T>)
    ensures r.Some? <==> k in MapKeys(xs, key)
    ensures r.Some? ==> key(r.value) == k && r.value in xs
  {
    if |xs| == 0 then None
    else if key(xs[0]) == k then Some(xs[0])
    else
      assert MapKeys(xs, key) == [key(xs[0])] + MapKeys(xs[1..], key);
      FirstWith(xs[1..], key, k)
  }

  /** Searching a concatenation searches the first part, then the second. */
  lemma {:induction false} FirstWithConcat<T, K>(a: seq<T>, b: seq<T>, key: T -> K, k: K)
    ensures FirstWith(a + b, key, k) == if FirstWith(a, key, k).Some? then FirstWith(a, key, k) else FirstWith(b, key, k)
  {
    if |a| > 0 {
      assert (a + b)[1..] == a[1..] + b;
      if key(a[0]) != k {
        FirstWithConcat(a[1..], b, key, k);
      }
    } else {
      assert a + b == b;
    }
  }

  /** The object of the arg-max key: count the keys, pick the first key
      whose count beats all earlier ones, and take the first object with
      that key. */
  function TopBy<T, K(==)>(xs: seq<T>, key: T -> K): Option<T> {
    FoundFor(FirstMaxKey(TallyOf(MapKeys(xs, key))), xs, key)
  }

  /** The object found for a chosen key, if a key was chosen. */
  function FoundFor<T, K(==)>(top: Option<K>, xs: seq<T>, key: T -> K): Option<T> {
    match top
    case None => None
    case Some(k) => FirstWith(xs, key, k)
  }

  /** The arg-max of a tally of `xs`: absent exactly when `xs` is empty;
      otherwise an item of largest multiplicity, every item first seen
      before it occurring strictly less often (ties go to the first seen). */
  lemma MostFrequent<K>(xs: seq<K>)
    ensures var t := TallyOf(xs);
      var m := MaxCount(t);
      (FirstMaxKey(t).None? <==> |xs| == 0) &&
      (|xs| == 0 ==> m == 0) &&
      (forall y :: y in multiset(xs) ==> multiset(xs)[y] <= m) &&
      (FirstMaxKey(t).Some? ==>
        (FirstMaxKey(t).value in xs && multiset(xs)[FirstMaxKey(t).value] == m &&
         exists i :: 0 <= i < |Dedup(xs)| && Dedup(xs)[i] == FirstMaxKey(t).value &&
           forall j :: 0 <= j < i ==> multiset(xs)[Dedup(xs)[j]] < m))
  {
    var t := TallyOf(xs);
    FirstMaxKeySpec(t);
    TallyMax(xs);
    TallyKeys(xs);
    if FirstMaxKey(t).Some? {
      var k := FirstMaxKey(t).value;
      var i :| 0 <= i < |t| && t[i].0 == k && t[i].1 == MaxCount(t) &&
        forall j :: 0 <= j < i ==> t[j].1 < MaxCount(t);
      TallyEntry(xs, i);
      assert Keys(t)[i] == k;
      forall j | 0 <= j < i
        ensures multiset(xs)[Dedup(xs)[j]] < MaxCount(t)
      {
        TallyEntry(xs, j);
        assert Keys(t)[j] == t[j].0;
      }
    }
  }

  /** There is a top object exactly when there is any object. Its key
      occurs at least as often as any other key, and every key first seen
      before it occurs strictly less often: ties go to the key seen first. */
  lemma TopBySpec<T, K>(xs: seq<T>, key: T -> K)
    ensures TopBy(xs, key).None? <==> |xs| == 0
    ensures TopBy(xs, key).Some? ==>
      var ks := MapKeys(xs, key);
      var k := key(TopBy(xs, key).value);
      TopBy(xs, key).value in xs &&
      (forall y :: y in multiset(ks) ==> multiset(ks)[y] <= multiset(ks)[k]) &&
      exists i :: 0 <= i < |Dedup(ks)| && Dedup(ks)[i] == k &&
        forall j :: 0 <= j < i ==> multiset(ks)[Dedup(ks)[j]] < multiset(ks)[k]
  {
    var ks := MapKeys(xs, key);
    MostFrequent(ks);
  }
}
