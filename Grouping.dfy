/** The bucket-per-key `forEach` of the department and monthly charts:
    `if (!stats[k]) stats[k] = { count: 0, first: h, tecnicos: {} }`,
    `stats[k].count += 1`, and one more for each truthy technician name of
    the ticket; then, per bucket, the arg-max technician name. */
module Grouping {
  import opened Seqs
  import opened Assoc
  import opened Counting
  import opened Entities

  /** A bucket: how many tickets fell into it, the first of them, and the
      tally of their technicians' names. */
  datatype Stat = Stat(count: nat, first: Historial, names: Tally<string>)

  type Groups<K> = Assoc<K, Stat>

  /** The truthy names of a ticket's technicians, in order (`if (tName)`). */
  function NamedTecnicos(ts: seq<Tecnico>): seq<string> {
    if |ts| == 0 then []
    else NamedTecnicos(ts[..|ts| - 1]) + (if ts[|ts| - 1].nombre != "" then [ts[|ts| - 1].nombre] else [])
  }

  /** The names of all the technicians of some tickets, ticket by ticket. */
  function NamesIn(hs: seq<Historial>): seq<string> {
    if |hs| == 0 then [] else NamesIn(hs[..|hs| - 1]) + NamedTecnicos(hs[|hs| - 1].tecnicos)
  }

  /** Counting more keys into a tally that is already filled. */
  function BumpAll<K(==)>(t: Tally<K>, xs: seq<K>): Tally<K> {
    if |xs| == 0 then t else Bump(BumpAll(t, xs[..|xs| - 1]), xs[|xs| - 1])
  }

  lemma {:induction false} TallyOfConcat<K>(a: seq<K>, b: seq<K>)
    ensures TallyOf(a + b) == BumpAll(TallyOf(a), b)
  {
    if |b| == 0 {
      assert a + b == a;
    } else {
      var p := b[..|b| - 1];
      TallyOfConcat(a, p);
      assert a + b == (a + p) + [b[|b| - 1]];
      TallyOfSnoc(a + p, b[|b| - 1]);
    }
  }

  /** The bucket of `k` once ticket `h` is counted into it (a new bucket
      starts empty with `h` as its first ticket). */
  function Grown<K(==)>(g: Groups<K>, k: K, h: Historial): Stat {
    var s := match Lookup(g, k) case Some(s) => s case None => Stat(0, h, []);
    Stat(s.count + 1, s.first, BumpAll(s.names, NamedTecnicos(h.tecnicos)))
  }

  /** One ticket into the buckets. */
  function AddTicket<K(==)>(g: Groups<K>, h: Historial, keyOf: Historial -> Option<K>): Groups<K> {
    match keyOf(h)
    case None => g
    case Some(k) => Put(g, k, Grown(g, k, h))
  }

  /** The buckets after the whole `forEach`. */
  function GroupOf<K(==)>(hs: seq<Historial>, keyOf: Historial -> Option<K>): Groups<K> {
    if |hs| == 0 then [] else AddTicket(GroupOf(hs[..|hs| - 1], keyOf), hs[|hs| - 1], keyOf)
  }

  /** The key of each ticket that has one, in ticket order. */
  function KeysOf<K>(hs: seq<Historial>, keyOf: Historial -> Option<K>): seq<K> {
    if |hs| == 0 then []
    else KeysOf(hs[..|hs| - 1], keyOf) + (match keyOf(hs[|hs| - 1]) case Some(k) => [k] case None => [])
  }

  /** The tickets whose key is `k`, in order. */
  function TicketsWith<K(==)>(hs: seq<Historial>, keyOf: Historial -> Option<K>, k: K): (r: seq<Historial>)
    ensures forall i :: 0 <= i < |r| ==> keyOf(r[i]) == Some(k) && r[i] in hs
  {
    if |hs| == 0 then []
    else
      var p := TicketsWith(hs[..|hs| - 1], keyOf, k);
      assert forall i :: 0 <= i < |p| ==> p[i] in hs;
      p + (if keyOf(hs[|hs| - 1]) == Some(k) then [hs[|hs| - 1]] else [])
  }

  /** A ticket with a key adds that key last unless it has a bucket. */
  lemma AddKeys<K>(g: Groups<K>, h: Historial, keyOf: Historial -> Option<K>)
    ensures Keys(AddTicket(g, h, keyOf)) ==
      match keyOf(h) case None => Keys(g) case Some(k) => if k in Keys(g) then Keys(g) else Keys(g) + [k]
  {
    match keyOf(h)
    case None =>
    case Some(k) =>
      KeysPut(g, k, Grown(g, k, h));
  }

  lemma KeysOfStep<K>(hs: seq<Historial>, keyOf: Historial -> Option<K>)
    requires |hs| > 0
    ensures KeysOf(hs, keyOf) ==
      match keyOf(hs[|hs| - 1])
      case None => KeysOf(hs[..|hs| - 1], keyOf)
      case Some(k) => KeysOf(hs[..|hs| - 1], keyOf) + [k]
  {
    var p := KeysOf(hs[..|hs| - 1], keyOf);
    assert p + [] == p;
  }

  /** There is one bucket per distinct key, in first-seen order. */
  lemma {:induction false} GroupKeys<K>(hs: seq<Historial>, keyOf: Historial -> Option<K>)
    ensures Keys(GroupOf(hs, keyOf)) == Dedup(KeysOf(hs, keyOf))
  {
    if |hs| > 0 {
      var p := hs[..|hs| - 1];
      var h := hs[|hs| - 1];
      GroupKeys(p, keyOf);
      AddKeys(GroupOf(p, keyOf), h, keyOf);
      KeysOfStep(hs, keyOf);
      if keyOf(h).Some? {
        DedupSnoc(KeysOf(p, keyOf), keyOf(h).value);
      }
    }
  }

  /** What a bucket says about the tickets with its key. */
  predicate StatOf<K(==)>(g: Groups<K>, ts: seq<Historial>, k: K) {
    (Lookup(g, k).None? <==> |ts| == 0) &&
    (Lookup(g, k).Some? ==>
      var s := Lookup(g, k).value;
      s.count == |ts| && |ts| > 0 && s.first == ts[0] && s.names == TallyOf(NamesIn(ts)))
  }

  /** A ticket with another key, or none, leaves the bucket of `k` alone. */
  lemma AddOther<K>(g: Groups<K>, h: Historial, keyOf: Historial -> Option<K>, k: K)
    requires keyOf(h) != Some(k)
    ensures Lookup(AddTicket(g, h, keyOf), k) == Lookup(g, k)
  {
    match keyOf(h)
    case None =>
    case Some(k') =>
      LookupPut(g, k', Grown(g, k', h), k);
  }

  /** A ticket with key `k` extends the bucket of `k` by itself. */
  lemma AddSame<K>(g: Groups<K>, ts: seq<Historial>, h: Historial, keyOf: Historial -> Option<K>, k: K)
    requires keyOf(h) == Some(k) && StatOf(g, ts, k)
    ensures StatOf(AddTicket(g, h, keyOf), ts + [h], k)
  {
    var s := match Lookup(g, k) case Some(s) => s case None => Stat(0, h, []);
    var s' := Grown(g, k, h);
    LookupPut(g, k, s', k);
    assert (ts + [h])[..|ts + [h]| - 1] == ts;
    assert NamesIn(ts + [h]) == NamesIn(ts) + NamedTecnicos(h.tecnicos);
    TallyOfConcat(NamesIn(ts), NamedTecnicos(h.tecnicos));
    if |ts| == 0 {
      assert NamesIn(ts) == [];
    }
  }

  /** A key's bucket exists exactly when some ticket has the key; it counts
      those tickets, keeps the first of them, and tallies the names of all
      their technicians. */
  lemma {:induction false} GroupStat<K>(hs: seq<Historial>, keyOf: Historial -> Option<K>, k: K)
    ensures StatOf(GroupOf(hs, keyOf), TicketsWith(hs, keyOf, k), k)
  {
    if |hs| > 0 {
      var p := hs[..|hs| - 1];
      var h := hs[|hs| - 1];
      GroupStat(p, keyOf, k);
      if keyOf(h) == Some(k) {
        assert TicketsWith(hs, keyOf, k) == TicketsWith(p, keyOf, k) + [h];
        AddSame(GroupOf(p, keyOf), TicketsWith(p, keyOf, k), h, keyOf, k);
      } else {
        assert TicketsWith(hs, keyOf, k) == TicketsWith(p, keyOf, k) + [];
        assert TicketsWith(p, keyOf, k) + [] == TicketsWith(p, keyOf, k);
        AddOther(GroupOf(p, keyOf), h, keyOf, k);
      }
    }
  }

  /** As many tickets carry a key as the key list holds it. */
  lemma {:induction false} TicketsWithCount<K>(hs: seq<Historial>, keyOf: Historial -> Option<K>, k: K)
    ensures |TicketsWith(hs, keyOf, k)| == multiset(KeysOf(hs, keyOf))[k]
  {
    if |hs| > 0 {
      TicketsWithCount(hs[..|hs| - 1], keyOf, k);
    }
  }

  /** The ticket counts of all buckets add up to the number of tickets that
      have a key. */
  lemma GroupTotal<K>(hs: seq<Historial>, keyOf: Historial -> Option<K>)
    ensures SumBy(GroupCounts(GroupOf(hs, keyOf)), (n: nat) => n as int) == |KeysOf(hs, keyOf)|
  {
    var g := GroupOf(hs, keyOf);
    var ks := KeysOf(hs, keyOf);
    GroupKeys(hs, keyOf);
    var t: Tally<K> := seq(|g|, i requires 0 <= i < |g| => (g[i].0, g[i].1.count));
    assert Keys(t) == Keys(g);
    TallyKeys(ks);
    forall i | 0 <= i < |g|
      ensures t[i] == TallyOf(ks)[i]
    {
      LookupAt(g, i);
      GroupStat(hs, keyOf, g[i].0);
      TicketsWithCount(hs, keyOf, g[i].0);
      TallyEntry(ks, i);
      assert Keys(TallyOf(ks))[i] == TallyOf(ks)[i].0;
    }
    assert t == TallyOf(ks);
    TallyTotal(ks);
    SumCounts(g, t);
  }

  function GroupCounts<K>(g: Groups<K>): (r: seq<nat>)
    ensures |r| == |g|
  {
    seq(|g|, i requires 0 <= i < |g| => g[i].1.count)
  }

  lemma {:induction false} SumCounts<K>(g: Groups<K>, t: Tally<K>)
    requires |t| == |g| && forall i :: 0 <= i < |g| ==> t[i].1 == g[i].1.count
    ensures SumBy(GroupCounts(g), (n: nat) => n as int) == Total(t)
  {
    if |g| > 0 {
      SumCounts(g[..|g| - 1], t[..|t| - 1]);
      assert GroupCounts(g)[..|g| - 1] == GroupCounts(g[..|g| - 1]);
    }
  }

  /** The inner `forEach` over one ticket's technicians. */
  method CountNames(names: Tally<string>, ts: seq<Tecnico>) returns (r: Tally<string>)
    ensures r == BumpAll(names, NamedTecnicos(ts))
  {
    r := names;
    for j := 0 to |ts|
      invariant r == BumpAll(names, NamedTecnicos(ts[..j]))
    {
      assert ts[..j + 1][..j] == ts[..j];
      if ts[j].nombre != "" {
        assert NamedTecnicos(ts[..j + 1]) == NamedTecnicos(ts[..j]) + [ts[j].nombre];
        r := Bump(r, ts[j].nombre);
      } else {
        assert NamedTecnicos(ts[..j + 1]) == NamedTecnicos(ts[..j]);
      }
    }
    assert ts[..|ts|] == ts;
  }

  /** The outer `forEach`. */
  method GroupTickets<K(==)>(hs: seq<Historial>, keyOf: Historial -> Option<K>) returns (g: Groups<K>)
    ensures g == GroupOf(hs, keyOf)
  {
    g := [];
    for i := 0 to |hs|
      invariant g == GroupOf(hs[..i], keyOf)
    {
      assert hs[..i + 1][..i] == hs[..i];
      var key := keyOf(hs[i]);
      if key.Some? {
        var k := key.value;
        var stat := Stat(0, hs[i], []);
        var existing := Lookup(g, k);
        if existing.Some? {
          stat := existing.value;
        }
        stat := stat.(count := stat.count + 1);
        var names := CountNames(stat.names, hs[i].tecnicos);
        g := Put(g, k, stat.(names := names));
      }
    }
    assert hs[..|hs|] == hs;
  }

  /** A bucket once its top technician is chosen. */
  datatype Summary<K> = Summary(key: K, count: nat, first: Historial, topTecnico: Option<string>, topTecnicoCount: nat)

  function Summarise<K>(e: (K, Stat)): Summary<K> {
    Summary(e.0, e.1.count, e.1.first, FirstMaxKey(e.1.names), MaxCount(e.1.names))
  }

  function Summaries<K>(g: Groups<K>): (r: seq<Summary<K>>)
    ensures |r| == |g|
    ensures forall i :: 0 <= i < |g| ==> r[i] == Summarise(g[i])
  {
    seq(|g|, i requires 0 <= i < |g| => Summarise(g[i]))
  }

  /** `Object.entries(stats).map(...)` with the arg-max `forEach` inside. */
  method Summarize<K>(g: Groups<K>) returns (r: seq<Summary<K>>)
    ensures r == Summaries(g)
  {
    r := [];
    for i := 0 to |g|
      invariant r == Summaries(g[..i])
    {
      var (key, stat) := g[i];
      var top, topCount := ArgMax(stat.names);
      r := r + [Summary(key, stat.count, stat.first, top, topCount)];
    }
    assert g[..|g|] == g;
  }

  /** Each summary is the bucket of a key some ticket has: it counts the
      tickets with that key, keeps the first of them, and names the
      most frequent technician among them (see `Counting.MostFrequent`). */
  lemma SummaryOf<K>(hs: seq<Historial>, keyOf: Historial -> Option<K>, i: nat)
    requires i < |GroupOf(hs, keyOf)|
    ensures var e := Summaries(GroupOf(hs, keyOf))[i];
      var ts := TicketsWith(hs, keyOf, e.key);
      var names := NamesIn(ts);
      e.key in KeysOf(hs, keyOf) &&
      |ts| > 0 && e.count == |ts| && e.first == ts[0] &&
      e.topTecnico == FirstMaxKey(TallyOf(names)) && e.topTecnicoCount == MaxCount(TallyOf(names))
  {
    var g := GroupOf(hs, keyOf);
    GroupKeys(hs, keyOf);
    LookupAt(g, i);
    GroupStat(hs, keyOf, g[i].0);
    assert Keys(g)[i] == g[i].0;
  }
}
