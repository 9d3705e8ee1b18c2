/** The computation behind availability: loops, a per-unit index with binary search, a ranking pass, and a bounded scan
    of the starts. Each method is proved against the definitions of the Availability module. */
module AvailabilityEngine {
  import opened Sorting
  import opened Domain
  import opened Availability

  // ----- Durations and the slot grid -----

  method ComputeDuration(entries: seq<Entry>, party: int) returns (r: Option<int>)
    ensures r == DurationFor(entries, party)
  {
    var best: Option<Entry> := None;
    for i := 0 to |entries|
      invariant best == SmallestEntry(entries[..i], party)
    {
      assert entries[..i + 1][..i] == entries[..i];
      var e := entries[i];
      if Applies(e, party) && (best.None? || e.size.value < best.value.size.value) { best := Some(e); }
    }
    assert entries[..|entries|] == entries;
    r := match best case Some(e) => Some(e.minutes) case None => None;
  }

  lemma MulMonotone(a: int, b: int, step: int)
    requires a <= b && step > 0
    ensures a * step <= b * step
  {
  }

  /** The grid points of a period whose booking ends by its close, in increasing order. */
  method SlotStarts(p: Period, slotMinutes: int, duration: int) returns (out: seq<int>)
    requires slotMinutes > 0
    ensures forall t :: t in out <==> OnGrid(p, slotMinutes, duration, t)
    ensures forall i, j :: 0 <= i < j < |out| ==> out[i] < out[j]
  {
    var step := slotMinutes * MINUTE;
    var last := p.ends - duration * MINUTE;
    var t := p.starts;
    out := [];
    while t <= last
      invariant t == p.starts + |out| * step
      invariant forall k :: 0 <= k < |out| ==> out[k] <= last && GridPoint(p, slotMinutes, k, out[k])
      invariant forall i, j :: 0 <= i < j < |out| ==> out[i] < out[j]
      invariant forall k :: 0 <= k < |out| ==> out[k] < t
      decreases last - t
    {
      assert GridPoint(p, slotMinutes, |out|, t);
      out := out + [t];
      t := t + step;
    }
    GridIsWhole(p, slotMinutes, duration, out);
  }

  /** The first so many grid points, the next one past the last possible start, are all of them. */
  lemma GridIsWhole(p: Period, slotMinutes: int, duration: int, out: seq<int>)
    requires slotMinutes > 0
    requires forall k :: 0 <= k < |out| ==> out[k] <= p.ends - duration * MINUTE && GridPoint(p, slotMinutes, k, out[k])
    requires p.starts + |out| * (slotMinutes * MINUTE) > p.ends - duration * MINUTE
    ensures forall t :: t in out <==> OnGrid(p, slotMinutes, duration, t)
  {
    forall t ensures t in out <==> OnGrid(p, slotMinutes, duration, t) {
      if t in out {
        var k :| 0 <= k < |out| && out[k] == t;
        assert GridPoint(p, slotMinutes, k, t);
      }
      if OnGrid(p, slotMinutes, duration, t) {
        var k: nat :| GridPoint(p, slotMinutes, k, t);
        if k >= |out| { MulMonotone(|out|, k, slotMinutes * MINUTE); }
        assert GridPoint(p, slotMinutes, k, out[k]);
      }
    }
  }

  // ----- Candidates -----

  method HasActiveUnit(w: World, id: Id) returns (r: bool)
    ensures r <==> ActiveUnit(w, id)
  {
    for i := 0 to |w.units|
      invariant forall j :: 0 <= j < i ==> !(w.units[j].id == id && w.units[j].active)
    {
      if w.units[i].id == id && w.units[i].active { return true; }
    }
    return false;
  }

  method AllActive(w: World, ids: seq<Id>) returns (r: bool)
    ensures r <==> forall m :: m in ids ==> ActiveUnit(w, m)
  {
    for i := 0 to |ids|
      invariant forall j :: 0 <= j < i ==> ActiveUnit(w, ids[j])
    {
      var a := HasActiveUnit(w, ids[i]);
      if !a { return false; }
    }
    return true;
  }

  method UsableCombos(w: World) returns (out: seq<ComboSnapshot>)
    requires DistinctIds(w)
    ensures forall k :: k in out <==> UsableCombo(w, k)
    ensures NoRepeats(out)
  {
    out := [];
    for i := 0 to |w.combos|
      invariant forall k :: k in out <==> k in w.combos[..i] && UsableCombo(w, k)
      invariant NoRepeats(out)
    {
      var k := w.combos[i];
      var a := AllActive(w, k.unitIds);
      if k.active && a {
        assert k !in out;
        out := out + [k];
      }
    }
  }

  method FittingCandidates(q: Query, w: World, usable: seq<ComboSnapshot>) returns (out: seq<Candidate>)
    requires forall k :: k in usable <==> UsableCombo(w, k)
    ensures forall c :: c in out <==> IsCandidate(q, w, c)
  {
    out := [];
    for i := 0 to |w.units|
      invariant forall c :: c in out <==>
        exists u :: u in w.units[..i] && u.active && u.capMin <= q.party <= u.capMax && c == UnitCandidate(u)
    {
      var u := w.units[i];
      assert w.units[..i + 1] == w.units[..i] + [u];
      if u.active && u.capMin <= q.party <= u.capMax { out := out + [UnitCandidate(u)]; }
    }
    assert w.units[..|w.units|] == w.units;
    ghost var units := out;
    for i := 0 to |usable|
      invariant forall c :: c in out <==>
        c in units || exists k :: k in usable[..i] && k.capMin <= q.party <= k.capMax && c == ComboCandidate(k)
    {
      var k := usable[i];
      assert usable[..i + 1] == usable[..i] + [k];
      if k.capMin <= q.party <= k.capMax { out := out + [ComboCandidate(k)]; }
    }
    assert usable[..|usable|] == usable;
  }

  // ----- The busy index -----

  datatype Interval = Interval(s: int, e: int)

  predicate Disjoint(a: Interval, b: Interval) {
    a.e <= b.s || b.e <= a.s
  }

  ghost predicate PairwiseDisjoint(list: seq<Interval>) {
    && (forall i :: 0 <= i < |list| ==> list[i].s < list[i].e)
    && (forall i, j :: 0 <= i < j < |list| ==> Disjoint(list[i], list[j]))
  }

  /** Sorted by start, and hence by end. */
  ghost predicate Ordered(list: seq<Interval>) {
    && (forall i :: 0 <= i < |list| ==> list[i].s < list[i].e)
    && (forall i, j :: 0 <= i < j < |list| ==> list[i].e <= list[j].s)
  }

  method InsertByStart(list: seq<Interval>, x: Interval) returns (out: seq<Interval>)
    requires Ordered(list) && x.s < x.e && forall i :: 0 <= i < |list| ==> Disjoint(list[i], x)
    ensures Ordered(out) && forall y :: y in out <==> y in list || y == x
  {
    var n := 0;
    while n < |list| && list[n].s < x.s
      invariant 0 <= n <= |list| && forall i :: 0 <= i < n ==> list[i].s < x.s
    {
      n := n + 1;
    }
    out := list[..n] + [x] + list[n..];
    assert forall y :: y in list <==> y in list[..n] || y in list[n..];
  }

  method SortByStart(list: seq<Interval>) returns (out: seq<Interval>)
    requires PairwiseDisjoint(list)
    ensures Ordered(out) && forall y :: y in out <==> y in list
  {
    out := [];
    for i := 0 to |list|
      invariant Ordered(out) && forall y :: y in out <==> y in list[..i]
    {
      forall j | 0 <= j < |out| ensures Disjoint(out[j], list[i]) {
        assert out[j] in list[..i];
      }
      out := InsertByStart(out, list[i]);
      assert list[..i + 1] == list[..i] + [list[i]];
    }
    assert list[..|list|] == list;
  }

  /** The intervals of one unit in the order of the rows. */
  ghost function OfUnit(busy: seq<Busy>, u: Id): seq<Interval> {
    if busy == [] then [] else
    var b := busy[|busy| - 1];
    OfUnit(busy[..|busy| - 1], u) + (if b.unit == u then [Interval(b.s, b.e)] else [])
  }

  lemma {:induction false} OfUnitHasItsRows(busy: seq<Busy>, u: Id)
    ensures forall x :: x in OfUnit(busy, u) <==> Busy(u, x.s, x.e) in busy
    decreases |busy|
  {
    if busy != [] {
      OfUnitHasItsRows(busy[..|busy| - 1], u);
      assert busy == busy[..|busy| - 1] + [busy[|busy| - 1]];
    }
  }

  lemma {:induction false} OfUnitIsDisjoint(busy: seq<Busy>, u: Id)
    requires DisjointBusy(busy)
    ensures PairwiseDisjoint(OfUnit(busy, u))
    decreases |busy|
  {
    if busy != [] {
      var n := |busy| - 1;
      OfUnitIsDisjoint(busy[..n], u);
      OfUnitHasItsRows(busy[..n], u);
      var before := OfUnit(busy[..n], u);
      forall i | 0 <= i < |before| && busy[n].unit == u
        ensures Disjoint(before[i], Interval(busy[n].s, busy[n].e))
      {
        assert before[i] in before;
        var k :| 0 <= k < n && busy[..n][k] == Busy(u, before[i].s, before[i].e);
        assert busy[k] == busy[..n][k];
      }
    }
  }

  ghost predicate Indexes(index: map<Id, seq<Interval>>, busy: seq<Busy>) {
    && (forall u :: u in index ==> Ordered(index[u]))
    && (forall u, s, e :: Busy(u, s, e) in busy <==> u in index && Interval(s, e) in index[u])
  }

  /** The rows grouped by unit, in the order they come. */
  method GroupBusy(busy: seq<Busy>) returns (byUnit: map<Id, seq<Interval>>)
    ensures forall u :: (if u in byUnit then byUnit[u] else []) == OfUnit(busy, u)
  {
    byUnit := map[];
    for i := 0 to |busy|
      invariant forall u :: (if u in byUnit then byUnit[u] else []) == OfUnit(busy[..i], u)
    {
      var b := busy[i];
      assert busy[..i + 1][..i] == busy[..i];
      var list := if b.unit in byUnit then byUnit[b.unit] else [];
      byUnit := byUnit[b.unit := list + [Interval(b.s, b.e)]];
    }
    assert busy[..|busy|] == busy;
  }

  ghost predicate SortedFrom(list: seq<Interval>, sorted: seq<Interval>) {
    Ordered(sorted) && forall x :: x in sorted <==> x in list
  }

  method SortGroups(byUnit: map<Id, seq<Interval>>) returns (index: map<Id, seq<Interval>>)
    requires forall u :: u in byUnit ==> PairwiseDisjoint(byUnit[u])
    ensures index.Keys == byUnit.Keys && forall u :: u in index ==> SortedFrom(byUnit[u], index[u])
  {
    hide Ordered, PairwiseDisjoint;
    index := map[];
    var todo := byUnit.Keys;
    while todo != {}
      invariant todo <= byUnit.Keys && index.Keys == byUnit.Keys - todo
      invariant forall u :: u in index ==> SortedFrom(byUnit[u], index[u])
    {
      var u :| u in todo;
      var sorted := SortByStart(byUnit[u]);
      index := index[u := sorted];
      todo := todo - {u};
    }
  }

  method IndexBusy(busy: seq<Busy>) returns (index: map<Id, seq<Interval>>)
    requires DisjointBusy(busy)
    ensures Indexes(index, busy)
  {
    hide OfUnit, DisjointBusy, Ordered, PairwiseDisjoint, Indexes;
    var byUnit := GroupBusy(busy);
    forall u | u in byUnit ensures PairwiseDisjoint(byUnit[u]) { OfUnitIsDisjoint(busy, u); }
    index := SortGroups(byUnit);
    GroupsIndex(busy, byUnit, index);
  }

  lemma GroupsIndex(busy: seq<Busy>, byUnit: map<Id, seq<Interval>>, index: map<Id, seq<Interval>>)
    requires forall u :: (if u in byUnit then byUnit[u] else []) == OfUnit(busy, u)
    requires index.Keys == byUnit.Keys && forall u :: u in index ==> SortedFrom(byUnit[u], index[u])
    ensures Indexes(index, busy)
  {
    hide OfUnit, Ordered;
    forall u, s, e ensures Busy(u, s, e) in busy <==> u in index && Interval(s, e) in index[u] {
      OfUnitHasItsRows(busy, u);
      assert Interval(s, e) in OfUnit(busy, u) <==> Busy(u, s, e) in busy;
    }
  }

  /** Whether no interval of a unit meets [from, to): a binary search for the first that ends after `from`. */
  method UnitFree(list: seq<Interval>, from: int, to: int) returns (r: bool)
    requires Ordered(list)
    ensures r <==> forall x :: x in list ==> x.e <= from || x.s >= to
  {
    var lo, hi := 0, |list|;
    while lo < hi
      invariant 0 <= lo <= hi <= |list|
      invariant forall i :: 0 <= i < lo ==> list[i].e <= from
      invariant forall i :: hi <= i < |list| ==> list[i].e > from
    {
      var mid := (lo + hi) / 2;
      if list[mid].e <= from { lo := mid + 1; } else { hi := mid; }
    }
    r := lo == |list| || list[lo].s >= to;
  }

  method IsFree(w: World, index: map<Id, seq<Interval>>, units: seq<Id>, from: int, to: int) returns (r: bool)
    requires Indexes(index, w.busy)
    ensures r <==> AllClear(w, units, from, to)
  {
    for i := 0 to |units|
      invariant forall j :: 0 <= j < i ==> UnitClear(w, units[j], from, to)
    {
      var u := units[i];
      var free := true;
      if u in index { free := UnitFree(index[u], from, to); }
      IndexedClear(w, index, u, from, to);
      if !free { return false; }
    }
    return true;
  }

  lemma IndexedClear(w: World, index: map<Id, seq<Interval>>, u: Id, from: int, to: int)
    requires Indexes(index, w.busy)
    ensures UnitClear(w, u, from, to) <==> (u in index ==> forall x :: x in index[u] ==> x.e <= from || x.s >= to)
  {
    if u in index && UnitClear(w, u, from, to) {
      forall x | x in index[u] ensures x.e <= from || x.s >= to {
        assert x == Interval(x.s, x.e);
        assert Busy(u, x.s, x.e) in w.busy;
      }
    }
    if u in index ==> forall x :: x in index[u] ==> x.e <= from || x.s >= to {
      forall b | b in w.busy && b.unit == u ensures Clear(b, from, to) {
        assert Busy(u, b.s, b.e) in w.busy;
        assert Interval(b.s, b.e) in index[u];
      }
    }
  }

  // ----- Ranking -----

  method CountBroken(w: World, usable: seq<ComboSnapshot>, index: map<Id, seq<Interval>>, u: Id, from: int, to: int)
    returns (n: int)
    requires Indexes(index, w.busy) && NoRepeats(usable) && forall k :: k in usable <==> UsableCombo(w, k)
    ensures n == |BrokenCombos(w, u, from, to)|
  {
    n := 0;
    ghost var found: set<ComboSnapshot> := {};
    for i := 0 to |usable|
      invariant found == set k | k in usable[..i] && u in k.unitIds && AllClear(w, k.unitIds, from, to)
      invariant n == |found|
    {
      var k := usable[i];
      assert usable[..i + 1] == usable[..i] + [k];
      assert k !in usable[..i];
      var free := IsFree(w, index, k.unitIds, from, to);
      if u in k.unitIds && free {
        found := found + {k};
        n := n + 1;
      }
    }
    assert usable[..|usable|] == usable;
    assert found == BrokenCombos(w, u, from, to);
  }

  /** Candidates with one key are one candidate. */
  lemma KeysTellApart(q: Query, w: World, a: Candidate, b: Candidate, from: int, to: int)
    requires DistinctIds(w) && IsCandidate(q, w, a) && IsCandidate(q, w, b)
    requires KeyOf(w, a, from, to) == KeyOf(w, b, from, to)
    ensures a == b
  {
  }

  method Choose(q: Query, w: World, usable: seq<ComboSnapshot>, index: map<Id, seq<Interval>>, free: seq<Candidate>,
                from: int, to: int)
    returns (best: Option<Candidate>)
    requires Indexes(index, w.busy) && NoRepeats(usable) && (forall k :: k in usable <==> UsableCombo(w, k))
        && DistinctIds(w)
    requires forall c :: c in free ==> IsCandidate(q, w, c)
    ensures best.None? <==> free == []
    ensures best.Some? ==> best.value in free
    ensures best.Some? ==> forall o :: o in free && o != best.value ==>
              KeyLess(KeyOf(w, best.value, from, to), KeyOf(w, o, from, to))
  {
    best := None;
    var bestKey := RankKey(0, 0, 0, [], 0);
    for i := 0 to |free|
      invariant best.None? <==> i == 0
      invariant best.Some? ==> best.value in free[..i] && bestKey == KeyOf(w, best.value, from, to)
      invariant best.Some? ==> forall o :: o in free[..i] && o != best.value ==> KeyLess(bestKey, KeyOf(w, o, from, to))
    {
      var c := free[i];
      assert free[..i + 1] == free[..i] + [c];
      var key;
      match c.asg {
        case UnitOf(u) =>
          var broken := CountBroken(w, usable, index, u, from, to);
          key := RankKey(c.capMax, 0, broken, c.name, u);
        case ComboOf(k) =>
          key := RankKey(c.capMax, 1, 0, c.name, k);
      }
      if best.None? || KeyLess(key, bestKey) {
        NewBestLeads(w, free[..i], best, c, from, to);
        best, bestKey := Some(c), key;
      } else {
        KeyOrderIsTotal(key, bestKey);
        if key == bestKey { KeysTellApart(q, w, c, best.value, from, to); }
      }
    }
    assert free[..|free|] == free;
  }

  lemma NewBestLeads(w: World, seen: seq<Candidate>, best: Option<Candidate>, c: Candidate, from: int, to: int)
    requires best.None? ==> seen == []
    requires best.Some? ==> KeyLess(KeyOf(w, c, from, to), KeyOf(w, best.value, from, to))
    requires best.Some? ==> forall o :: o in seen && o != best.value ==>
               KeyLess(KeyOf(w, best.value, from, to), KeyOf(w, o, from, to))
    ensures forall o :: o in seen ==> KeyLess(KeyOf(w, c, from, to), KeyOf(w, o, from, to))
  {
    forall o | o in seen ensures KeyLess(KeyOf(w, c, from, to), KeyOf(w, o, from, to)) {
      if o != best.value {
        KeyOrderIsTransitive(KeyOf(w, c, from, to), KeyOf(w, best.value, from, to), KeyOf(w, o, from, to));
      }
    }
  }
}
