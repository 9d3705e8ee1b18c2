/** What availability means: bookable starts, stated without loops, indexes or sorting.
    Every definition reads its lists by membership alone. */
module Availability {
  import opened Sorting
  import opened Domain

  const STARTS_EXAMINED := 10_000

  // ----- Inputs -----

  /** One entry of a schedule's durations; `size` is None for a key that is not a whole number. */
  datatype Entry = Entry(size: Option<int>, minutes: int)

  /** A service period as instants. */
  datatype Period = Period(scheduleId: Id, starts: int, ends: int, durations: seq<Entry>, gap: int)

  /** A label is compared by its UTF-16 code units. */
  type CodeUnit = n: nat | n < 0x1_0000
  type Label = seq<CodeUnit>

  datatype UnitSnapshot = UnitSnapshot(id: Id, name: Label, capMin: int, capMax: int, active: bool)
  datatype ComboSnapshot = ComboSnapshot(id: Id, name: Label, unitIds: seq<Id>, capMin: int, capMax: int, active: bool)
  datatype Busy = Busy(unit: Id, s: int, e: int)
  datatype Closure = Closure(s: int, e: int)

  datatype World = World(
    periods: seq<Period>, units: seq<UnitSnapshot>, combos: seq<ComboSnapshot>, closures: seq<Closure>, busy: seq<Busy>)

  datatype Query = Query(party: int, from: nat, to: int, now: int, slotMinutes: int, limit: int)

  datatype Slot = Slot(start: nat, duration: int, asg: Assignment)

  datatype Candidate = Candidate(asg: Assignment, name: Label, capMax: int, unitIds: seq<Id>)

  // ----- Durations -----

  predicate Applies(e: Entry, party: int) {
    e.size.Some? && e.size.value >= party
  }

  /** The duration of the smallest size at or above the party; of several entries with that size the first counts. */
  function DurationFor(entries: seq<Entry>, party: int): Option<int> {
    match SmallestEntry(entries, party)
    case None => None
    case Some(e) => Some(e.minutes)
  }

  function SmallestEntry(entries: seq<Entry>, party: int): (r: Option<Entry>)
    ensures r.Some? ==> r.value in entries && Applies(r.value, party)
  {
    if entries == [] then None else
    var best := SmallestEntry(entries[..|entries| - 1], party);
    var e := entries[|entries| - 1];
    if Applies(e, party) && (best.None? || e.size.value < best.value.size.value) then Some(e) else best
  }

  lemma {:induction false} SmallestEntryIsSmallest(entries: seq<Entry>, party: int)
    ensures SmallestEntry(entries, party).None? <==> forall e :: e in entries ==> !Applies(e, party)
    ensures SmallestEntry(entries, party).Some? ==>
              var b := SmallestEntry(entries, party).value;
              forall e :: e in entries && Applies(e, party) ==> b.size.value <= e.size.value
    decreases |entries|
  {
    if entries != [] {
      SmallestEntryIsSmallest(entries[..|entries| - 1], party);
      assert entries == entries[..|entries| - 1] + [entries[|entries| - 1]];
    }
  }

  // ----- Starts -----

  /** The `k`-th point of the slot grid from the period's opening. */
  predicate GridPoint(p: Period, slotMinutes: int, k: nat, t: int) {
    t == p.starts + k * (slotMinutes * MINUTE)
  }

  /** `t` is on the period's grid and a booking from it ends by the close. */
  ghost predicate OnGrid(p: Period, slotMinutes: int, duration: int, t: int) {
    slotMinutes > 0 && t <= p.ends - duration * MINUTE && exists k: nat :: GridPoint(p, slotMinutes, k, t)
  }

  ghost predicate Admits(q: Query, p: Period, t: int) {
    DurationFor(p.durations, q.party).Some? && OnGrid(p, q.slotMinutes, DurationFor(p.durations, q.party).value, t)
  }

  predicate InWindow(q: Query, t: int) {
    q.from <= t < q.to && q.now <= t
  }

  predicate Precedes(p: Period, o: Period) {
    p.starts < o.starts || (p.starts == o.starts && p.scheduleId < o.scheduleId)
  }

  /** No two periods open together under one schedule id. */
  ghost predicate DistinctPeriods(ps: seq<Period>) {
    forall p, o :: p in ps && o in ps && p != o ==> Precedes(p, o) || Precedes(o, p)
  }

  /** A start belongs to the first period, by opening and then schedule id, that admits it. */
  ghost predicate Owns(q: Query, w: World, p: Period, t: int) {
    && p in w.periods && Admits(q, p, t)
    && forall o :: o in w.periods && o != p && Admits(q, o, t) ==> Precedes(p, o)
  }

  ghost predicate IsStart(q: Query, w: World, t: int) {
    InWindow(q, t) && exists p :: Owns(q, w, p, t)
  }

  lemma OwnerIsUnique(q: Query, w: World, p: Period, o: Period, t: int)
    requires Owns(q, w, p, t) && Owns(q, w, o, t)
    ensures p == o
  {
  }

  ghost function OwnerOf(q: Query, w: World, t: int): Period
    requires IsStart(q, w, t)
  {
    var p :| Owns(q, w, p, t);
    p
  }

  ghost function Starts(q: Query, w: World): set<nat> {
    set t: nat | q.from <= t < q.to && IsStart(q, w, t)
  }

  // ----- Candidates -----

  predicate ActiveUnit(w: World, id: Id) {
    exists u :: u in w.units && u.id == id && u.active
  }

  /** Active, with member units that all exist and are active. */
  predicate UsableCombo(w: World, k: ComboSnapshot) {
    k in w.combos && k.active && forall m :: m in k.unitIds ==> ActiveUnit(w, m)
  }

  function UnitCandidate(u: UnitSnapshot): Candidate {
    Candidate(UnitOf(u.id), u.name, u.capMax, [u.id])
  }

  function ComboCandidate(k: ComboSnapshot): Candidate {
    Candidate(ComboOf(k.id), k.name, k.capMax, k.unitIds)
  }

  /** Active units and usable combinations whose capacity range includes the party. */
  ghost predicate IsCandidate(q: Query, w: World, c: Candidate) {
    || (exists u :: u in w.units && u.active && u.capMin <= q.party <= u.capMax && c == UnitCandidate(u))
    || (exists k :: UsableCombo(w, k) && k.capMin <= q.party <= k.capMax && c == ComboCandidate(k))
  }

  // ----- Freedom -----

  predicate Clear(b: Busy, from: int, to: int) {
    b.e <= from || b.s >= to
  }

  predicate UnitClear(w: World, u: Id, from: int, to: int) {
    forall b :: b in w.busy && b.unit == u ==> Clear(b, from, to)
  }

  predicate AllClear(w: World, units: seq<Id>, from: int, to: int) {
    forall u :: u in units ==> UnitClear(w, u, from, to)
  }

  predicate Closed(w: World, from: int, to: int) {
    exists c :: c in w.closures && c.s < to && c.e > from
  }

  // ----- Ranking -----

  /** Lexicographic order, code unit by code unit. */
  predicate LabelLess(a: Label, b: Label) {
    b != [] && (a == [] || a[0] < b[0] || (a[0] == b[0] && LabelLess(a[1..], b[1..])))
  }

  lemma {:induction false} LabelIrreflexive(a: Label)
    ensures !LabelLess(a, a)
  {
    if a != [] { LabelIrreflexive(a[1..]); }
  }

  lemma {:induction false} LabelTrichotomy(a: Label, b: Label)
    ensures LabelLess(a, b) || LabelLess(b, a) || a == b
    ensures !(LabelLess(a, b) && LabelLess(b, a))
    decreases |a|
  {
    if a != [] && b != [] {
      LabelTrichotomy(a[1..], b[1..]);
      assert a == [a[0]] + a[1..] && b == [b[0]] + b[1..];
    }
  }

  lemma {:induction false} LabelTransitive(a: Label, b: Label, c: Label)
    requires LabelLess(a, b) && LabelLess(b, c)
    ensures LabelLess(a, c)
    decreases |a|
  {
    if a != [] && a[0] == b[0] && b[0] == c[0] { LabelTransitive(a[1..], b[1..], c[1..]); }
  }

  datatype RankKey = RankKey(capacity: int, kind: int, broken: int, name: Label, id: Id)

  predicate KeyLess(a: RankKey, b: RankKey) {
    if a.capacity != b.capacity then a.capacity < b.capacity
    else if a.kind != b.kind then a.kind < b.kind
    else if a.broken != b.broken then a.broken < b.broken
    else if a.name != b.name then LabelLess(a.name, b.name)
    else a.id < b.id
  }

  /** The free combinations that booking the unit would break. */
  ghost function BrokenCombos(w: World, u: Id, from: int, to: int): set<ComboSnapshot> {
    set k | k in w.combos && UsableCombo(w, k) && u in k.unitIds && AllClear(w, k.unitIds, from, to)
  }

  ghost function KeyOf(w: World, c: Candidate, from: int, to: int): RankKey {
    match c.asg
    case UnitOf(u) => RankKey(c.capMax, 0, |BrokenCombos(w, u, from, to)|, c.name, u)
    case ComboOf(k) => RankKey(c.capMax, 1, 0, c.name, k)
  }

  /** The rank order is a strict total order: keys that tie are equal. */
  lemma KeyOrderIsTotal(a: RankKey, b: RankKey)
    ensures KeyLess(a, b) || KeyLess(b, a) || a == b
    ensures !(KeyLess(a, b) && KeyLess(b, a))
  {
    LabelTrichotomy(a.name, b.name);
  }

  lemma KeyOrderIsTransitive(a: RankKey, b: RankKey, c: RankKey)
    requires KeyLess(a, b) && KeyLess(b, c)
    ensures KeyLess(a, c)
  {
    if a.name != b.name && b.name != c.name {
      if LabelLess(a.name, b.name) && LabelLess(b.name, c.name) { LabelTransitive(a.name, b.name, c.name); }
      LabelTrichotomy(a.name, c.name);
    }
  }

  // ----- Bookable starts -----

  /** A candidate whose units are free over the booking padded by the period's gap. */
  ghost predicate FreeCandidate(q: Query, w: World, c: Candidate, from: int, to: int) {
    IsCandidate(q, w, c) && AllClear(w, c.unitIds, from, to)
  }

  ghost function DurationAt(q: Query, w: World, t: int): int
    requires IsStart(q, w, t)
  {
    DurationFor(OwnerOf(q, w, t).durations, q.party).value
  }

  ghost function PaddedFrom(q: Query, w: World, t: int): int
    requires IsStart(q, w, t)
  {
    t - OwnerOf(q, w, t).gap * MINUTE
  }

  ghost function PaddedTo(q: Query, w: World, t: int): int
    requires IsStart(q, w, t)
  {
    t + DurationAt(q, w, t) * MINUTE + OwnerOf(q, w, t).gap * MINUTE
  }

  ghost predicate Bookable(q: Query, w: World, t: int) {
    && IsStart(q, w, t)
    && !Closed(w, t, t + DurationAt(q, w, t) * MINUTE)
    && exists c :: FreeCandidate(q, w, c, PaddedFrom(q, w, t), PaddedTo(q, w, t))
  }

  /** The free candidate every other free candidate ranks behind. */
  ghost predicate Preferred(q: Query, w: World, c: Candidate, from: int, to: int) {
    && FreeCandidate(q, w, c, from, to)
    && forall o :: FreeCandidate(q, w, o, from, to) && o != c ==> KeyLess(KeyOf(w, c, from, to), KeyOf(w, o, from, to))
  }

  /** What the engine offers at `t`. */
  ghost predicate Offers(q: Query, w: World, t: nat, slot: Slot) {
    && Bookable(q, w, t)
    && slot.start == t && slot.duration == DurationAt(q, w, t)
    && exists c :: Preferred(q, w, c, PaddedFrom(q, w, t), PaddedTo(q, w, t)) && c.asg == slot.asg
  }

  // ----- Well-formed inputs -----

  /** Unit ids are distinct, and so are combination ids. */
  ghost predicate DistinctIds(w: World) {
    && (forall i, j :: 0 <= i < j < |w.units| ==> w.units[i].id != w.units[j].id)
    && (forall i, j :: 0 <= i < j < |w.combos| ==> w.combos[i].id != w.combos[j].id)
  }

  /** Busy intervals are not empty, and those of one unit are disjoint: the exclusion constraint. */
  ghost predicate DisjointBusy(busy: seq<Busy>) {
    && (forall i :: 0 <= i < |busy| ==> busy[i].s < busy[i].e)
    && (forall i, j :: 0 <= i < j < |busy| && busy[i].unit == busy[j].unit ==>
          busy[i].e <= busy[j].s || busy[j].e <= busy[i].s)
  }

  ghost predicate ProperWorld(w: World) {
    DistinctPeriods(w.periods) && DistinctIds(w) && DisjointBusy(w.busy)
  }
}
