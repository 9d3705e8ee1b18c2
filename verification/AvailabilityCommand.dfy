/** The availability command: a snapshot of units and combinations that may come from the cache, rows read only near the
    window, and the computation over them. */
module AvailabilityCommand {
  import opened Sorting
  import opened Domain
  import opened Availability
  import opened AvailabilityScan
  import opened AvailabilityTheorems
  import opened Periods
  import opened OfferTerms
  import opened SnapshotCaching

  const DEFAULT_RESULTS := 100
  const MOST_RESULTS := 500

  datatype Snapshot = Snapshot(units: seq<UnitSnapshot>, combos: seq<ComboSnapshot>)

  datatype Answer = Slots(slots: seq<Slot>, truncated: bool) | WindowTooLarge | Thrown

  /** The number of slots a caller gets at most. */
  function Clamp(requested: Option<int>): int {
    match requested
    case None => DEFAULT_RESULTS
    case Some(n) => if n < 1 then 1 else if n > MOST_RESULTS then MOST_RESULTS else n
  }

  // ----- The rows near the window -----

  function Rows(schedules: seq<Schedule>): set<Schedule> {
    set s | s in schedules
  }

  /** The periods of one generated date. */
  method PeriodsOf(schedules: seq<Schedule>, offset: int, date: int, from: int, to: int) returns (out: seq<Period>)
    ensures forall p :: p in out <==>
              exists s :: s in schedules && s.active && s.weekday == IsoWeekday(date)
                          && p == OccurrenceOn(s, date, offset) && Meets(p, from, to)
  {
    out := [];
    for i := 0 to |schedules|
      invariant forall p :: p in out <==>
                  exists s :: s in schedules[..i] && s.active && s.weekday == IsoWeekday(date)
                              && p == OccurrenceOn(s, date, offset) && Meets(p, from, to)
    {
      var s := schedules[i];
      assert schedules[..i + 1] == schedules[..i] + [s];
      if s.active && s.weekday == IsoWeekday(date) && Meets(OccurrenceOn(s, date, offset), from, to) {
        out := out + [OccurrenceOn(s, date, offset)];
      }
    }
    assert schedules[..|schedules|] == schedules;
  }

  /** A period generated for one of the first `n` dates. */
  ghost predicate GeneratedBy(schedules: seq<Schedule>, offset: int, from: int, to: int, n: int, p: Period) {
    exists s, i :: s in schedules && 0 <= i < n && s.active && s.weekday == IsoWeekday(GeneratedDate(offset, from, i))
                   && p == OccurrenceOn(s, GeneratedDate(offset, from, i), offset) && Meets(p, from, to)
  }

  /** Dates joined with schedules, day by day. */
  method GeneratePeriods(schedules: seq<Schedule>, offset: int, from: int, to: int) returns (out: seq<Period>)
    ensures forall p :: p in out <==> p in Generated(Rows(schedules), offset, from, to)
  {
    hide IsoWeekday, DateOf, OccurrenceOn, Meets;
    var days := DateOf(to, offset) - DateOf(from, offset) + 2;
    out := [];
    var i := 0;
    while i < days
      invariant 0 <= i && (i <= days || i == 0)
      invariant forall p :: p in out <==> GeneratedBy(schedules, offset, from, to, i, p)
    {
      var more := PeriodsOf(schedules, offset, GeneratedDate(offset, from, i), from, to);
      forall p ensures p in out + more <==> GeneratedBy(schedules, offset, from, to, i + 1, p) {
        OneMoreDay(schedules, offset, from, to, i, p);
      }
      out := out + more;
      i := i + 1;
    }
    AllDays(schedules, offset, from, to, out);
  }

  lemma OneMoreDay(schedules: seq<Schedule>, offset: int, from: int, to: int, i: nat, p: Period)
    ensures GeneratedBy(schedules, offset, from, to, i + 1, p) <==>
            || GeneratedBy(schedules, offset, from, to, i, p)
            || exists s :: s in schedules && s.active && s.weekday == IsoWeekday(GeneratedDate(offset, from, i))
                           && p == OccurrenceOn(s, GeneratedDate(offset, from, i), offset) && Meets(p, from, to)
  {
    hide IsoWeekday, DateOf, OccurrenceOn, Meets, GeneratedDate;
  }

  lemma AllDays(schedules: seq<Schedule>, offset: int, from: int, to: int, out: seq<Period>)
    requires var days := DateOf(to, offset) - DateOf(from, offset) + 2;
             forall p :: p in out <==> GeneratedBy(schedules, offset, from, to, if days < 0 then 0 else days, p)
    ensures forall p :: p in out <==> p in Generated(Rows(schedules), offset, from, to)
  {
    hide IsoWeekday, DateOf, OccurrenceOn, Meets, GeneratedDate;
  }

  method FetchClosures(q: Query, cs: seq<Closure>) returns (out: seq<Closure>)
    ensures forall c :: c in out <==> c in cs && ClosureFetched(q, c)
  {
    out := [];
    for i := 0 to |cs|
      invariant forall c :: c in out <==> c in cs[..i] && ClosureFetched(q, c)
    {
      assert cs[..i + 1] == cs[..i] + [cs[i]];
      if ClosureFetched(q, cs[i]) { out := out + [cs[i]]; }
    }
    assert cs[..|cs|] == cs;
  }

  method FetchBusy(q: Query, bs: seq<Busy>) returns (out: seq<Busy>)
    requires DisjointBusy(bs)
    ensures DisjointBusy(out) && forall b :: b in out <==> b in bs && BusyFetched(q, b)
  {
    out := [];
    for i := 0 to |bs|
      invariant DisjointBusy(out) && forall b :: b in out <==> b in bs[..i] && BusyFetched(q, b)
    {
      assert bs[..i + 1] == bs[..i] + [bs[i]];
      if BusyFetched(q, bs[i]) {
        OneMoreBusy(bs, i, out);
        out := out + [bs[i]];
      }
    }
    assert bs[..|bs|] == bs;
  }

  lemma OneMoreBusy(bs: seq<Busy>, i: nat, out: seq<Busy>)
    requires DisjointBusy(bs) && i < |bs| && DisjointBusy(out) && forall b :: b in out ==> b in bs[..i]
    ensures DisjointBusy(out + [bs[i]])
  {
    forall k | 0 <= k < |out| && out[k].unit == bs[i].unit ensures out[k].e <= bs[i].s || bs[i].e <= out[k].s {
      assert out[k] in bs[..i];
      var j :| 0 <= j < i && bs[j] == out[k];
    }
  }

  /** `ps` are occurrences of the active schedules, among them at least those that meet the window. */
  ghost predicate CoversWindow(q: Query, schedules: seq<Schedule>, offset: int, ps: seq<Period>) {
    && (forall p :: p in ps ==> exists s :: s in schedules && s.active && Occurs(s, p, offset))
    && (forall p, s :: s in schedules && s.active && Occurs(s, p, offset) && Meets(p, q.from, q.to) ==> p in ps)
  }

  ghost predicate ProperSchedules(schedules: seq<Schedule>) {
    (forall s :: s in schedules ==> ProperSchedule(s)) && DistinctSchedules(Rows(schedules))
  }

  method Fetch(q: Query, schedules: seq<Schedule>, offset: int, w: World) returns (v: World)
    requires ProperSchedules(schedules) && CoversWindow(q, schedules, offset, w.periods)
    requires DistinctIds(w) && DisjointBusy(w.busy)
    ensures Fetched(q, w, v) && ProperWorld(v)
  {
    var periods := GeneratePeriods(schedules, offset, q.from, q.to);
    var closures := FetchClosures(q, w.closures);
    var busy := FetchBusy(q, w.busy);
    v := World(periods, w.units, w.combos, closures, busy);
    PeriodsAreDistinct(Rows(schedules), offset, q.from, q.to, periods);
    forall p ensures p in periods <==> p in w.periods && PeriodFetched(q, p) {
      GeneratedAreFetched(q, schedules, offset, w.periods, p);
    }
  }

  lemma GeneratedAreFetched(q: Query, schedules: seq<Schedule>, offset: int, ps: seq<Period>, p: Period)
    requires ProperSchedules(schedules) && CoversWindow(q, schedules, offset, ps)
    ensures p in Generated(Rows(schedules), offset, q.from, q.to) <==> p in ps && PeriodFetched(q, p)
  {
    PeriodsAreComplete(Rows(schedules), offset, q.from, q.to, p);
    hide Generated, Occurs, ProperSchedule;
  }

  // ----- The command -----

  /** The units and combinations of one config version: a hit, or a fresh load that is stored. */
  method LoadSnapshot(
      cache: SnapshotCache<Snapshot>, venue: Id, version: int, current: Snapshot, ghost loaded: (Id, int) -> Snapshot)
    returns (r: Snapshot)
    requires cache.Valid() && cache.Truthful(loaded) && current == loaded(venue, version)
    modifies cache
    ensures cache.Valid() && cache.Truthful(loaded) && r == current
  {
    var hit := cache.Get(venue, version, loaded);
    if hit.Some? { return hit.value; }
    cache.Set(venue, version, current, loaded);
    r := current;
  }

  /** What the command answers is what the computation would answer over everything the venue has, read afresh: neither
      the cache, nor the windows, nor the dates generated show. `w` is the database as this transaction sees it, at
      config version `version`; its periods are any occurrences of the schedules that leave out none over the window. */
  method AvailabilityOf(
      cache: SnapshotCache<Snapshot>, venue: Id, version: int, windowDays: int, requested: Option<int>, asked: Query,
      schedules: seq<Schedule>, offset: int, w: World, ghost loaded: (Id, int) -> Snapshot)
    returns (a: Answer)
    requires cache.Valid() && cache.Truthful(loaded) && loaded(venue, version) == Snapshot(w.units, w.combos)
    requires ProperSchedules(schedules) && CoversWindow(asked, schedules, offset, w.periods)
    requires DistinctIds(w) && DisjointBusy(w.busy) && Stored(asked, w)
    modifies cache
    ensures cache.Valid() && cache.Truthful(loaded)
    ensures a == WindowTooLarge <==> asked.to - asked.from > windowDays * DAY
    ensures !a.Thrown?
    ensures a.Slots? && (asked.to <= asked.from || asked.party < 1) ==> a == Slots([], false)
    ensures a.Slots? && asked.to > asked.from && asked.party >= 1 ==>
              IsAnswer(asked.(limit := Clamp(requested)), w, Computed(a.slots, a.truncated))
    ensures a.Slots? ==> |a.slots| <= 500
    ensures a.Slots? ==> forall i :: 0 <= i < |a.slots| ==> AsScheduled(asked, schedules, offset, w, a.slots[i])
  {
    var q := asked.(limit := Clamp(requested));
    ClampExactly(requested);
    assert Stored(q, w) && CoversWindow(q, schedules, offset, w.periods);
    hide IsAnswer, Stored, Clamp, CoversWindow, ProperSchedules, DistinctIds, DisjointBusy, AsScheduled;
    if q.to - q.from > windowDays * DAY { return WindowTooLarge; }
    if q.to <= q.from || q.party < 1 { return Slots([], false); }
    var snapshot := LoadSnapshot(cache, venue, version, Snapshot(w.units, w.combos), loaded);
    var r := FetchAndCompute(q, schedules, offset, w, snapshot);
    match r {
      case Computed(slots, truncated) =>
        AnswerIsScheduled(asked, q, schedules, offset, w, slots, truncated);
        a := Slots(slots, truncated);
      case RangeError => a := Thrown;
    }
  }

  /** The computation over the rows near the window. */
  method FetchAndCompute(q: Query, schedules: seq<Schedule>, offset: int, w: World, snapshot: Snapshot)
    returns (r: Result)
    requires ProperSchedules(schedules) && CoversWindow(q, schedules, offset, w.periods)
    requires DistinctIds(w) && DisjointBusy(w.busy) && Stored(q, w) && snapshot == Snapshot(w.units, w.combos)
    ensures IsAnswer(q, w, r) && r.Computed?
  {
    hide IsAnswer, Stored, ProperWorld, Fetched, CoversWindow, ProperSchedules, DistinctIds, DisjointBusy;
    var v := Fetch(q, schedules, offset, w.(units := snapshot.units, combos := snapshot.combos));
    r := ComputeAvailability(q, v);
    FetchedAnswer(q, w, v, r);
  }

  /** At least one slot and at most 500 are asked for: the number given where that lies between, and 100 if none is. */
  lemma ClampExactly(requested: Option<int>)
    ensures 1 <= Clamp(requested) <= 500
    ensures requested == None ==> Clamp(requested) == 100
    ensures requested.Some? && 1 <= requested.value <= 500 ==> Clamp(requested) == requested.value
    ensures requested.Some? && requested.value < 1 ==> Clamp(requested) == 1
    ensures requested.Some? && requested.value > 500 ==> Clamp(requested) == 500
  {
  }

  lemma AnswerIsScheduled(asked: Query, q: Query, schedules: seq<Schedule>, offset: int, w: World, slots: seq<Slot>,
      truncated: bool)
    requires CoversWindow(q, schedules, offset, w.periods) && IsAnswer(q, w, Computed(slots, truncated))
    requires q == asked.(limit := q.limit) && q.limit <= 500
    ensures |slots| <= 500 && forall i :: 0 <= i < |slots| ==> AsScheduled(asked, schedules, offset, w, slots[i])
  {
    AnswerOnTerms(q, w, slots, truncated);
    assert |slots| <= 500;
    hide IsAnswer, OnTerms, IsBestOffer, Occurs;
    forall i | 0 <= i < |slots| ensures AsScheduled(asked, schedules, offset, w, slots[i]) {
      OfferIsScheduled(q, schedules, offset, w, slots[i]);
      LimitDoesNotShow(asked, q, schedules, offset, w, slots[i]);
    }
  }

  lemma LimitDoesNotShow(a: Query, b: Query, schedules: seq<Schedule>, offset: int, w: World, sl: Slot)
    requires a == b.(limit := a.limit) && AsScheduled(b, schedules, offset, w, sl)
    ensures AsScheduled(a, schedules, offset, w, sl)
  {
    var s, date :| s in schedules && ScheduledOn(b, s, date, offset, w, sl);
    assert ScheduledOn(a, s, date, offset, w, sl);
  }

  lemma FetchedAnswer(q: Query, w: World, v: World, r: Result)
    requires Stored(q, w) && Fetched(q, w, v) && IsAnswer(q, v, r)
    ensures IsAnswer(q, w, r) && r.Computed?
  {
    assert r.Computed? by { hide Fetched; }
    FetchedView(q, w, v);
    hide Fetched, Stored, IsAnswer, SameView;
    assert SameView(q, v, w) by { ViewIsSymmetric(q, w, v); }
    SameAnswer(q, v, w, r);
  }

  lemma ViewIsSymmetric(q: Query, w: World, v: World)
    requires SameView(q, w, v)
    ensures SameView(q, v, w)
  {
    SameStarts(q, w, v);
    hide Owns;
    forall t: nat | IsStart(q, v, t) ensures SameAt(q, v, w, t) {
      assert t in Starts(q, v) by { assert InWindow(q, t); }
      assert t in Starts(q, w);
      assert SameAt(q, w, v, t);
    }
  }
}
