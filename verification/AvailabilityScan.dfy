/** The whole computation: starts gathered period by period, then scanned in order up to the result limit and the
    bound on examined starts. */
module AvailabilityScan {
  import opened Sorting
  import opened Domain
  import opened Availability
  import opened AvailabilityEngine

  /** `RangeError` is the grid step's: it is thrown when a period that has a duration is laid on a grid of no
      positive step. */
  datatype Result = Computed(slots: seq<Slot>, truncated: bool) | RangeError

  // ----- What the answer is -----

  ghost function BookableAmong(q: Query, w: World, ts: seq<nat>): (r: seq<nat>)
    ensures |r| <= |ts|
  {
    if ts == [] then [] else
    var n := |ts| - 1;
    BookableAmong(q, w, ts[..n]) + (if Bookable(q, w, ts[n]) then [ts[n]] else [])
  }

  ghost function Examined(q: Query, w: World): seq<nat> {
    var ts := InOrder(Starts(q, w));
    if |ts| <= STARTS_EXAMINED then ts else ts[..STARTS_EXAMINED]
  }

  predicate HasDuration(q: Query, p: Period) {
    DurationFor(p.durations, q.party).Some?
  }

  ghost predicate GridFails(q: Query, w: World) {
    q.slotMinutes <= 0 && exists p :: p in w.periods && HasDuration(q, p)
  }

  /** A limit below one returns no slots. */
  function Limit(q: Query): nat {
    if q.limit < 0 then 0 else q.limit
  }

  /** The bookable ones among the starts examined, up to the limit, each with the preferred assignment; truncated when
      one more was bookable or one more start was left. */
  ghost predicate IsAnswer(q: Query, w: World, r: Result) {
    match r
    case RangeError => GridFails(q, w)
    case Computed(slots, truncated) =>
      var bookable := BookableAmong(q, w, Examined(q, w));
      && !GridFails(q, w)
      && |slots| == (if |bookable| <= Limit(q) then |bookable| else Limit(q))
      && (forall i :: 0 <= i < |slots| ==> Offers(q, w, bookable[i], slots[i]))
      && (truncated <==> |slots| < |bookable| || |Starts(q, w)| > STARTS_EXAMINED)
  }

  // ----- Gathering the starts -----

  method SortPeriods(ps: seq<Period>) returns (out: seq<Period>)
    ensures forall p :: p in out <==> p in ps
    ensures forall i, j :: 0 <= i < j < |out| ==> !Precedes(out[j], out[i])
  {
    out := [];
    for i := 0 to |ps|
      invariant forall p :: p in out <==> p in ps[..i]
      invariant forall a, b :: 0 <= a < b < |out| ==> !Precedes(out[b], out[a])
    {
      var n := 0;
      while n < |out| && !Precedes(ps[i], out[n])
        invariant 0 <= n <= |out| && forall a :: 0 <= a < n ==> !Precedes(ps[i], out[a])
      {
        n := n + 1;
      }
      assert ps[..i + 1] == ps[..i] + [ps[i]];
      assert forall p :: p in out <==> p in out[..n] || p in out[n..];
      out := out[..n] + [ps[i]] + out[n..];
    }
    assert ps[..|ps|] == ps;
  }

  /** `m` holds the starts some period of `ps` admits, each with the first that does. */
  ghost predicate Gathered(q: Query, ps: seq<Period>, m: map<nat, Period>) {
    && (forall t: nat :: t in m <==> InWindow(q, t) && exists j :: 0 <= j < |ps| && Admits(q, ps[j], t))
    && (forall t :: t in m ==> FirstAdmitter(q, ps, m[t], t))
  }

  ghost predicate FirstAdmitter(q: Query, ps: seq<Period>, p: Period, t: int) {
    exists j :: 0 <= j < |ps| && ps[j] == p && Admits(q, p, t) && forall k :: 0 <= k < j ==> !Admits(q, ps[k], t)
  }

  lemma FirstAdmitterExtends(q: Query, ps: seq<Period>, p: Period, o: Period, t: int)
    requires FirstAdmitter(q, ps, p, t)
    ensures FirstAdmitter(q, ps + [o], p, t)
  {
    var j :| 0 <= j < |ps| && ps[j] == p && Admits(q, p, t) && forall k :: 0 <= k < j ==> !Admits(q, ps[k], t);
    assert (ps + [o])[j] == p;
  }

  lemma FirstAdmitterIsNew(q: Query, ps: seq<Period>, o: Period, t: int)
    requires Admits(q, o, t) && forall k :: 0 <= k < |ps| ==> !Admits(q, ps[k], t)
    ensures FirstAdmitter(q, ps + [o], o, t)
  {
    assert (ps + [o])[|ps|] == o;
  }

  /** Adds one period's starts: those outside the window or already owned are skipped. */
  method AddStarts(q: Query, ghost before: seq<Period>, p: Period, starts: seq<int>, m: map<nat, Period>)
    returns (out: map<nat, Period>)
    requires Gathered(q, before, m) && forall t :: t in starts <==> Admits(q, p, t)
    ensures Gathered(q, before + [p], out)
  {
    out := m;
    for i := 0 to |starts|
      invariant forall t: nat :: t in out <==> t in m || (InWindow(q, t) && t in starts[..i])
      invariant forall t :: t in out ==> out[t] == if t in m then m[t] else p
    {
      var t := starts[i];
      assert starts[..i + 1] == starts[..i] + [t];
      if InWindow(q, t) && t !in out { out := out[t as nat := p]; }
    }
    assert starts[..|starts|] == starts;
    GatheredOneMore(q, before, p, m, out);
  }

  lemma GatheredOneMore(q: Query, before: seq<Period>, p: Period, m: map<nat, Period>, out: map<nat, Period>)
    requires Gathered(q, before, m)
    requires forall t: nat :: t in out <==> t in m || (InWindow(q, t) && Admits(q, p, t))
    requires forall t :: t in out ==> out[t] == if t in m then m[t] else p
    ensures Gathered(q, before + [p], out)
  {
    var ps := before + [p];
    forall t: nat ensures t in out <==> InWindow(q, t) && exists j :: 0 <= j < |ps| && Admits(q, ps[j], t) {
      if t in m {
        var j :| 0 <= j < |before| && Admits(q, before[j], t);
        assert ps[j] == before[j];
      } else if t in out {
        assert ps[|before|] == p;
      }
      if j :| 0 <= j < |ps| && Admits(q, ps[j], t) {
        if j < |before| { assert before[j] == ps[j]; }
      }
    }
    forall t | t in out ensures FirstAdmitter(q, ps, out[t], t) {
      if t in m { FirstAdmitterExtends(q, before, m[t], p, t); } else { FirstAdmitterIsNew(q, before, p, t); }
    }
  }

  method GatherStarts(q: Query, ordered: seq<Period>) returns (failed: bool, m: map<nat, Period>)
    ensures failed <==> q.slotMinutes <= 0 && exists p :: p in ordered && HasDuration(q, p)
    ensures !failed ==> Gathered(q, ordered, m)
  {
    failed, m := false, map[];
    for i := 0 to |ordered|
      invariant Gathered(q, ordered[..i], m)
      invariant q.slotMinutes <= 0 ==> forall p :: p in ordered[..i] ==> !HasDuration(q, p)
    {
      var p := ordered[i];
      assert ordered[..i + 1] == ordered[..i] + [p];
      var duration := ComputeDuration(p.durations, q.party);
      var starts: seq<int> := [];
      if duration.Some? {
        if q.slotMinutes <= 0 {
          assert HasDuration(q, p);
          return true, m;
        }
        starts := SlotStarts(p, q.slotMinutes, duration.value);
      }
      m := AddStarts(q, ordered[..i], p, starts, m);
    }
    assert ordered[..|ordered|] == ordered;
  }

  /** The first period in order that admits a start owns it. */
  lemma GatheredAreStarts(q: Query, w: World, ordered: seq<Period>, m: map<nat, Period>)
    requires DistinctPeriods(w.periods) && (forall p :: p in ordered <==> p in w.periods)
    requires forall i, j :: 0 <= i < j < |ordered| ==> !Precedes(ordered[j], ordered[i])
    requires Gathered(q, ordered, m)
    ensures m.Keys == Starts(q, w)
    ensures forall t :: t in m ==> Owns(q, w, m[t], t) && IsStart(q, w, t) && OwnerOf(q, w, t) == m[t]
  {
    forall t | t in m ensures Owns(q, w, m[t], t) {
      FirstAdmitterOwns(q, w, ordered, m[t], t);
    }
    forall t: nat | IsStart(q, w, t) ensures t in m {
      var p :| Owns(q, w, p, t);
      assert p in ordered;
      var j :| 0 <= j < |ordered| && ordered[j] == p;
    }
    forall t | t in m ensures OwnerOf(q, w, t) == m[t] {
      OwnerIsUnique(q, w, OwnerOf(q, w, t), m[t], t);
    }
  }

  lemma FirstAdmitterOwns(q: Query, w: World, ordered: seq<Period>, p: Period, t: int)
    requires DistinctPeriods(w.periods) && (forall o :: o in ordered <==> o in w.periods)
    requires forall i, j :: 0 <= i < j < |ordered| ==> !Precedes(ordered[j], ordered[i])
    requires FirstAdmitter(q, ordered, p, t)
    ensures Owns(q, w, p, t)
  {
    var j :| 0 <= j < |ordered| && ordered[j] == p && Admits(q, p, t)
        && forall k :: 0 <= k < j ==> !Admits(q, ordered[k], t);
    forall o | o in w.periods && o != p && Admits(q, o, t) ensures Precedes(p, o) {
      assert o in ordered;
      var k :| 0 <= k < |ordered| && ordered[k] == o;
      assert k > j;
    }
  }

  // ----- Scanning the starts -----

  lemma {:induction false} BookableAmongPrefix(q: Query, w: World, ts: seq<nat>, k: nat)
    requires k <= |ts|
    ensures BookableAmong(q, w, ts[..k]) <= BookableAmong(q, w, ts)
    decreases |ts|
  {
    if k < |ts| {
      BookableAmongPrefix(q, w, ts[..|ts| - 1], k);
      assert ts[..|ts| - 1][..k] == ts[..k];
    } else {
      assert ts[..k] == ts;
    }
  }

  lemma BookableAmongStep(q: Query, w: World, ts: seq<nat>, k: nat)
    requires k < |ts|
    ensures BookableAmong(q, w, ts[..k + 1]) ==
            BookableAmong(q, w, ts[..k]) + (if Bookable(q, w, ts[k]) then [ts[k]] else [])
  {
    assert ts[..k + 1][..k] == ts[..k];
  }

  predicate ClosedBy(c: Closure, from: int, to: int) {
    c.s < to && c.e > from
  }

  method IsClosed(w: World, from: int, to: int) returns (r: bool)
    ensures r <==> Closed(w, from, to)
  {
    for i := 0 to |w.closures|
      invariant forall j :: 0 <= j < i ==> !ClosedBy(w.closures[j], from, to)
    {
      if ClosedBy(w.closures[i], from, to) { return true; }
    }
    return false;
  }

  method FreeOnes(q: Query, w: World, candidates: seq<Candidate>, index: map<Id, seq<Interval>>, from: int, to: int)
    returns (free: seq<Candidate>)
    requires Indexes(index, w.busy) && forall c :: c in candidates <==> IsCandidate(q, w, c)
    ensures forall c :: c in free <==> FreeCandidate(q, w, c, from, to)
  {
    free := [];
    for i := 0 to |candidates|
      invariant forall c :: c in free <==> c in candidates[..i] && AllClear(w, c.unitIds, from, to)
    {
      assert candidates[..i + 1] == candidates[..i] + [candidates[i]];
      var f := IsFree(w, index, candidates[i].unitIds, from, to);
      if f { free := free + [candidates[i]]; }
    }
    assert candidates[..|candidates|] == candidates;
  }

  /** What the scan is given, besides the starts. */
  ghost predicate Prepared(q: Query, w: World, candidates: seq<Candidate>, usable: seq<ComboSnapshot>,
                           index: map<Id, seq<Interval>>)
  {
    && ProperWorld(w) && Indexes(index, w.busy) && NoRepeats(usable)
    && (forall k :: k in usable <==> UsableCombo(w, k))
    && (forall c :: c in candidates <==> IsCandidate(q, w, c))
  }

  /** One start: nothing when it is closed or no candidate is free, otherwise the slot offered. */
  method TryStart(q: Query, w: World, candidates: seq<Candidate>, usable: seq<ComboSnapshot>,
                  index: map<Id, seq<Interval>>, t: nat, period: Period)
    returns (slot: Option<Slot>)
    requires Prepared(q, w, candidates, usable, index)
    requires IsStart(q, w, t) && OwnerOf(q, w, t) == period
    ensures slot.Some? <==> Bookable(q, w, t)
    ensures slot.Some? ==> Offers(q, w, t, slot.value)
  {
    var duration := ComputeDuration(period.durations, q.party);
    var end := t + duration.value * MINUTE;
    var closed := IsClosed(w, t, end);
    if closed { return None; }
    var gap := period.gap * MINUTE;
    var free := FreeOnes(q, w, candidates, index, t - gap, end + gap);
    if free == [] { return None; }
    var chosen := Choose(q, w, usable, index, free, t - gap, end + gap);
    assert FreeCandidate(q, w, chosen.value, PaddedFrom(q, w, t), PaddedTo(q, w, t));
    assert Preferred(q, w, chosen.value, PaddedFrom(q, w, t), PaddedTo(q, w, t));
    slot := Some(Slot(t, duration.value, chosen.value.asg));
  }

  /** The slots for the bookable ones among the first `k` starts. */
  ghost predicate Scanned(q: Query, w: World, ts: seq<nat>, k: nat, slots: seq<Slot>)
    requires k <= |ts|
  {
    var bookable := BookableAmong(q, w, ts[..k]);
    && |slots| == |bookable|
    && (forall i :: 0 <= i < |slots| ==> Offers(q, w, bookable[i], slots[i]))
    && |slots| <= Limit(q)
  }

  lemma ScannedNone(q: Query, w: World, ts: seq<nat>)
    ensures Scanned(q, w, ts, 0, [])
  {
  }

  lemma ScannedOneMore(q: Query, w: World, ts: seq<nat>, k: nat, slots: seq<Slot>, slot: Option<Slot>)
    requires k < |ts| && Scanned(q, w, ts, k, slots)
    requires (slot.Some? <==> Bookable(q, w, ts[k])) && (slot.Some? ==> Offers(q, w, ts[k], slot.value))
    requires slot.Some? ==> |slots| < q.limit
    ensures Scanned(q, w, ts, k + 1, if slot.Some? then slots + [slot.value] else slots)
  {
    BookableAmongStep(q, w, ts, k);
  }

  lemma ExaminedLength(q: Query, w: World, ts: seq<nat>)
    requires ts == InOrder(Starts(q, w))
    ensures |Examined(q, w)| == if |ts| <= STARTS_EXAMINED then |ts| else STARTS_EXAMINED
  {
    hide Starts;
  }

  lemma AnswerAtEnd(q: Query, w: World, ts: seq<nat>, slots: seq<Slot>)
    requires ts == InOrder(Starts(q, w)) && !GridFails(q, w)
    requires Scanned(q, w, ts, |Examined(q, w)|, slots)
    ensures IsAnswer(q, w, Computed(slots, |ts| > STARTS_EXAMINED))
  {
    assert ts[..|Examined(q, w)|] == Examined(q, w);
  }

  lemma CutAnswer(q: Query, w: World, slots: seq<Slot>)
    requires !GridFails(q, w) && |slots| == Limit(q) < |BookableAmong(q, w, Examined(q, w))|
    requires forall i :: 0 <= i < |slots| ==> Offers(q, w, BookableAmong(q, w, Examined(q, w))[i], slots[i])
    ensures IsAnswer(q, w, Computed(slots, true))
  {
    hide Offers, GridFails, Starts, BookableAmong, Examined;
  }

  lemma AnswerBeyond(q: Query, w: World, ts: seq<nat>, k: nat, slots: seq<Slot>)
    requires ts == InOrder(Starts(q, w)) && !GridFails(q, w) && k <= |ts| && k <= STARTS_EXAMINED
    requires |slots| < |BookableAmong(q, w, ts[..k])|
    requires |slots| == Limit(q)
    requires forall i :: 0 <= i < |slots| ==> Offers(q, w, BookableAmong(q, w, ts[..k])[i], slots[i])
    ensures IsAnswer(q, w, Computed(slots, true))
  {
    var all := Examined(q, w);
    assert all[..k] == ts[..k] by { hide Starts, InOrder; }
    BookableAmongPrefix(q, w, all, k);
    hide Bookable, Offers, GridFails, Starts, InOrder, Examined, BookableAmong, IsAnswer;
    CutAnswer(q, w, slots);
  }

  /** The scan stopped at a bookable start beyond the limit. */
  lemma AnswerAtLimit(q: Query, w: World, ts: seq<nat>, k: nat, slots: seq<Slot>)
    requires ts == InOrder(Starts(q, w)) && !GridFails(q, w) && k < |ts| && k < STARTS_EXAMINED
    requires Scanned(q, w, ts, k, slots) && Bookable(q, w, ts[k]) && |slots| >= q.limit
    ensures IsAnswer(q, w, Computed(slots, true))
  {
    hide Bookable, Offers;
    BookableAmongStep(q, w, ts, k);
    AnswerBeyond(q, w, ts, k + 1, slots);
  }

  /** The starts in order, each kept with its owning period. */
  ghost predicate Lined(q: Query, w: World, ts: seq<nat>, byStart: map<nat, Period>) {
    && ts == InOrder(Starts(q, w))
    && forall t :: t in ts ==> t in byStart && IsStart(q, w, t) && OwnerOf(q, w, t) == byStart[t]
  }

  /** One start of the scan: its slot is added, unless the limit is reached, which ends the scan. */
  method ScanOne(q: Query, w: World, candidates: seq<Candidate>, usable: seq<ComboSnapshot>,
                 index: map<Id, seq<Interval>>, byStart: map<nat, Period>, ts: seq<nat>, k: nat, slots: seq<Slot>)
    returns (full: bool, more: seq<Slot>)
    requires Prepared(q, w, candidates, usable, index) && !GridFails(q, w) && Lined(q, w, ts, byStart)
    requires k < |ts| && k < STARTS_EXAMINED && Scanned(q, w, ts, k, slots)
    ensures if full then IsAnswer(q, w, Computed(more, true)) else Scanned(q, w, ts, k + 1, more)
  {
    hide IsAnswer, Prepared, Starts, InOrder, IsStart, OwnerOf, Bookable, Offers, GridFails, Scanned;
    var t := ts[k];
    var slot := TryStart(q, w, candidates, usable, index, t, byStart[t]);
    if slot.Some? && |slots| >= q.limit {
      AnswerAtLimit(q, w, ts, k, slots);
      return true, slots;
    }
    ScannedOneMore(q, w, ts, k, slots, slot);
    return false, if slot.Some? then slots + [slot.value] else slots;
  }

  /** The scan ran out of starts, or stopped at the bound on examined starts. */
  lemma AnswerWhenDone(q: Query, w: World, ts: seq<nat>, byStart: map<nat, Period>, k: nat, slots: seq<Slot>)
    requires Lined(q, w, ts, byStart) && !GridFails(q, w) && k <= |ts|
    requires k == (if |ts| <= STARTS_EXAMINED then |ts| else STARTS_EXAMINED) && Scanned(q, w, ts, k, slots)
    ensures IsAnswer(q, w, Computed(slots, k < |ts|))
  {
    hide IsAnswer, Starts, Scanned, GridFails;
    ExaminedLength(q, w, ts);
    AnswerAtEnd(q, w, ts, slots);
  }

  method Scan(q: Query, w: World, candidates: seq<Candidate>, usable: seq<ComboSnapshot>,
              index: map<Id, seq<Interval>>, byStart: map<nat, Period>, ts: seq<nat>)
    returns (r: Result)
    requires Prepared(q, w, candidates, usable, index) && !GridFails(q, w) && Lined(q, w, ts, byStart)
    ensures IsAnswer(q, w, r)
  {
    hide IsAnswer, Prepared, Lined, GridFails, Scanned;
    var slots: seq<Slot>, examined, full := [], 0, false;
    ScannedNone(q, w, ts);
    while examined < |ts| && examined < STARTS_EXAMINED && !full
      invariant 0 <= examined <= |ts| && examined <= STARTS_EXAMINED
      invariant if full then IsAnswer(q, w, Computed(slots, true)) else Scanned(q, w, ts, examined, slots)
    {
      full, slots := ScanOne(q, w, candidates, usable, index, byStart, ts, examined, slots);
      examined := examined + 1;
    }
    if full { return Computed(slots, true); }
    AnswerWhenDone(q, w, ts, byStart, examined, slots);
    r := Computed(slots, examined < |ts|);
  }

  method ComputeAvailability(q: Query, w: World) returns (r: Result)
    requires ProperWorld(w)
    ensures IsAnswer(q, w, r)
  {
    hide IsAnswer, Starts, InOrder, Gathered, Owns, IsStart, OwnerOf, UsableCombo, IsCandidate, Indexes, DisjointBusy,
         DistinctPeriods, DistinctIds, NoRepeats;
    var usable := UsableCombos(w);
    var candidates := FittingCandidates(q, w, usable);
    var index := IndexBusy(w.busy);
    var ordered := SortPeriods(w.periods);
    var failed, byStart := GatherStarts(q, ordered);
    if failed {
      FailureIsAnswer(q, w);
      return RangeError;
    }
    GatheredAreStarts(q, w, ordered, byStart);
    var ts := InOrder(byStart.Keys);
    forall t | t in ts ensures t in byStart { assert t in Elements(ts); }
    assert Lined(q, w, ts, byStart);
    hide Lined;
    r := Scan(q, w, candidates, usable, index, byStart, ts);
  }

  lemma FailureIsAnswer(q: Query, w: World)
    requires GridFails(q, w)
    ensures IsAnswer(q, w, RangeError)
  {
  }
}
