/** What the computed answer promises: exactness, determinism, and blindness to input order and to rows outside the
    window. */
module AvailabilityTheorems {
  import opened Sorting
  import opened Domain
  import opened Availability
  import opened AvailabilityScan

  // ----- The bookable starts in order -----

  lemma {:induction false} BookableAmongSelects(q: Query, w: World, ts: seq<nat>)
    requires StrictlySorted(ts)
    ensures StrictlySorted(BookableAmong(q, w, ts))
    ensures forall t :: t in BookableAmong(q, w, ts) <==> t in ts && Bookable(q, w, t)
    decreases |ts|
  {
    hide Bookable;
    if ts != [] {
      var n := |ts| - 1;
      BookableAmongSelects(q, w, ts[..n]);
      assert ts == ts[..n] + [ts[n]];
      var before := BookableAmong(q, w, ts[..n]);
      forall i | 0 <= i < |before| ensures before[i] < ts[n] {
        assert before[i] in ts[..n];
      }
    }
  }

  lemma ExaminedStarts(q: Query, w: World)
    ensures StrictlySorted(Examined(q, w))
    ensures forall t :: t in Examined(q, w) ==> t in Starts(q, w)
    ensures |Starts(q, w)| <= STARTS_EXAMINED ==> forall t :: t in Starts(q, w) ==> t in Examined(q, w)
    ensures forall t, s :: t in Starts(q, w) && s in Examined(q, w) && t < s ==> t in Examined(q, w)
  {
    hide Starts;
    var all := InOrder(Starts(q, w));
    var ts := Examined(q, w);
    forall t | t in ts ensures t in Starts(q, w) {
      assert t in Elements(all);
    }
    forall t | t in Starts(q, w) ensures t in all {
      assert t in Elements(all);
    }
    forall t, s | t in Starts(q, w) && s in ts && t < s ensures t in ts {
      assert t in all;
      var i :| 0 <= i < |all| && all[i] == t;
      var j :| 0 <= j < |ts| && ts[j] == s;
      assert all[j] == s;
      if j < i { assert all[j] < all[i]; }
      assert ts[i] == t;
    }
  }

  predicate HasSlot(slots: seq<Slot>, t: nat) {
    exists i :: 0 <= i < |slots| && slots[i].start == t
  }

  ghost function AllBookable(q: Query, w: World): seq<nat> {
    BookableAmong(q, w, Examined(q, w))
  }

  lemma OfferedIsBookable(q: Query, w: World, t: nat, slot: Slot)
    requires Offers(q, w, t, slot)
    ensures Bookable(q, w, t) && slot.start == t
  {
  }

  lemma BookableIsStart(q: Query, w: World, t: nat)
    requires Bookable(q, w, t)
    ensures t in Starts(q, w)
  {
  }

  /** The slots of an answer are offered at the first of the bookable starts in order. */
  lemma SlotsFollowStarts(q: Query, w: World, slots: seq<Slot>, truncated: bool)
    requires IsAnswer(q, w, Computed(slots, truncated))
    ensures |slots| <= |AllBookable(q, w)|
    ensures forall i :: 0 <= i < |slots| ==>
          slots[i].start == AllBookable(q, w)[i] && Offers(q, w, slots[i].start, slots[i])
    ensures StrictlySorted(AllBookable(q, w))
    ensures forall t :: t in AllBookable(q, w) <==> t in Examined(q, w) && Bookable(q, w, t)
  {
    hide Bookable, Offers, GridFails, Starts;
    var all := AllBookable(q, w);
    ExaminedStarts(q, w);
    BookableAmongSelects(q, w, Examined(q, w));
    forall i | 0 <= i < |slots| ensures slots[i].start == all[i] && Offers(q, w, slots[i].start, slots[i]) {
      OfferedIsBookable(q, w, all[i], slots[i]);
    }
  }

  /** Of an answer, slot by slot: the slots are strictly increasing, each is what the engine offers at its start, and
      no bookable start before an offered one is passed over. */
  lemma SlotsAreBookable(q: Query, w: World, slots: seq<Slot>, truncated: bool)
    requires IsAnswer(q, w, Computed(slots, truncated))
    ensures forall i, j :: 0 <= i < j < |slots| ==> slots[i].start < slots[j].start
    ensures forall i :: 0 <= i < |slots| ==> Offers(q, w, slots[i].start, slots[i])
    ensures forall i, t: nat :: 0 <= i < |slots| && Bookable(q, w, t) && t < slots[i].start ==> HasSlot(slots, t)
  {
    hide Bookable, Offers, IsAnswer, AllBookable, Examined, Starts;
    var all := AllBookable(q, w);
    ExaminedStarts(q, w);
    SlotsFollowStarts(q, w, slots, truncated);
    forall i, t: nat | 0 <= i < |slots| && Bookable(q, w, t) && t < slots[i].start ensures HasSlot(slots, t) {
      assert all[i] in all;
      BookableIsStart(q, w, t);
      assert t in all;
      var j :| 0 <= j < |all| && all[j] == t;
      assert j < i;
      assert slots[j].start == t;
    }
  }

  /** When the answer is not truncated, every bookable start has its slot. */
  lemma NothingIsMissing(q: Query, w: World, slots: seq<Slot>)
    requires IsAnswer(q, w, Computed(slots, false))
    ensures forall t: nat :: Bookable(q, w, t) <==> HasSlot(slots, t)
  {
    assert |slots| == |AllBookable(q, w)| && |Starts(q, w)| <= STARTS_EXAMINED;
    hide Bookable, Offers, IsAnswer, AllBookable, Examined, Starts;
    var all := AllBookable(q, w);
    ExaminedStarts(q, w);
    SlotsFollowStarts(q, w, slots, false);
    forall t: nat ensures Bookable(q, w, t) <==> HasSlot(slots, t) {
      if Bookable(q, w, t) {
        BookableIsStart(q, w, t);
        assert t in all;
        var j :| 0 <= j < |all| && all[j] == t;
        assert slots[j].start == t;
      }
      if HasSlot(slots, t) {
        var j :| 0 <= j < |slots| && slots[j].start == t;
        assert all[j] in all;
      }
    }
  }

  /** When it is truncated, the limit was reached with a later bookable start left, or more starts were in the window
      than the examined bound. */
  lemma TruncationIsHonest(q: Query, w: World, slots: seq<Slot>)
    requires IsAnswer(q, w, Computed(slots, true))
    ensures || (|slots| == Limit(q) && exists t: nat :: Bookable(q, w, t) && LaterThanAll(slots, t))
            || |Starts(q, w)| > STARTS_EXAMINED
  {
    var all := AllBookable(q, w);
    SlotsFollowStarts(q, w, slots, true);
    if |Starts(q, w)| <= STARTS_EXAMINED {
      assert |slots| < |all|;
      hide Bookable, Offers, IsAnswer, AllBookable, Examined, Starts;
      var t := all[|slots|];
      assert t in all;
      assert LaterThanAll(slots, t);
    }
  }

  predicate LaterThanAll(slots: seq<Slot>, t: nat) {
    forall i :: 0 <= i < |slots| ==> slots[i].start < t
  }

  // ----- Determinism -----

  /** The preferred candidate is the unique least one of a strict total order. */
  lemma PreferredIsUnique(q: Query, w: World, c: Candidate, o: Candidate, from: int, to: int)
    requires Preferred(q, w, c, from, to) && Preferred(q, w, o, from, to)
    ensures c == o
  {
    KeyOrderIsTotal(KeyOf(w, c, from, to), KeyOf(w, o, from, to));
  }

  lemma OfferIsUnique(q: Query, w: World, t: nat, a: Slot, b: Slot)
    requires Offers(q, w, t, a) && Offers(q, w, t, b)
    ensures a == b
  {
    var from, to := PaddedFrom(q, w, t), PaddedTo(q, w, t);
    var c :| Preferred(q, w, c, from, to) && c.asg == a.asg;
    var o :| Preferred(q, w, o, from, to) && o.asg == b.asg;
    PreferredIsUnique(q, w, c, o, from, to);
  }

  /** The inputs determine the answer. */
  lemma AnswerIsUnique(q: Query, w: World, a: Result, b: Result)
    requires IsAnswer(q, w, a) && IsAnswer(q, w, b)
    ensures a == b
  {
    hide Bookable, Offers, GridFails, BookableAmong, Examined, Starts;
    if a.Computed? && b.Computed? {
      forall i | 0 <= i < |a.slots| ensures a.slots[i] == b.slots[i] {
        OfferIsUnique(q, w, BookableAmong(q, w, Examined(q, w))[i], a.slots[i], b.slots[i]);
      }
    }
  }

  // ----- Worlds with the same answer -----

  /** Two worlds that show the same starts with the same owners, the same units and combinations, and the same
      closures and busy time wherever a start of the window could need them. */
  ghost predicate SameView(q: Query, w: World, v: World) {
    && GridFails(q, w) == GridFails(q, v)
    && (forall p, t: nat :: InWindow(q, t) ==> Owns(q, w, p, t) == Owns(q, v, p, t))
    && (forall u :: u in w.units <==> u in v.units)
    && (forall k :: k in w.combos <==> k in v.combos)
    && (forall t: nat :: IsStart(q, w, t) ==> SameAt(q, w, v, t))
  }

  /** Closures over the booking and busy time over its padding look the same. */
  ghost predicate SameAt(q: Query, w: World, v: World, t: nat)
    requires IsStart(q, w, t)
  {
    && Closed(w, t, t + DurationAt(q, w, t) * MINUTE) == Closed(v, t, t + DurationAt(q, w, t) * MINUTE)
    && SameBusy(w, v, PaddedFrom(q, w, t), PaddedTo(q, w, t))
  }

  ghost predicate SameBusy(w: World, v: World, from: int, to: int) {
    forall u :: UnitClear(w, u, from, to) == UnitClear(v, u, from, to)
  }

  lemma SameStarts(q: Query, w: World, v: World)
    requires SameView(q, w, v)
    ensures Starts(q, w) == Starts(q, v)
    ensures forall t: nat :: IsStart(q, w, t) ==> IsStart(q, v, t) && OwnerOf(q, w, t) == OwnerOf(q, v, t)
  {
    forall t: nat ensures IsStart(q, w, t) == IsStart(q, v, t) {
      if IsStart(q, w, t) { assert Owns(q, v, OwnerOf(q, w, t), t); }
      if IsStart(q, v, t) { assert Owns(q, w, OwnerOf(q, v, t), t); }
    }
    forall t: nat | IsStart(q, w, t) ensures OwnerOf(q, w, t) == OwnerOf(q, v, t) {
      OwnerIsUnique(q, v, OwnerOf(q, w, t), OwnerOf(q, v, t), t);
    }
  }

  lemma SameUsable(w: World, v: World)
    requires (forall u :: u in w.units <==> u in v.units) && forall k :: k in w.combos <==> k in v.combos
    ensures forall k :: UsableCombo(w, k) == UsableCombo(v, k)
  {
    forall id ensures ActiveUnit(w, id) == ActiveUnit(v, id) {
      if ActiveUnit(w, id) { var u :| u in w.units && u.id == id && u.active; assert u in v.units; }
      if ActiveUnit(v, id) { var u :| u in v.units && u.id == id && u.active; assert u in w.units; }
    }
  }

  lemma SameCandidates(q: Query, w: World, v: World, c: Candidate)
    requires (forall u :: u in w.units <==> u in v.units) && forall k :: k in w.combos <==> k in v.combos
    requires IsCandidate(q, w, c)
    ensures IsCandidate(q, v, c)
  {
    hide UsableCombo;
    SameUsable(w, v);
  }

  lemma SameFree(q: Query, w: World, v: World, from: int, to: int)
    requires (forall u :: u in w.units <==> u in v.units) && forall k :: k in w.combos <==> k in v.combos
    requires SameBusy(w, v, from, to)
    ensures forall c :: FreeCandidate(q, w, c, from, to) == FreeCandidate(q, v, c, from, to)
    ensures forall c :: KeyOf(w, c, from, to) == KeyOf(v, c, from, to)
  {
    hide UsableCombo, IsCandidate, UnitClear;
    forall c ensures FreeCandidate(q, w, c, from, to) == FreeCandidate(q, v, c, from, to) {
      if IsCandidate(q, w, c) { SameCandidates(q, w, v, c); }
      if IsCandidate(q, v, c) { SameCandidates(q, v, w, c); }
    }
    SameUsable(w, v);
    forall u ensures BrokenCombos(w, u, from, to) == BrokenCombos(v, u, from, to) {
    }
  }

  lemma SamePreferred(q: Query, w: World, v: World, c: Candidate, from: int, to: int)
    requires (forall u :: u in w.units <==> u in v.units) && forall k :: k in w.combos <==> k in v.combos
    requires SameBusy(w, v, from, to)
    ensures Preferred(q, w, c, from, to) == Preferred(q, v, c, from, to)
  {
    SameFree(q, w, v, from, to);
    hide FreeCandidate, KeyOf;
  }

  lemma SameOffers(q: Query, w: World, v: World, t: nat, slot: Slot)
    requires SameView(q, w, v)
    ensures Bookable(q, w, t) == Bookable(q, v, t)
    ensures Offers(q, w, t, slot) == Offers(q, v, t, slot)
  {
    SameStarts(q, w, v);
    if IsStart(q, w, t) {
      assert SameAt(q, w, v, t);
      var from, to := PaddedFrom(q, w, t), PaddedTo(q, w, t);
      SameFree(q, w, v, from, to);
      forall c ensures Preferred(q, w, c, from, to) == Preferred(q, v, c, from, to) {
        SamePreferred(q, w, v, c, from, to);
      }
      SameOffersAt(q, w, v, t, slot, from, to);
    } else {
      assert t in Starts(q, v) <==> t in Starts(q, w);
    }
  }

  lemma SameOffersAt(q: Query, w: World, v: World, t: nat, slot: Slot, from: int, to: int)
    requires IsStart(q, w, t) && IsStart(q, v, t) && OwnerOf(q, w, t) == OwnerOf(q, v, t)
    requires from == PaddedFrom(q, w, t) && to == PaddedTo(q, w, t) && SameAt(q, w, v, t)
    requires forall c :: FreeCandidate(q, w, c, from, to) == FreeCandidate(q, v, c, from, to)
    requires forall c :: Preferred(q, w, c, from, to) == Preferred(q, v, c, from, to)
    ensures Bookable(q, w, t) == Bookable(q, v, t)
    ensures Offers(q, w, t, slot) == Offers(q, v, t, slot)
  {
    hide FreeCandidate, Preferred, OwnerOf, Closed, IsStart;
    assert DurationAt(q, v, t) == DurationAt(q, w, t);
    assert PaddedFrom(q, v, t) == from && PaddedTo(q, v, t) == to;
  }

  lemma {:induction false} SameBookable(q: Query, w: World, v: World, ts: seq<nat>)
    requires SameView(q, w, v)
    ensures BookableAmong(q, w, ts) == BookableAmong(q, v, ts)
    decreases |ts|
  {
    if ts != [] {
      SameBookable(q, w, v, ts[..|ts| - 1]);
      SameOffers(q, w, v, ts[|ts| - 1], Slot(0, 0, UnitOf(0)));
      hide Bookable, SameView;
    }
  }

  lemma SameAnswer(q: Query, w: World, v: World, r: Result)
    requires SameView(q, w, v) && IsAnswer(q, w, r)
    ensures IsAnswer(q, v, r)
  {
    SameStarts(q, w, v);
    if r.Computed? {
      SameBookable(q, w, v, Examined(q, w));
      var all := BookableAmong(q, w, Examined(q, w));
      forall i | 0 <= i < |r.slots| ensures Offers(q, v, all[i], r.slots[i]) {
        SameOffers(q, w, v, all[i], r.slots[i]);
      }
      hide SameView, Offers, GridFails;
    }
  }

  // ----- Input order -----

  ghost predicate SameRows(w: World, v: World) {
    && (forall p :: p in w.periods <==> p in v.periods)
    && (forall u :: u in w.units <==> u in v.units)
    && (forall k :: k in w.combos <==> k in v.combos)
    && (forall c :: c in w.closures <==> c in v.closures)
    && (forall b :: b in w.busy <==> b in v.busy)
  }

  lemma SameRowsSameView(q: Query, w: World, v: World)
    requires SameRows(w, v)
    ensures SameView(q, w, v)
  {
    hide UsableCombo, IsCandidate;
    forall t: nat | IsStart(q, w, t) ensures SameAt(q, w, v, t) {
      forall u ensures UnitClear(w, u, PaddedFrom(q, w, t), PaddedTo(q, w, t)) == UnitClear(v, u, PaddedFrom(q, w,
          t), PaddedTo(q, w, t)) {
      }
    }
    forall p, t: nat ensures Owns(q, w, p, t) == Owns(q, v, p, t) {
      hide Admits;
    }
  }

  /** No list's order matters: runs over reordered inputs return the same slots and the same flag. */
  lemma InputOrderDoesNotMatter(q: Query, w: World, v: World, a: Result, b: Result)
    requires SameRows(w, v)
    requires IsAnswer(q, w, a) && IsAnswer(q, v, b)
    ensures a == b
  {
    hide IsAnswer, SameRows, SameView;
    SameRowsSameView(q, w, v);
    SameAnswer(q, w, v, a);
    AnswerIsUnique(q, v, a, b);
  }

  // ----- The fetched windows -----

  const TWELVE_HOURS := 12 * HOUR
  const LONGEST_MINUTES := 720

  /** What the tables' CHECK constraints allow. */
  ghost predicate Stored(q: Query, w: World) {
    && q.slotMinutes in {5, 10, 15, 20, 30, 60}
    && (forall p :: p in w.periods ==> 0 <= p.gap <= LONGEST_MINUTES)
    && (forall p, e :: p in w.periods && e in p.durations ==> 5 <= e.minutes <= LONGEST_MINUTES)
    && (forall c :: c in w.closures ==> c.s < c.e)
    && (forall b :: b in w.busy ==> b.s < b.e)
  }

  predicate PeriodFetched(q: Query, p: Period) {
    p.ends > q.from && p.starts < q.to
  }

  predicate ClosureFetched(q: Query, c: Closure) {
    Overlaps(Range(c.s, c.e), Range(q.from, q.to + TWELVE_HOURS))
  }

  predicate BusyFetched(q: Query, b: Busy) {
    Overlaps(Range(b.s, b.e), Range(q.from - TWELVE_HOURS, q.to + 2 * TWELVE_HOURS))
  }

  /** `v` holds the rows the availability transaction reads of `w`. */
  ghost predicate Fetched(q: Query, w: World, v: World) {
    && (forall p :: p in v.periods <==> p in w.periods && PeriodFetched(q, p))
    && (forall u :: u in v.units <==> u in w.units)
    && (forall k :: k in v.combos <==> k in w.combos)
    && (forall c :: c in v.closures <==> c in w.closures && ClosureFetched(q, c))
    && (forall b :: b in v.busy <==> b in w.busy && BusyFetched(q, b))
  }

  /** A period that admits a start of the window is one of those fetched. */
  lemma AdmittersAreFetched(q: Query, w: World, p: Period, t: nat)
    requires Stored(q, w) && p in w.periods && InWindow(q, t) && Admits(q, p, t)
    ensures PeriodFetched(q, p)
    ensures MINUTE <= DurationFor(p.durations, q.party).value * MINUTE <= TWELVE_HOURS
  {
    var k: nat :| GridPoint(p, q.slotMinutes, k, t);
    assert k * (q.slotMinutes * MINUTE) >= 0;
    var e := SmallestEntry(p.durations, q.party).value;
    assert e in p.durations;
  }

  lemma FetchedOwners(q: Query, w: World, v: World, p: Period, t: nat)
    requires Stored(q, w) && Fetched(q, w, v) && InWindow(q, t)
    ensures Owns(q, w, p, t) == Owns(q, v, p, t)
  {
    forall o | o in w.periods && Admits(q, o, t) ensures o in v.periods {
      AdmittersAreFetched(q, w, o, t);
    }
    hide Admits, Stored;
  }

  lemma FetchedClosures(q: Query, w: World, v: World, t: nat)
    requires Stored(q, w) && Fetched(q, w, v) && IsStart(q, w, t)
    ensures SameAt(q, w, v, t)
  {
    var p := OwnerOf(q, w, t);
    AdmittersAreFetched(q, w, p, t);
    var end := t + DurationAt(q, w, t) * MINUTE;
    SameOverSlot(q, w, v, t, end, p.gap * MINUTE);
    hide Closed, UnitClear, Stored, Fetched, IsStart;
  }

  lemma SameOverSlot(q: Query, w: World, v: World, t: int, end: int, gap: int)
    requires Stored(q, w) && Fetched(q, w, v)
    requires q.from <= t < q.to && t < end <= t + TWELVE_HOURS && 0 <= gap <= TWELVE_HOURS
    ensures Closed(w, t, end) == Closed(v, t, end)
    ensures SameBusy(w, v, t - gap, end + gap)
  {
    if Closed(w, t, end) {
      var c :| c in w.closures && c.s < end && c.e > t;
      assert ClosureFetched(q, c);
      assert c in v.closures;
    }
    var from, to := t - gap, end + gap;
    forall u ensures UnitClear(w, u, from, to) == UnitClear(v, u, from, to) {
      if UnitClear(v, u, from, to) {
        forall b | b in w.busy && b.unit == u ensures Clear(b, from, to) {
          assert BusyFetched(q, b) || Clear(b, from, to);
        }
      }
    }
  }

  lemma FetchedView(q: Query, w: World, v: World)
    requires Stored(q, w) && Fetched(q, w, v)
    ensures SameView(q, w, v)
  {
    forall p, t: nat | InWindow(q, t) ensures Owns(q, w, p, t) == Owns(q, v, p, t) { FetchedOwners(q, w, v, p, t); }
    forall t: nat | IsStart(q, w, t) ensures SameAt(q, w, v, t) { FetchedClosures(q, w, v, t); }
    hide Owns, SameAt, IsStart;
  }

  /** Reading only the rows near the window changes nothing: not the slots, not their assignments, not the flag. */
  lemma WindowsAreEnough(q: Query, w: World, v: World, a: Result, b: Result)
    requires Stored(q, w) && Fetched(q, w, v)
    requires IsAnswer(q, w, a) && IsAnswer(q, v, b)
    ensures a == b
  {
    hide IsAnswer, SameView, Stored, Fetched;
    FetchedView(q, w, v);
    SameAnswer(q, w, v, a);
    AnswerIsUnique(q, v, a, b);
  }
}
