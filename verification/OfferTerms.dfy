/** The terms of an offer, read off the schedules and rows themselves: hours, grid, duration, gap, closures, fit, and
    the host's order of preference. */
module OfferTerms {
  import opened Sorting
  import opened Domain
  import opened Availability
  import opened AvailabilityScan
  import opened AvailabilityTheorems
  import opened Periods

  // ----- Durations -----

  /** The `i`-th entry names the duration: its size takes the party, none that does is smaller, and none before it is as
      small. */
  predicate Names(entries: seq<Entry>, party: int, i: int) {
    && 0 <= i < |entries| && entries[i].size.Some? && party <= entries[i].size.value
    && forall j :: 0 <= j < |entries| && entries[j].size.Some? && party <= entries[j].size.value ==>
         entries[i].size.value <= entries[j].size.value && (j < i ==> entries[i].size.value < entries[j].size.value)
  }

  ghost predicate NamesDuration(entries: seq<Entry>, party: int, minutes: int) {
    exists i :: Names(entries, party, i) && entries[i].minutes == minutes
  }

  lemma {:induction false} SmallestIsNamed(entries: seq<Entry>, party: int)
    requires SmallestEntry(entries, party).Some?
    ensures exists i :: Names(entries, party, i) && entries[i] == SmallestEntry(entries, party).value
    decreases |entries|
  {
    var n := |entries| - 1;
    var front, last := entries[..n], entries[n];
    SmallestEntryIsSmallest(front, party);
    var best := SmallestEntry(front, party);
    if Applies(last, party) && (best.None? || last.size.value < best.value.size.value) {
      forall j | 0 <= j < n && entries[j].size.Some? && party <= entries[j].size.value
        ensures last.size.value < entries[j].size.value
      {
        assert entries[j] == front[j] && front[j] in front && Applies(front[j], party);
      }
      assert Names(entries, party, n);
    } else {
      SmallestIsNamed(front, party);
      var i :| Names(front, party, i) && front[i] == best.value;
      StillNamed(entries, party, i);
    }
  }

  lemma StillNamed(entries: seq<Entry>, party: int, i: int)
    requires entries != [] && Names(entries[..|entries| - 1], party, i)
    requires var last := entries[|entries| - 1]; Applies(last, party) ==> entries[i].size.value <= last.size.value
    ensures Names(entries, party, i)
  {
    var front := entries[..|entries| - 1];
    forall j | 0 <= j < |entries| && entries[j].size.Some? && party <= entries[j].size.value
      ensures entries[i].size.value <= entries[j].size.value
      ensures j < i ==> entries[i].size.value < entries[j].size.value
    {
      if j < |front| { assert entries[j] == front[j]; } else { assert Applies(entries[j], party); }
    }
  }

  lemma DurationExactly(entries: seq<Entry>, party: int, minutes: int)
    ensures DurationFor(entries, party) == Some(minutes) <==> NamesDuration(entries, party, minutes)
  {
    SmallestEntryIsSmallest(entries, party);
    if SmallestEntry(entries, party).Some? { SmallestIsNamed(entries, party); }
    if i :| Names(entries, party, i) && entries[i].minutes == minutes {
      assert Applies(entries[i], party);
      var k :| Names(entries, party, k) && entries[k] == SmallestEntry(entries, party).value;
      assert i == k;
    }
  }

  // ----- Granted starts -----

  predicate StepsAfter(t: int, opening: int, step: int, k: nat) {
    t - opening == k * step
  }

  /** A period grants a start: it lies on the grid from the opening, and the booking ends by the close. */
  ghost predicate Grants(q: Query, p: Period, t: int, minutes: int) {
    && NamesDuration(p.durations, q.party, minutes)
    && q.slotMinutes > 0 && (exists k: nat :: StepsAfter(t, p.starts, q.slotMinutes * 60_000, k))
    && t + minutes * 60_000 <= p.ends
  }

  lemma AdmitsExactly(q: Query, p: Period, t: int, minutes: int)
    ensures Grants(q, p, t, minutes) <==> Admits(q, p, t) && DurationFor(p.durations, q.party) == Some(minutes)
  {
    DurationExactly(p.durations, q.party, minutes);
    hide NamesDuration, DurationFor;
    forall k: nat ensures GridPoint(p, q.slotMinutes, k, t) <==> StepsAfter(t, p.starts, q.slotMinutes * 60_000, k) { }
    hide GridPoint, StepsAfter;
  }

  /** Of the periods that grant the start it is the first, by opening and then schedule id. */
  ghost predicate FirstToGrant(q: Query, ps: seq<Period>, p: Period, t: int, minutes: int) {
    && p in ps && Grants(q, p, t, minutes)
    && forall o, m :: o in ps && o != p && Grants(q, o, t, m) ==>
         p.starts < o.starts || (p.starts == o.starts && p.scheduleId < o.scheduleId)
  }

  lemma OwnsExactly(q: Query, w: World, p: Period, t: int, minutes: int)
    ensures FirstToGrant(q, w.periods, p, t, minutes) <==>
            Owns(q, w, p, t) && DurationFor(p.durations, q.party) == Some(minutes)
  {
    AdmitsExactly(q, p, t, minutes);
    forall o, m ensures Grants(q, o, t, m) <==> Admits(q, o, t) && DurationFor(o.durations, q.party) == Some(m) {
      AdmitsExactly(q, o, t, m);
    }
    hide Grants, OnGrid, DurationFor;
  }

  // ----- Free assignments -----

  predicate UnitFreeFor(w: World, u: Id, from: int, to: int) {
    forall b :: b in w.busy && b.unit == u ==> b.e <= from || to <= b.s
  }

  predicate InService(w: World, u: Id) {
    exists x :: x in w.units && x.id == u && x.active
  }

  /** The row `x` is an active unit of that id that takes the party. */
  predicate TakesUnit(w: World, party: int, u: Id, x: UnitSnapshot) {
    x in w.units && x.id == u && x.active && x.capMin <= party <= x.capMax
  }

  /** The row `k` is an active combination of that id, its members in service, that takes the party. */
  predicate TakesCombo(w: World, party: int, c: Id, k: ComboSnapshot) {
    && k in w.combos && k.id == c && k.active && k.capMin <= party <= k.capMax
    && forall m :: m in k.unitIds ==> InService(w, m)
  }

  /** The assignment takes the party, with this greatest capacity and label, and each of its units is free. */
  ghost predicate FreeFor(w: World, party: int, a: Assignment, max: int, name: Label, from: int, to: int) {
    match a
    case UnitOf(u) =>
      UnitFreeFor(w, u, from, to) && exists x :: TakesUnit(w, party, u, x) && max == x.capMax && name == x.name
    case ComboOf(c) =>
      exists k :: TakesCombo(w, party, c, k) && max == k.capMax && name == k.name
                  && forall m :: m in k.unitIds ==> UnitFreeFor(w, m, from, to)
  }

  lemma SameUnitTests(w: World)
    ensures forall u, from, to :: UnitFreeFor(w, u, from, to) <==> UnitClear(w, u, from, to)
    ensures forall u :: InService(w, u) <==> ActiveUnit(w, u)
  {
  }

  lemma FreeExactly(q: Query, w: World, a: Assignment, max: int, name: Label, from: int, to: int)
    ensures FreeFor(w, q.party, a, max, name, from, to) <==>
            exists c :: FreeCandidate(q, w, c, from, to) && c.asg == a && c.capMax == max && c.name == name
  {
    SameUnitTests(w);
    if FreeFor(w, q.party, a, max, name, from, to) {
      hide UnitFreeFor, UnitClear, InService, ActiveUnit;
      match a {
        case UnitOf(u) =>
          var x :| TakesUnit(w, q.party, u, x) && max == x.capMax && name == x.name;
          assert FreeCandidate(q, w, UnitCandidate(x), from, to);
        case ComboOf(c) =>
          var k :| TakesCombo(w, q.party, c, k) && max == k.capMax && name == k.name
            && forall m :: m in k.unitIds ==> UnitFreeFor(w, m, from, to);
          assert UsableCombo(w, k);
          assert FreeCandidate(q, w, ComboCandidate(k), from, to);
      }
    }
    if c :| FreeCandidate(q, w, c, from, to) && c.asg == a && c.capMax == max && c.name == name {
      CandidateIsFree(q, w, c, from, to);
    }
  }

  lemma CandidateIsFree(q: Query, w: World, c: Candidate, from: int, to: int)
    requires FreeCandidate(q, w, c, from, to)
    ensures FreeFor(w, q.party, c.asg, c.capMax, c.name, from, to)
  {
    SameUnitTests(w);
    hide UnitFreeFor, UnitClear, InService, ActiveUnit;
    if u :| u in w.units && u.active && u.capMin <= q.party <= u.capMax && c == UnitCandidate(u) {
      assert TakesUnit(w, q.party, u.id, u);
      assert u.id in c.unitIds;
    } else {
      var k :| UsableCombo(w, k) && k.capMin <= q.party <= k.capMax && c == ComboCandidate(k);
      assert TakesCombo(w, q.party, k.id, k);
    }
  }

  // ----- The terms of an offer -----

  /** A slot on the terms of period `p`: in the window, granted by `p` first, clear of closures, its assignment free
      from one gap before the booking to one gap after it. */
  ghost predicate OnTerms(q: Query, w: World, p: Period, sl: Slot, max: int, name: Label) {
    var end, gap := sl.start + sl.duration * 60_000, p.gap * 60_000;
    && q.from <= sl.start < q.to && q.now <= sl.start
    && FirstToGrant(q, w.periods, p, sl.start, sl.duration)
    && (forall c :: c in w.closures ==> c.e <= sl.start || end <= c.s)
    && FreeFor(w, q.party, sl.asg, max, name, sl.start - gap, end + gap)
  }

  lemma OwnerIs(q: Query, w: World, p: Period, t: nat)
    requires Owns(q, w, p, t) && InWindow(q, t)
    ensures IsStart(q, w, t) && OwnerOf(q, w, t) == p
  {
    OwnerIsUnique(q, w, p, OwnerOf(q, w, t), t);
  }

  lemma OpenExactly(w: World, from: int, to: int)
    ensures !Closed(w, from, to) <==> forall c :: c in w.closures ==> c.e <= from || to <= c.s
  {
  }

  /** A start is bookable exactly when there is a slot for it on the terms of some period. */
  lemma BookableExactly(q: Query, w: World, t: nat)
    ensures Bookable(q, w, t) <==>
            exists p, minutes, a, max, name :: OnTerms(q, w, p, Slot(t, minutes, a), max, name)
  {
    if Bookable(q, w, t) {
      var p, minutes := OwnerOf(q, w, t), DurationAt(q, w, t);
      var c :| FreeCandidate(q, w, c, PaddedFrom(q, w, t), PaddedTo(q, w, t));
      CandidateOnTerms(q, w, t, c);
      assert OnTerms(q, w, p, Slot(t, minutes, c.asg), c.capMax, c.name);
    }
    if p, minutes, a, max, name :| OnTerms(q, w, p, Slot(t, minutes, a), max, name) {
      TermsAreBookable(q, w, p, Slot(t, minutes, a), max, name);
    }
  }

  lemma CandidateOnTerms(q: Query, w: World, t: nat, c: Candidate)
    requires IsStart(q, w, t) && !Closed(w, t, t + DurationAt(q, w, t) * MINUTE)
    requires FreeCandidate(q, w, c, PaddedFrom(q, w, t), PaddedTo(q, w, t))
    ensures OnTerms(q, w, OwnerOf(q, w, t), Slot(t, DurationAt(q, w, t), c.asg), c.capMax, c.name)
  {
    var p := OwnerOf(q, w, t);
    OwnsExactly(q, w, p, t, DurationAt(q, w, t));
    OpenExactly(w, t, t + DurationAt(q, w, t) * MINUTE);
    CandidateIsFree(q, w, c, PaddedFrom(q, w, t), PaddedTo(q, w, t));
    hide FirstToGrant, FreeFor, FreeCandidate, Closed, Owns;
  }

  lemma TermsAreBookable(q: Query, w: World, p: Period, sl: Slot, max: int, name: Label)
    requires OnTerms(q, w, p, sl, max, name)
    ensures Bookable(q, w, sl.start) && OwnerOf(q, w, sl.start) == p && DurationAt(q, w, sl.start) == sl.duration
  {
    var t := sl.start;
    OwnsExactly(q, w, p, t, sl.duration);
    OwnerIs(q, w, p, t);
    OpenExactly(w, t, t + sl.duration * MINUTE);
    FreeExactly(q, w, sl.asg, max, name, PaddedFrom(q, w, t), PaddedTo(q, w, t));
    hide FirstToGrant, FreeFor, FreeCandidate, Closed, Owns, IsStart;
  }

  // ----- The host's preference -----

  /** At the first difference the label has ended or has the lesser code unit. */
  predicate ComesBefore(a: Label, b: Label) {
    exists i :: 0 <= i <= |a| && i < |b| && a[..i] == b[..i] && (i == |a| || a[i] < b[i])
  }

  lemma {:induction false} LessComesBefore(a: Label, b: Label)
    requires LabelLess(a, b)
    ensures ComesBefore(a, b)
    decreases |a|
  {
    if a == [] || a[0] < b[0] {
      assert a[..0] == b[..0];
    } else {
      LessComesBefore(a[1..], b[1..]);
      var i :| 0 <= i <= |a[1..]| && i < |b[1..]| && a[1..][..i] == b[1..][..i]
        && (i == |a[1..]| || a[1..][i] < b[1..][i]);
      assert a[..i + 1] == [a[0]] + a[1..][..i] && b[..i + 1] == [b[0]] + b[1..][..i];
      assert i + 1 == |a| || a[i + 1] < b[i + 1];
    }
  }

  /** How many combinations, free throughout, a booking of the unit would take away. */
  ghost function Broken(w: World, u: Id, from: int, to: int): nat {
    var broken := set k | k in w.combos && k.active && u in k.unitIds
                          && forall m :: m in k.unitIds ==> InService(w, m) && UnitFreeFor(w, m, from, to);
    |broken|
  }

  lemma BrokenExactly(w: World, u: Id, from: int, to: int)
    ensures |BrokenCombos(w, u, from, to)| == Broken(w, u, from, to)
  {
    SameUnitTests(w);
    hide UnitFreeFor, UnitClear, InService, ActiveUnit;
    assert BrokenCombos(w, u, from, to) ==
      set k | k in w.combos && k.active && u in k.unitIds
              && forall m :: m in k.unitIds ==> InService(w, m) && UnitFreeFor(w, m, from, to);
  }

  /** The host prefers `a`: the least capacity, then a unit before a combination, then of units the one that breaks
      fewest combinations, then the label and the id. */
  ghost predicate Better(w: World, from: int, to: int, a: Assignment, max: int, name: Label,
                         b: Assignment, bmax: int, bname: Label)
  {
    if max != bmax then max < bmax
    else if a.UnitOf? && b.ComboOf? then true
    else if a.ComboOf? && b.UnitOf? then false
    else if a.UnitOf? && Broken(w, a.id, from, to) != Broken(w, b.id, from, to)
    then Broken(w, a.id, from, to) < Broken(w, b.id, from, to)
    else if name != bname then ComesBefore(name, bname)
    else a.id < b.id
  }

  lemma PreferredIsBetter(q: Query, w: World, c: Candidate, o: Candidate, from: int, to: int)
    requires Preferred(q, w, c, from, to) && FreeCandidate(q, w, o, from, to) && o.asg != c.asg
    ensures Better(w, from, to, c.asg, c.capMax, c.name, o.asg, o.capMax, o.name)
  {
    assert KeyLess(KeyOf(w, c, from, to), KeyOf(w, o, from, to));
    if c.asg.UnitOf? { BrokenExactly(w, c.asg.id, from, to); }
    if o.asg.UnitOf? { BrokenExactly(w, o.asg.id, from, to); }
    if LabelLess(c.name, o.name) { LessComesBefore(c.name, o.name); }
    hide FreeCandidate, Broken, BrokenCombos, ComesBefore, LabelLess;
  }

  /** What is offered at a start is on the terms of a period, and every other assignment free on those terms is one the
      host likes less. */
  lemma OfferIsBest(q: Query, w: World, sl: Slot)
    requires Offers(q, w, sl.start, sl)
    ensures exists p, max, name :: OnTerms(q, w, p, sl, max, name) && BestOnTerms(q, w, p, sl, max, name)
  {
    var t := sl.start;
    var from, to := PaddedFrom(q, w, t), PaddedTo(q, w, t);
    var c :| Preferred(q, w, c, from, to) && c.asg == sl.asg;
    var p := OwnerOf(q, w, t);
    CandidateOnTerms(q, w, t, c);
    forall b, bmax, bname | OnTerms(q, w, p, Slot(t, sl.duration, b), bmax, bname) && b != sl.asg
      ensures Better(w, from, to, sl.asg, c.capMax, c.name, b, bmax, bname)
    {
      FreeExactly(q, w, b, bmax, bname, from, to);
      var o :| FreeCandidate(q, w, o, from, to) && o.asg == b && o.capMax == bmax && o.name == bname;
      PreferredIsBetter(q, w, c, o, from, to);
    }
    hide Better, Preferred, FreeCandidate, FirstToGrant, FreeFor, IsStart, Closed;
    assert OnTerms(q, w, p, sl, c.capMax, c.name) && BestOnTerms(q, w, p, sl, c.capMax, c.name);
  }

  ghost predicate BestOnTerms(q: Query, w: World, p: Period, sl: Slot, max: int, name: Label) {
    var from, to := sl.start - p.gap * 60_000, sl.start + sl.duration * 60_000 + p.gap * 60_000;
    forall b, bmax, bname :: OnTerms(q, w, p, Slot(sl.start, sl.duration, b), bmax, bname) && b != sl.asg ==>
      Better(w, from, to, sl.asg, max, name, b, bmax, bname)
  }

  ghost predicate IsBestOffer(q: Query, w: World, sl: Slot) {
    exists p, max, name :: OnTerms(q, w, p, sl, max, name) && BestOnTerms(q, w, p, sl, max, name)
  }

  lemma SlotsAreOffers(q: Query, w: World, slots: seq<Slot>, truncated: bool)
    requires IsAnswer(q, w, Computed(slots, truncated))
    ensures forall i :: 0 <= i < |slots| ==> Offers(q, w, slots[i].start, slots[i])
  {
    SlotsAreBookable(q, w, slots, truncated);
    hide IsAnswer, Offers, Bookable, HasSlot;
  }

  /** Of a whole answer: every slot is the best on the terms of a period, and one that is not truncated has a slot for
      every start that has any. */
  lemma AnswerOnTerms(q: Query, w: World, slots: seq<Slot>, truncated: bool)
    requires IsAnswer(q, w, Computed(slots, truncated))
    ensures forall i :: 0 <= i < |slots| ==> IsBestOffer(q, w, slots[i])
    ensures !truncated ==> forall p, sl, max, name :: OnTerms(q, w, p, sl, max, name) ==> HasSlot(slots, sl.start)
  {
    SlotsAreOffers(q, w, slots, truncated);
    if !truncated { NothingIsMissing(q, w, slots); }
    hide IsAnswer, Offers, OnTerms, BestOnTerms, Bookable, HasSlot;
    forall i | 0 <= i < |slots| ensures IsBestOffer(q, w, slots[i]) {
      OfferIsBest(q, w, slots[i]);
    }
    if !truncated {
      forall p, sl, max, name | OnTerms(q, w, p, sl, max, name) ensures HasSlot(slots, sl.start) {
        TermsAreBookable(q, w, p, sl, max, name);
      }
    }
  }

  // ----- Back to the schedules -----

  /** A slot as the schedules promise it: an active schedule of the local weekday, inside its hours and on its grid, of
      the duration it names for the party, and its gap kept from every busy row of the units offered. */
  ghost predicate AsScheduled(q: Query, schedules: seq<Schedule>, offset: int, w: World, sl: Slot) {
    exists s, date :: s in schedules && ScheduledOn(q, s, date, offset, w, sl)
  }

  ghost predicate IsFree(w: World, party: int, a: Assignment, from: int, to: int) {
    exists max, name :: FreeFor(w, party, a, max, name, from, to)
  }

  ghost predicate ScheduledOn(q: Query, s: Schedule, date: int, offset: int, w: World, sl: Slot) {
    var opens := date * DAY + s.opens - offset;
    var closes := (if s.closesNextDay then date * DAY + DAY else date * DAY) + s.closes - offset;
    var end, gap := sl.start + sl.duration * 60_000, s.gap * 60_000;
    && s.active && s.weekday == IsoWeekday(date)
    && NamesDuration(s.durations, q.party, sl.duration)
    && q.slotMinutes > 0 && (exists k: nat :: StepsAfter(sl.start, opens, q.slotMinutes * 60_000, k))
    && end <= closes
    && IsFree(w, q.party, sl.asg, sl.start - gap, end + gap)
  }

  lemma OfferIsScheduled(q: Query, schedules: seq<Schedule>, offset: int, w: World, sl: Slot)
    requires forall p :: p in w.periods ==> exists s :: s in schedules && s.active && Occurs(s, p, offset)
    requires IsBestOffer(q, w, sl)
    ensures AsScheduled(q, schedules, offset, w, sl)
  {
    var p, max, name :| OnTerms(q, w, p, sl, max, name) && BestOnTerms(q, w, p, sl, max, name);
    var s :| s in schedules && s.active && Occurs(s, p, offset);
    var date :| s.weekday == IsoWeekday(date) && p == OccurrenceOn(s, date, offset);
    LaidOutIsOccurrence(s, date, offset, p);
    hide BestOnTerms, FreeFor, NamesDuration, OccurrenceOn, StepsAfter, IsoWeekday;
    var gap := s.gap * 60_000;
    assert IsFree(w, q.party, sl.asg, sl.start - gap, sl.start + sl.duration * 60_000 + gap);
    hide IsFree;
    assert ScheduledOn(q, s, date, offset, w, sl);
  }
}
