/** From availability to booking: a slot that was offered is one a hold accepts. */
module OfferedSlots {
  import opened Sorting
  import opened Domain
  import opened Protocol
  import opened Invariants
  import opened HoldAlone
  import opened Availability
  import opened AvailabilityScan
  import opened AvailabilityTheorems
  import opened Periods

  // ----- What availability reads of the database -----

  predicate ShowsUnit(db: Db, venue: Id, u: UnitSnapshot) {
    u.id in db.cfg.units && db.cfg.units[u.id] == Unit(venue, u.capMin, u.capMax, u.active)
  }

  predicate ShowsCombo(db: Db, venue: Id, k: ComboSnapshot) {
    k.id in db.cfg.combos && db.cfg.combos[k.id] == Combo(venue, k.unitIds, k.capMin, k.capMax, k.active)
  }

  /** An active blackout of the venue. */
  ghost predicate ShowsClosure(db: Db, venue: Id, c: Closure) {
    exists b :: b in db.cfg.blackouts && db.cfg.blackouts[b] == Blackout(venue, Range(c.s, c.e), true)
  }

  /** An active unit row of a reservation that is not expired by effective status. */
  ghost predicate ShowsBusy(db: Db, now: int, venue: Id, b: Busy) {
    exists id :: id in db.res && db.res[id].venue == venue && db.res[id].active && !Dead(db.res[id], now)
                 && b.unit in db.res[id].rows && db.res[id].during == Range(b.s, b.e)
  }

  /** `w` is the venue as the database shows it at `now`. */
  ghost predicate Shows(db: Db, now: int, venue: Id, w: World) {
    && (forall u :: u in w.units ==> ShowsUnit(db, venue, u))
    && (forall id :: id in db.cfg.units && db.cfg.units[id].venue == venue ==> exists u :: u in w.units && u.id == id)
    && (forall k :: k in w.combos ==> ShowsCombo(db, venue, k))
    && (forall id :: id in db.cfg.combos && db.cfg.combos[id].venue == venue ==>
          exists k :: k in w.combos && k.id == id)
    && (forall c :: c in w.closures <==> ShowsClosure(db, venue, c))
    && (forall b :: b in w.busy <==> ShowsBusy(db, now, venue, b))
  }

  // ----- An offered slot passes every check -----

  function SlotRange(slot: Slot): Range {
    Range(slot.start, slot.start + slot.duration * MINUTE)
  }

  function HoldFor(q: Query, slot: Slot, key: Key, hash: int): Command {
    Hold(key, hash, q.party, SlotRange(slot), slot.asg)
  }

  lemma OfferedPeriod(q: Query, w: World, slot: Slot)
    requires Stored(q, w) && Offers(q, w, slot.start, slot)
    ensures IsStart(q, w, slot.start) && slot.duration == DurationAt(q, w, slot.start)
    ensures var p := OwnerOf(q, w, slot.start);
            && p in w.periods && p.gap >= 0
            && p.starts <= slot.start && SlotRange(slot).end <= p.ends
            && 5 <= slot.duration <= LONGEST_MINUTES
  {
    var p := OwnerOf(q, w, slot.start);
    assert Admits(q, p, slot.start);
    var k: nat :| GridPoint(p, q.slotMinutes, k, slot.start);
    assert k * (q.slotMinutes * MINUTE) >= 0;
    assert SmallestEntry(p.durations, q.party).value in p.durations;
  }

  /** The candidate offered exists, is active with all its units, and takes the party. */
  lemma CandidateIsUsable(db: Db, now: int, venue: Id, q: Query, w: World, c: Candidate)
    requires WellFormed(db.cfg) && Shows(db, now, venue, w) && IsCandidate(q, w, c)
    ensures Found(db.cfg, venue, c.asg) && FlaggedActive(db.cfg, c.asg) && Usable(db.cfg, c.asg)
    ensures match c.asg
            case UnitOf(u) => db.cfg.units[u].capMin <= q.party <= db.cfg.units[u].capMax
            case ComboOf(k) => db.cfg.combos[k].capMin <= q.party <= db.cfg.combos[k].capMax
    ensures Elements(c.unitIds) == Elements(Members(db.cfg, c.asg))
  {
    if k :| UsableCombo(w, k) && c == ComboCandidate(k) {
      assert ShowsCombo(db, venue, k);
      forall m | m in k.unitIds ensures m in db.cfg.units && db.cfg.units[m].active {
        assert ActiveUnit(w, m);
        var u :| u in w.units && u.id == m && u.active;
        assert ShowsUnit(db, venue, u);
      }
    } else {
      var u :| u in w.units && u.active && u.capMin <= q.party <= u.capMax && c == UnitCandidate(u);
      assert ShowsUnit(db, venue, u);
    }
  }

  lemma OpenMeansNoBlackout(db: Db, now: int, venue: Id, w: World, during: Range)
    requires Shows(db, now, venue, w) && !Closed(w, during.start, during.end)
    ensures !BlackedOut(db.cfg, venue, during)
  {
    if b :| b in db.cfg.blackouts && db.cfg.blackouts[b].venue == venue && db.cfg.blackouts[b].active
            && Overlaps(db.cfg.blackouts[b].during, during) {
      var c := Closure(db.cfg.blackouts[b].during.start, db.cfg.blackouts[b].during.end);
      assert ShowsClosure(db, venue, c);
    }
  }

  /** When the padded range is clear, whatever is in the way of the booking itself is a dead hold. */
  lemma ClearMeansDead(s: Sys, venue: Id, w: World, units: seq<Id>, cmd: Command, gap: int)
    requires Inv(s) && Shows(s.db, s.clock, venue, w) && cmd.Hold? && cmd.key.venue == venue && gap >= 0
    requires Elements(units) == UnitsOf(s.db, cmd) && Found(s.db.cfg, venue, cmd.asg)
    requires AllClear(w, units, cmd.during.start - gap, cmd.during.end + gap)
    ensures Obstacles(s.db, cmd) == DeadObstacles(s.db, s.clock, cmd)
  {
    var db := s.db;
    forall id | id in Obstacles(db, cmd) ensures Dead(db.res[id], s.clock) {
      if !Dead(db.res[id], s.clock) {
        var r := db.res[id];
        var u :| u in r.rows && u in UnitsOf(db, cmd);
        UnitHasOneVenue(s, id, cmd, u);
        var b := Busy(u, r.during.start, r.during.end);
        assert ShowsBusy(db, s.clock, venue, b);
      }
    }
  }

  lemma UnitHasOneVenue(s: Sys, id: Id, cmd: Command, u: Id)
    requires Inv(s) && id in s.db.res && u in s.db.res[id].rows && cmd.Hold? && u in UnitsOf(s.db, cmd)
    requires Found(s.db.cfg, cmd.key.venue, cmd.asg)
    ensures s.db.res[id].venue == cmd.key.venue
  {
    assert RowOk(s.db.cfg, s.clock, s.db.res[id]);
    assert u in Members(s.db.cfg, s.db.res[id].asg);
  }

  /** In the state and at the clock availability was read, a hold of an offered slot under a fresh key is judged
      bookable, provided the actor is under the cap and the rows in the way are within bounds. */
  lemma OfferedSlotIsBookable(s: Sys, q: Query, w: World, slot: Slot, key: Key, hash: int)
    requires Inv(s) && Shows(s.db, s.clock, key.venue, w) && Stored(q, w)
    requires Offers(q, w, slot.start, slot)
    requires |LiveHoldsAt(s.db, s.clock, key)| < CapOf(s.db, key.venue)
    requires |Obstacles(s.db, HoldFor(q, slot, key, hash))| <= OVERLAP_SET
    ensures Judgement(s.db, s.clock, HoldFor(q, slot, key, hash)) == None
  {
    var cmd := HoldFor(q, slot, key, hash);
    var t := slot.start;
    OfferedPeriod(q, w, slot);
    var p := OwnerOf(q, w, t);
    var c :| Preferred(q, w, c, PaddedFrom(q, w, t), PaddedTo(q, w, t)) && c.asg == slot.asg;
    OfferedIsOpen(q, w, slot);
    CandidateIsUsable(s.db, s.clock, key.venue, q, w, c);
    OpenMeansNoBlackout(s.db, s.clock, key.venue, w, cmd.during);
    ClearMeansDead(s, key.venue, w, c.unitIds, cmd, p.gap * MINUTE);
    hide Inv, Shows, Stored, Preferred, Offers, AllClear, Obstacles, DeadObstacles, BlackedOut, Found, FlaggedActive,
        Usable,
         OwnerOf, LiveHoldsAt;
  }

  /** The same of whatever the computation returned on the rows fetched for the window. */
  lemma ReturnedSlotsAreBookable(s: Sys, q: Query, w: World, fetched: World, slots: seq<Slot>, truncated: bool,
      i: nat, key: Key, hash: int)
    requires Inv(s) && Shows(s.db, s.clock, key.venue, w) && Stored(q, w) && Fetched(q, w, fetched)
    requires IsAnswer(q, fetched, Computed(slots, truncated)) && i < |slots|
    requires |LiveHoldsAt(s.db, s.clock, key)| < CapOf(s.db, key.venue)
    requires |Obstacles(s.db, HoldFor(q, slots[i], key, hash))| <= OVERLAP_SET
    ensures Judgement(s.db, s.clock, HoldFor(q, slots[i], key, hash)) == None
  {
    hide Inv, Shows, Stored, Fetched, SameView, IsAnswer, Offers, LiveHoldsAt, Obstacles, Judgement, Bookable;
    SlotsAreBookable(q, fetched, slots, truncated);
    FetchedView(q, w, fetched);
    SameOffers(q, w, fetched, slots[i].start, slots[i]);
    OfferedSlotIsBookable(s, q, w, slots[i], key, hash);
  }

  lemma OfferedIsOpen(q: Query, w: World, slot: Slot)
    requires Offers(q, w, slot.start, slot)
    ensures !Closed(w, SlotRange(slot).start, SlotRange(slot).end)
  {
  }

  /** The policy check of a hold that enforces the schedule passes too: the period that owns the slot contains it. */
  lemma OfferedSlotIsInSchedule(q: Query, w: World, slot: Slot, schedules: set<Schedule>, offset: int)
    requires (forall s :: s in schedules ==> ProperSchedule(s)) && Stored(q, w)
    requires forall p :: p in w.periods <==> p in Generated(schedules, offset, q.from, q.to)
    requires Offers(q, w, slot.start, slot)
    ensures InsideSchedule(schedules, offset, SlotRange(slot).start, SlotRange(slot).end)
  {
    OfferedPeriod(q, w, slot);
    var p := OwnerOf(q, w, slot.start);
    PeriodsAreComplete(schedules, offset, q.from, q.to, p);
    ScheduleCheckIsExact(schedules, offset, SlotRange(slot).start, SlotRange(slot).end);
  }

  /** Taking an offer: the hold, run statement by statement, books the offered assignment over the slot, expiring the
      dead holds in its way and nothing else. */
  method TakeOffer(session: Session, q: Query, ghost w: World, slot: Slot, key: Key, hash: int) returns (o: Outcome)
    requires session.Valid() && Inv(session.sys) && session.sys.txns == map[] && session.t !in session.sys.results
    requires Shows(session.sys.db, session.sys.clock, key.venue, w) && Stored(q, w)
    requires Offers(q, w, slot.start, slot) && key !in session.sys.db.idem
    requires |LiveHoldsAt(session.sys.db, session.sys.clock, key)| < CapOf(session.sys.db, key.venue)
    requires |Obstacles(session.sys.db, HoldFor(q, slot, key, hash))| <= OVERLAP_SET
    modifies session
    ensures session.Valid()
    ensures o.Answered? && o.response.Granted? && !o.replayed
    ensures Books(old(session.sys).db, old(session.sys).clock, HoldFor(q, slot, key, hash), o.response.id, o,
        session.sys.db)
  {
    OfferedSlotIsBookable(session.sys, q, w, slot, key, hash);
    hide Inv, Shows, Offers, Judgement, Books, Obstacles, LiveHoldsAt, Run, Executable;
    o := session.AttemptHold(HoldFor(q, slot, key, hash));
    assert exists id :: Books(old(session.sys).db, old(session.sys).clock, HoldFor(q, slot, key, hash), id, o,
        session.sys.db);
    BooksNames(old(session.sys).db, old(session.sys).clock, HoldFor(q, slot, key, hash), o, session.sys.db);
  }

  lemma BooksNames(db: Db, now: int, cmd: Command, o: Outcome, after: Db)
    requires cmd.Hold? && exists id :: Books(db, now, cmd, id, o, after)
    ensures o.Answered? && o.response.Granted? && !o.replayed && Books(db, now, cmd, o.response.id, o, after)
  {
  }
}
