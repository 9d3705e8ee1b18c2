/** A commit keeps the committed state inside the rules, and changes only what every other transaction allows for. */
module Commits {
  import opened Sorting
  import opened Domain
  import opened Protocol
  import opened Invariants
  import opened Interference

  lemma ConfigOkFollowsBooking(cfg: Config, a: Reservation, b: Reservation)
    requires SameBooking(a, b) && ConfigOk(cfg, a)
    ensures ConfigOk(cfg, b)
  {
  }

  lemma WritesAreLocked(s: Sys, x: Txn)
    requires WritesOk(s.db, s.clock, x) && EventsOk(s.db, s.nextEvent, x)
    ensures x.writes.Keys <= x.rowLocks && x.events.Keys <= x.rowLocks
  {
    forall id | id in x.writes ensures id in x.rowLocks {
      assert WriteOk(s.db, s.clock, x, id, x.writes[id]);
    }
  }

  // ----- Configuration and rows -----

  lemma CommitConfig(s: Sys, x: Txn)
    requires DbOk(s) && TxnOk(s, x) && x.pc == Ready
    ensures WellFormed(CommitDb(s.db, x).cfg) && Grows(s.db.cfg, CommitDb(s.db, x).cfg)
    ensures ConfigIssued(CommitDb(s.db, x).cfg, s.issued)
  {
    if x.change.Some? {
      assert x.cmd.Admin?;
      ChangeGrows(s.db.cfg, x.change.value);
    }
  }

  /** A row a transaction without a configuration change leaves behind. */
  lemma CommitRow(s: Sys, x: Txn, id: Id)
    requires RowsOk(s.db, s.clock) && WritesOk(s.db, s.clock, x) && id in x.writes
    ensures RowOk(s.db.cfg, s.clock, x.writes[id])
  {
    var w := x.writes[id];
    assert WriteOk(s.db, s.clock, x, id, w);
    if id in s.db.res {
      assert RowOk(s.db.cfg, s.clock, s.db.res[id]);
      if Live(w, s.clock) && !GoesLive(s.db, id, w) { ConfigOkFollowsBooking(s.db.cfg, s.db.res[id], w); }
    }
  }

  /** A row that is still live was not stranded by the change. */
  lemma LiveRowUnderChange(s: Sys, x: Txn, id: Id)
    requires WellFormed(s.db.cfg) && TxnOk(s, x) && x.pc == Ready && x.cmd.Admin? && id in s.db.res
    requires RowOk(s.db.cfg, s.clock, View(s.db, x, id)) && Live(View(s.db, x, id), s.clock)
    ensures ConfigOk(ApplyChange(s.db.cfg, x.change.value), View(s.db, x, id))
  {
    var w := View(s.db, x, id);
    assert Live(w, x.begin);
    assert AdminOk(s.db, s.issued, x);
    hide TxnOk;
    assert !Strands(s.db.cfg, x.change.value, w);
    hide AdminOk, Strands;
    UnstrandedStaysOk(s.db.cfg, x.change.value, w);
  }

  /** A row as a committed configuration change leaves it: what the change would strand has been cancelled. */
  lemma CommitRowUnderChange(s: Sys, x: Txn, id: Id)
    requires DbOk(s) && TxnOk(s, x) && x.pc == Ready && x.cmd.Admin?
    requires id in s.db.res
    ensures RowOk(CommitDb(s.db, x).cfg, s.clock, View(s.db, x, id))
  {
    var w := View(s.db, x, id);
    var change := x.change.value;
    assert RowOk(s.db.cfg, s.clock, s.db.res[id]);
    if id in x.writes { CommitRow(s, x, id); }
    ChangeGrows(s.db.cfg, change);
    MembersStable(s.db.cfg, ApplyChange(s.db.cfg, change), w.venue, w.asg);
    if Live(w, s.clock) { LiveRowUnderChange(s, x, id); }
  }

  lemma CommitRows(s: Sys, x: Txn)
    requires DbOk(s) && TxnOk(s, x) && x.pc == Ready
    ensures RowsOk(CommitDb(s.db, x), s.clock)
  {
    var db2 := CommitDb(s.db, x);
    forall id | id in db2.res ensures RowOk(db2.cfg, s.clock, db2.res[id]) {
      if x.change.Some? {
        assert x.cmd.Admin?;
        if id in x.writes { assert WriteOk(s.db, s.clock, x, id, x.writes[id]); }
        assert id in s.db.res;
        CommitRowUnderChange(s, x, id);
      } else if id in x.writes {
        CommitRow(s, x, id);
      } else {
        assert RowOk(s.db.cfg, s.clock, s.db.res[id]);
      }
    }
  }

  // ----- Occupancy -----

  /** A write other than the hold's own insert is a version of a committed row with no more occupancy. */
  lemma OldRowShrinks(s: Sys, x: Txn, id: Id)
    requires RowsOk(s.db, s.clock) && WritesOk(s.db, s.clock, x) && id in s.db.res
    ensures Evolves(s.db.res[id], View(s.db, x, id))
  {
    assert RowOk(s.db.cfg, s.clock, s.db.res[id]);
    if id in x.writes { assert WriteOk(s.db, s.clock, x, id, x.writes[id]); }
  }

  lemma ApartIsSymmetric(a: Reservation, b: Reservation)
    requires Apart(a, b)
    ensures Apart(b, a)
  {
  }

  lemma CommitApart(s: Sys, x: Txn, i: Id, j: Id)
    requires DbOk(s) && TxnOk(s, x) && x.pc == Ready && i != j
    requires i in s.db.res
    requires j in s.db.res || j in x.writes
    ensures Apart(View(s.db, x, i), View(s.db, x, j))
  {
    OldRowShrinks(s, x, i);
    if j in s.db.res {
      OldRowShrinks(s, x, j);
      assert Apart(s.db.res[i], s.db.res[j]);
    } else {
      assert WriteOk(s.db, s.clock, x, j, x.writes[j]);
      assert x.cmd.Hold? && x.response == Some(Granted(j));
      assert Apart(View(s.db, x, i), x.writes[j]);
    }
  }

  lemma NewRowIsMade(s: Sys, x: Txn)
    requires WritesOk(s.db, s.clock, x)
    ensures forall id :: id in x.writes && id !in s.db.res ==> x.made == Some(id)
  {
    forall id | id in x.writes && id !in s.db.res ensures x.made == Some(id) {
      assert WriteOk(s.db, s.clock, x, id, x.writes[id]);
    }
  }

  lemma CommitNoOverlap(s: Sys, x: Txn)
    requires DbOk(s) && TxnOk(s, x) && x.pc == Ready
    ensures NoOverlap(CommitDb(s.db, x).res)
  {
    var res := CommitDb(s.db, x).res;
    NewRowIsMade(s, x);
    forall i, j | i in res && j in res && i != j ensures Apart(res[i], res[j]) {
      if i in s.db.res {
        CommitApart(s, x, i, j);
      } else if j in s.db.res {
        CommitApart(s, x, j, i);
        ApartIsSymmetric(res[j], res[i]);
      }
    }
  }

  // ----- Trails -----

  lemma ExtendTrail(es: seq<Event>, r: Reservation, w: Reservation, e: Event)
    requires IsTrail(es, r) && CanTransition(r.status, w.status) && r.version < w.version
    requires e.status == w.status && e.version == w.version
    requires forall i :: 0 <= i < |es| ==> es[i].id < e.id
    ensures IsTrail(es + [e], w)
  {
  }

  /** The trail a commit leaves for one reservation. */
  lemma CommitTrail(s: Sys, x: Txn, id: Id)
    requires TrailsOk(s.db, s.nextEvent) && WritesOk(s.db, s.clock, x) && EventsOk(s.db, s.nextEvent, x)
    requires x.pc == Ready && id in x.writes
    ensures var es := TrailOf(s.db, id) + (if id in x.events then [x.events[id]] else []);
            IsTrail(es, x.writes[id])
  {
    var w := x.writes[id];
    assert WriteOk(s.db, s.clock, x, id, w);
    if id !in s.db.res {
      assert TrailOf(s.db, id) + [x.events[id]] == [x.events[id]];
    } else {
      assert IsTrail(s.db.trail[id], s.db.res[id]);
      if StatusChanged(s.db, id, w) {
        ExtendTrail(TrailOf(s.db, id), s.db.res[id], w, x.events[id]);
      } else {
        assert TrailOf(s.db, id) + [] == TrailOf(s.db, id);
      }
    }
  }

  lemma CommitTrailIs(s: Sys, x: Txn, id: Id)
    ensures TrailOf(CommitDb(s.db, x), id) == TrailOf(s.db, id) + (if id in x.events then [x.events[id]] else [])
  {
    assert TrailOf(s.db, id) + [] == TrailOf(s.db, id);
  }

  lemma CommitTrailKeys(s: Sys, x: Txn)
    requires TrailsOk(s.db, s.nextEvent) && EventsOk(s.db, s.nextEvent, x) && x.pc == Ready
    ensures CommitDb(s.db, x).trail.Keys == CommitDb(s.db, x).res.Keys
  {
  }

  lemma CommitEventIds(s: Sys, x: Txn, id: Id, i: nat)
    requires TrailsOk(s.db, s.nextEvent) && EventsOk(s.db, s.nextEvent, x)
    requires id in CommitDb(s.db, x).trail && i < |CommitDb(s.db, x).trail[id]|
    ensures CommitDb(s.db, x).trail[id][i].id < s.nextEvent
  {
    CommitTrailIs(s, x, id);
    if i < |TrailOf(s.db, id)| { assert CommitDb(s.db, x).trail[id][i] == s.db.trail[id][i]; }
  }

  lemma CommitTrails(s: Sys, x: Txn)
    requires TrailsOk(s.db, s.nextEvent) && WritesOk(s.db, s.clock, x) && EventsOk(s.db, s.nextEvent, x)
    requires x.pc == Ready
    ensures TrailsOk(CommitDb(s.db, x), s.nextEvent)
  {
    var db2 := CommitDb(s.db, x);
    CommitTrailKeys(s, x);
    forall id | id in db2.res ensures IsTrail(db2.trail[id], db2.res[id]) {
      CommitTrailIs(s, x, id);
      if id in x.writes {
        CommitTrail(s, x, id);
      } else {
        assert IsTrail(s.db.trail[id], s.db.res[id]);
      }
    }
    forall id, i | id in db2.trail && 0 <= i < |db2.trail[id]| ensures db2.trail[id][i].id < s.nextEvent {
      CommitEventIds(s, x, id, i);
    }
  }

  // ----- Idempotency -----

  lemma CommitKeepsBookings(s: Sys, x: Txn)
    requires RowsOk(s.db, s.clock) && WritesOk(s.db, s.clock, x)
    ensures RowsEvolve(s.db, CommitDb(s.db, x))
  {
    forall id | id in s.db.res ensures id in CommitDb(s.db, x).res && Evolves(s.db.res[id], CommitDb(s.db, x).res[id]) {
      OldRowShrinks(s, x, id);
    }
  }

  /** A claim is stored with its outcome, and what it booked is that outcome. */
  lemma CommitClaim(db: Db, x: Txn)
    requires IdemOk(db) && x.cmd.Hold? && HoldOk(db, x) && x.pc == Ready
    requires RowsEvolve(db, CommitDb(db, x))
    ensures IdemOk(CommitDb(db, x))
  {
  }

  lemma CommitIdem(s: Sys, x: Txn)
    requires DbOk(s) && TxnOk(s, x) && x.pc == Ready
    ensures IdemOk(CommitDb(s.db, x))
  {
    CommitKeepsBookings(s, x);
    if x.cmd.Hold? { CommitClaim(s.db, x); }
  }

  lemma CommitKeepsDb(s: Sys, s2: Sys, x: Txn)
    requires DbOk(s) && TxnOk(s, x) && x.pc == Ready
    requires s2.db == CommitDb(s.db, x) && s2.clock == s.clock && s2.issued == s.issued && s2.nextEvent == s.nextEvent
    ensures DbOk(s2)
  {
    CommitConfig(s, x);
    CommitRows(s, x);
    CommitNoOverlap(s, x);
    CommitTrails(s, x);
    CommitIdem(s, x);
    forall id | id in s2.db.res ensures id in s2.issued {
      if id in x.writes { assert WriteOk(s.db, s.clock, x, id, x.writes[id]); }
    }
  }

  // ----- What the others see -----

  lemma ChangeLeavesEntry(cfg: Config, w: Change, other: Change)
    requires !SameRow(w, other)
    ensures SameEntry(cfg, ApplyChange(cfg, w), other)
  {
  }

  lemma ChangerIsAdmin(db: Db, issued: set<Id>, x: Txn)
    requires CommandOk(db, issued, x) && LocksOk(db, x) && x.pc == Ready && x.change.Some?
    ensures x.cmd.Admin? && x.venueLock == Some(Exclusive)
    ensures Admissible(db.cfg, x.change.value) && VenueOf(x.change.value) == x.venue
  {
  }

  /** The change of one administrator against what another transaction holds. */
  lemma CommitConfigForOther(db: Db, issued: set<Id>, x: Txn, y: Txn)
    requires CommandOk(db, issued, x) && LocksOk(db, x) && Compatible(x, y) && x.pc == Ready
    ensures y.venueLock.Some? ==> SameVenue(db.cfg, CommitDb(db, x).cfg, y.venue)
    ensures y.change.Some? ==> SameEntry(db.cfg, CommitDb(db, x).cfg, y.change.value)
  {
    if x.change.Some? {
      ChangerIsAdmin(db, issued, x);
      if y.venueLock.Some? { ChangeIsLocal(db.cfg, x.change.value, y.venue); }
      if y.change.Some? { ChangeLeavesEntry(db.cfg, x.change.value, y.change.value); }
    }
  }

  lemma CommitLeavesLockedRows(s: Sys, x: Txn, y: Txn)
    requires WritesOk(s.db, s.clock, x) && EventsOk(s.db, s.nextEvent, x) && Compatible(x, y)
    ensures LockedRowsStand(s.db, CommitDb(s.db, x), y)
  {
    WritesAreLocked(s, x);
    forall id | id in y.rowLocks ensures TrailOf(CommitDb(s.db, x), id) == TrailOf(s.db, id) {
      CommitTrailIs(s, x, id);
    }
  }

  lemma CommitBooksElsewhere(s: Sys, x: Txn, y: Txn)
    requires WritesOk(s.db, s.clock, x) && CommandOk(s.db, s.issued, x) && Compatible(x, y) && x.pc == Ready
    ensures NoNewBookings(s.db, CommitDb(s.db, x), y)
  {
    NewRowIsMade(s, x);
    forall id | id in x.writes && id !in s.db.res ensures x.writes[id].rows == x.unitLocks {
      assert x.made == Some(id);
      assert x.cmd.Hold?;
    }
  }

  lemma CommitRaisesNobody(s: Sys, x: Txn, y: Txn)
    requires WritesOk(s.db, s.clock, x) && Compatible(x, y)
    ensures NobodyRises(s.db, CommitDb(s.db, x), y)
  {
    var db2 := CommitDb(s.db, x);
    if y.venueLock == Some(Exclusive) {
      forall id | id in x.writes && x.writes[id].venue == y.venue ensures !GoesLive(s.db, id, x.writes[id]) {
        assert WriteOk(s.db, s.clock, x, id, x.writes[id]);
      }
      forall id | id in db2.res && db2.res[id].venue == y.venue
        ensures id in s.db.res && (Live(db2.res[id], y.begin) ==> Live(s.db.res[id], y.begin))
      {
        if id in x.writes { assert WriteOk(s.db, s.clock, x, id, x.writes[id]); }
      }
    }
  }

  lemma CommitLeavesKeys(s: Sys, x: Txn, y: Txn)
    requires CommandOk(s.db, s.issued, x) && Compatible(x, y)
    ensures KeysStand(s.db, CommitDb(s.db, x), y)
  {
  }

  lemma CommitAllowsFor(s: Sys, x: Txn, y: Txn)
    requires DbOk(s) && TxnOk(s, x) && TxnOk(s, y) && Compatible(x, y) && x.pc == Ready
    ensures Rely(s.db, CommitDb(s.db, x), y)
  {
    CommitConfig(s, x);
    CommitConfigForOther(s.db, s.issued, x, y);
    CommitKeepsBookings(s, x);
    CommitLeavesLockedRows(s, x, y);
    CommitBooksElsewhere(s, x, y);
    CommitRaisesNobody(s, x, y);
    CommitLeavesKeys(s, x, y);
  }
}
