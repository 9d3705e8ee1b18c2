/** What a transaction may rely on while others commit, and that it suffices to keep the transaction's invariant. */
module Interference {
  import opened Sorting
  import opened Domain
  import opened Protocol
  import opened Invariants

  /** A committed row as another transaction's commit may leave it. */
  ghost predicate Evolves(a: Reservation, b: Reservation) {
    && SameBooking(a, b)
    && (b.active ==> a.active)
    && a.version <= b.version
  }

  ghost predicate SameEntry(a: Config, b: Config, w: Change) {
    match w
    case PutUnit(id, _) => (id in a.units <==> id in b.units) && (id in a.units ==> a.units[id] == b.units[id])
    case PutCombo(id, _) => (id in a.combos <==> id in b.combos) && (id in a.combos ==> a.combos[id] == b.combos[id])
    case PutBlackout(id, _) =>
      (id in a.blackouts <==> id in b.blackouts) && (id in a.blackouts ==> a.blackouts[id] == b.blackouts[id])
  }

  ghost predicate RowsEvolve(db: Db, db2: Db) {
    forall id {:trigger db.res[id]} {:trigger db2.res[id]} :: id in db.res ==>
          id in db2.res && Evolves(db.res[id], db2.res[id])
  }

  /** Rows `x` has locked stand still, and so do their trails. */
  ghost predicate LockedRowsStand(db: Db, db2: Db, x: Txn) {
    forall id {:trigger id in x.rowLocks} :: id in x.rowLocks ==>
      && (id in db.res <==> id in db2.res)
      && (id in db.res ==> db2.res[id] == db.res[id])
      && TrailOf(db2, id) == TrailOf(db, id)
  }

  /** Nothing is booked on units `x` has locked. */
  ghost predicate NoNewBookings(db: Db, db2: Db, x: Txn) {
    forall id {:trigger db2.res[id]} :: id in db2.res && id !in db.res ==> db2.res[id].rows !! x.unitLocks
  }

  /** Under the exclusive venue lock no reservation of the venue comes to life. */
  ghost predicate NobodyRises(db: Db, db2: Db, x: Txn) {
    x.venueLock == Some(Exclusive) ==>
      forall id {:trigger db2.res[id]} :: id in db2.res && db2.res[id].venue == x.venue ==>
        id in db.res && (Live(db2.res[id], x.begin) ==> Live(db.res[id], x.begin))
  }

  ghost predicate KeysStand(db: Db, db2: Db, x: Txn) {
    forall k {:trigger k in x.keys} :: k in x.keys ==>
      (k in db.idem <==> k in db2.idem) && (k in db.idem ==> db2.idem[k] == db.idem[k])
  }

  ghost predicate Rely(db: Db, db2: Db, x: Txn) {
    && Grows(db.cfg, db2.cfg) && WellFormed(db2.cfg)
    && (x.venueLock.Some? ==> SameVenue(db.cfg, db2.cfg, x.venue))
    && (x.change.Some? ==> SameEntry(db.cfg, db2.cfg, x.change.value))
    && RowsEvolve(db, db2)
    && LockedRowsStand(db, db2, x)
    && NoNewBookings(db, db2, x)
    && NobodyRises(db, db2, x)
    && KeysStand(db, db2, x)
  }

  lemma LocksStable(db: Db, db2: Db, x: Txn)
    requires LocksOk(db, x) && Rely(db, db2, x)
    ensures LocksOk(db2, x)
  {
  }

  lemma MembersStable(a: Config, b: Config, venue: Id, g: Assignment)
    requires Grows(a, b) && Found(a, venue, g)
    ensures Found(b, venue, g) && Members(b, g) == Members(a, g)
  {
  }

  lemma WriteStable(db: Db, db2: Db, clock: int, x: Txn, id: Id, w: Reservation)
    requires WriteOk(db, clock, x, id, w) && Rely(db, db2, x)
    ensures WriteOk(db2, clock, x, id, w)
    ensures StatusChanged(db, id, w) <==> StatusChanged(db2, id, w)
  {
    if GoesLive(db, id, w) {
      ConfigOkIsLocal(db.cfg, db2.cfg, w);
      MembersStable(db.cfg, db2.cfg, w.venue, w.asg);
    }
  }

  lemma WritesStable(db: Db, db2: Db, clock: int, x: Txn)
    requires WritesOk(db, clock, x) && Rely(db, db2, x)
    ensures WritesOk(db2, clock, x)
  {
    forall id | id in x.writes ensures WriteOk(db2, clock, x, id, x.writes[id]) {
      WriteStable(db, db2, clock, x, id, x.writes[id]);
    }
  }

  lemma EventsStable(db: Db, db2: Db, clock: int, nextEvent: nat, x: Txn)
    requires WritesOk(db, clock, x) && EventsOk(db, nextEvent, x) && Rely(db, db2, x)
    ensures EventsOk(db2, nextEvent, x)
  {
    forall id | id in x.writes
      ensures StatusChanged(db, id, x.writes[id]) <==> StatusChanged(db2, id, x.writes[id])
      ensures TrailOf(db2, id) == TrailOf(db, id)
    {
      assert WriteOk(db, clock, x, id, x.writes[id]);
      WriteStable(db, db2, clock, x, id, x.writes[id]);
    }
  }

  // ----- Command by command -----

  lemma OverlapsLockedStable(db: Db, db2: Db, x: Txn)
    requires x.cmd.Hold? && OverlapsLocked(db, x) && RowsEvolve(db, db2) && NoNewBookings(db, db2, x)
    ensures OverlapsLocked(db2, x)
  {
  }

  lemma DeadListedStable(db: Db, db2: Db, x: Txn)
    requires DeadListed(db, x) && LockedRowsStand(db, db2, x)
    ensures DeadListed(db2, x)
  {
  }

  lemma OnlyExpiriesStable(db: Db, db2: Db, clock: int, x: Txn)
    requires OnlyExpiries(db, x) && WritesOk(db, clock, x) && LockedRowsStand(db, db2, x)
    ensures OnlyExpiries(db2, x)
  {
    forall id | id in x.writes ensures id in x.rowLocks { assert WriteOk(db, clock, x, id, x.writes[id]); }
  }

  lemma BookedStable(db: Db, db2: Db, x: Txn, id: Id, w: Reservation)
    requires x.cmd.Hold? && BookedOk(db, x, id, w) && RowsEvolve(db, db2) && NoNewBookings(db, db2, x)
    requires forall o :: o in x.writes && o !in db.res ==> o !in db2.res
    ensures BookedOk(db2, x, id, w)
  {
    forall o | o in db2.res ensures Apart(View(db2, x, o), w) {
      if o in db.res {
        assert Apart(View(db, x, o), w);
        assert Evolves(db.res[o], db2.res[o]);
      } else {
        assert db2.res[o].rows !! x.unitLocks;
      }
    }
  }

  lemma AnswerStable(db: Db, db2: Db, clock: int, x: Txn)
    requires x.cmd.Hold? && AnswerOk(db, x) && WritesOk(db, clock, x) && Rely(db, db2, x)
    ensures AnswerOk(db2, x)
  {
    match x.response
    case Some(Granted(id)) =>
      forall o | o in x.writes && o !in db.res ensures o !in db2.res {
        assert WriteOk(db, clock, x, o, x.writes[o]);
      }
      BookedStable(db, db2, x, id, x.writes[id]);
    case _ =>
  }

  lemma HoldStable(db: Db, db2: Db, clock: int, x: Txn)
    requires x.cmd.Hold? && HoldOk(db, x) && WritesOk(db, clock, x) && Rely(db, db2, x)
    ensures HoldOk(db2, x)
  {
    if x.pc in {LockVenue, LockUnits, CheckCap, ReadOverlap, LockRows, ClearDead, Insert} {
      MembersStable(db.cfg, db2.cfg, x.venue, x.cmd.asg);
    }
    if x.pc in {LockRows, ClearDead, Insert} {
      OverlapsLockedStable(db, db2, x);
      DeadListedStable(db, db2, x);
    }
    if x.pc in {ClearDead, Insert} {
      OnlyExpiriesStable(db, db2, clock, x);
    }
    if x.pc == Ready {
      AnswerStable(db, db2, clock, x);
    }
  }

  lemma ConfirmStable(db: Db, db2: Db, clock: int, x: Txn)
    requires RowsOk(db, clock)
    requires x.cmd.Confirm? && ConfirmOk(db, x) && Rely(db, db2, x)
    ensures ConfirmOk(db2, x)
  {
    if x.pc in {LockVenue, LockUnits, LockRows, Update} {
      assert RowOk(db.cfg, clock, db.res[x.cmd.id]);
      MembersStable(db.cfg, db2.cfg, x.venue, db.res[x.cmd.id].asg);
      assert Evolves(db.res[x.cmd.id], db2.res[x.cmd.id]);
    }
  }

  lemma StrandsStable(a: Config, b: Config, w: Change, r: Reservation, r2: Reservation)
    requires SameEntry(a, b, w) && SameBooking(r, r2) && (r2.active ==> r.active)
    requires Strands(b, w, r2)
    ensures Strands(a, w, r)
  {
  }

  lemma StrandsOn(a: Config, b: Config, w: Change, r: Reservation, r2: Reservation)
    requires SameEntry(a, b, w) && SameBooking(r, r2) && r2.active
    requires Strands(a, w, r)
    ensures Strands(b, w, r2)
  {
  }

  lemma ListedAreStrandedStable(db: Db, db2: Db, x: Txn, w: Change)
    requires ListedAreStranded(db, x, w) && Rely(db, db2, x) && x.change == Some(w)
    requires forall id :: id in x.writes ==> id in x.rowLocks
    ensures ListedAreStranded(db2, x, w)
  {
    forall id | id in x.todoRows || id in x.rowLocks
      ensures id in db2.res && (db2.res[id].active ==> Strands(db2.cfg, w, db2.res[id]))
    {
      assert Evolves(db.res[id], db2.res[id]);
      if db2.res[id].active { StrandsOn(db.cfg, db2.cfg, w, db.res[id], db2.res[id]); }
    }
  }

  lemma AdmissibleStable(a: Config, b: Config, w: Change)
    requires Admissible(a, w) && SameEntry(a, b, w) && Grows(a, b)
    ensures Admissible(b, w)
  {
  }

  /** Strands reaches only rows of the change's venue, and there nobody rises. */
  lemma StrandedListedStable(db: Db, db2: Db, clock: int, x: Txn, w: Change)
    requires RowsOk(db2, clock) && Rely(db, db2, x) && x.venueLock == Some(Exclusive) && x.change == Some(w)
    requires Admissible(db2.cfg, w) && VenueOf(w) == x.venue
    requires StrandedListed(db, x, w)
    requires forall id :: id in x.writes ==> id in db.res
    ensures StrandedListed(db2, x, w)
  {
    forall id | id in db2.res && Live(View(db2, x, id), x.begin) && Strands(db2.cfg, w, View(db2, x, id))
      ensures x.pc in {LockRows, CancelRows} && (id in x.rowLocks || id in x.todoRows)
    {
      if id in x.writes {
        StrandsStable(db.cfg, db2.cfg, w, x.writes[id], x.writes[id]);
      } else {
        var r2 := db2.res[id];
        assert RowOk(db2.cfg, clock, r2);
        StrandsOwnVenue(db2.cfg, w, r2);
        assert id in db.res;
        StrandsStable(db.cfg, db2.cfg, w, db.res[id], r2);
      }
    }
  }

  lemma AdminStable(db: Db, db2: Db, clock: int, issued: set<Id>, x: Txn)
    requires RowsOk(db2, clock) && LocksOk(db, x) && WritesOk(db, clock, x)
    requires x.cmd.Admin? && AdminOk(db, issued, x) && Rely(db, db2, x)
    ensures AdminOk(db2, issued, x)
  {
    if x.pc !in {LockVenue, Decide} {
      AdmissibleStable(db.cfg, db2.cfg, x.change.value);
      forall id | id in x.writes ensures id in db.res && id in x.rowLocks {
        assert WriteOk(db, clock, x, id, x.writes[id]);
      }
      ListedAreStrandedStable(db, db2, x, x.change.value);
      StrandedListedStable(db, db2, clock, x, x.change.value);
    }
  }

  lemma CommandStable(db: Db, db2: Db, clock: int, issued: set<Id>, x: Txn)
    requires RowsOk(db, clock) && RowsOk(db2, clock) && LocksOk(db, x) && WritesOk(db, clock, x)
    requires CommandOk(db, issued, x) && Rely(db, db2, x)
    ensures CommandOk(db2, issued, x)
  {
    match x.cmd
    case Hold(_, _, _, _, _) => HoldStable(db, db2, clock, x);
    case Confirm(_, _, _) => ConfirmStable(db, db2, clock, x);
    case Admin(_, _) => AdminStable(db, db2, clock, issued, x);
    case PurgeRetained(_, _) =>
    case _ =>
  }

  /** A transaction's invariant survives every commit it can rely on. */
  lemma TxnStable(s: Sys, s2: Sys, x: Txn)
    requires DbOk(s) && DbOk(s2) && TxnOk(s, x) && Rely(s.db, s2.db, x)
    requires s2.clock == s.clock && s2.issued == s.issued && s2.nextEvent == s.nextEvent
    ensures TxnOk(s2, x)
  {
    LocksStable(s.db, s2.db, x);
    WritesStable(s.db, s2.db, s.clock, x);
    EventsStable(s.db, s2.db, s.clock, s.nextEvent, x);
    CommandStable(s.db, s2.db, s.clock, s.issued, x);
  }
}
