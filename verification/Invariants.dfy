/** What every reachable state of the protocol keeps: of the committed rows, of each transaction at each of its
    statements, and of any two transactions together. */
module Invariants {
  import opened Sorting
  import opened Domain
  import opened Protocol

  // ----- Committed state -----

  /** The events of one reservation form a path of the state table that ends at its stored status, with increasing
      ids and versions. */
  ghost predicate IsTrail(es: seq<Event>, r: Reservation) {
    && |es| > 0
    && es[0].status == Held
    && es[|es| - 1].status == r.status
    && es[|es| - 1].version <= r.version
    && (forall i :: 0 <= i < |es| - 1 ==> CanTransition(es[i].status, es[i + 1].status))
    && (forall i, j :: 0 <= i < j < |es| ==> es[i].id < es[j].id && es[i].version < es[j].version)
  }

  ghost predicate RowOk(cfg: Config, clock: int, r: Reservation) {
    && Found(cfg, r.venue, r.asg)
    && r.rows == Elements(Members(cfg, r.asg)) && r.rows != {}
    && SHORTEST <= r.during.end - r.during.start <= LONGEST
    && r.active == Occupies(r.status)
    && (Live(r, clock) ==> ConfigOk(cfg, r))
    && (r.status == Expired ==> r.expiresAt <= clock)
  }

  ghost predicate RowsOk(db: Db, clock: int) {
    forall id {:trigger RowOk(db.cfg, clock, db.res[id])} :: id in db.res ==> RowOk(db.cfg, clock, db.res[id])
  }

  /** Two reservations may share a unit only at disjoint times while both hold it. */
  ghost predicate Apart(a: Reservation, b: Reservation) {
    a.active && b.active && !(a.rows !! b.rows) ==> !Overlaps(a.during, b.during)
  }

  ghost predicate NoOverlap(res: map<Id, Reservation>) {
    forall i, j {:trigger Apart(res[i], res[j])} :: i in res && j in res && i != j ==> Apart(res[i], res[j])
  }

  ghost predicate TrailsOk(db: Db, nextEvent: nat) {
    && db.trail.Keys == db.res.Keys
    && (forall id {:trigger IsTrail(db.trail[id], db.res[id])} :: id in db.res ==> IsTrail(db.trail[id], db.res[id]))
    && (forall id, i {:trigger db.trail[id][i]} :: id in db.trail && 0 <= i < |db.trail[id]| ==>
          db.trail[id][i].id < nextEvent)
  }

  /** Every committed idempotency row has its outcome, and that outcome is all the key has booked. */
  ghost predicate IdemOk(db: Db) {
    && (forall k :: k !in db.idem ==> BookedUnder(db, k) == {})
    && (forall k :: k in db.idem ==>
          match db.idem[k].response
          case None => false
          case Some(Refused(c)) => c in STORED_OUTCOMES && BookedUnder(db, k) == {}
          case Some(Granted(id)) =>
            && BookedUnder(db, k) == {id}
            && id in db.res && db.res[id].venue == k.venue && db.res[id].createdBy == k.actor)
  }

  ghost predicate ConfigIssued(cfg: Config, issued: set<Id>) {
    && cfg.units.Keys <= issued && cfg.combos.Keys <= issued && cfg.blackouts.Keys <= issued
  }

  ghost predicate DbOk(s: Sys) {
    && WellFormed(s.db.cfg)
    && ConfigIssued(s.db.cfg, s.issued)
    && s.db.res.Keys <= s.issued
    && RowsOk(s.db, s.clock)
    && NoOverlap(s.db.res)
    && TrailsOk(s.db, s.nextEvent)
    && IdemOk(s.db)
  }

  // ----- One transaction -----

  ghost predicate StatusChanged(db: Db, id: Id, w: Reservation) {
    id !in db.res || db.res[id].status != w.status
  }

  /** A write that can make a reservation live: an insert, or a confirmation, which an earlier clock may allow after a
      later one judged the hold dead. */
  ghost predicate GoesLive(db: Db, id: Id, w: Reservation) {
    id !in db.res || (db.res[id].status == Held && w.status == Confirmed)
  }

  ghost predicate WriteOk(db: Db, clock: int, x: Txn, id: Id, w: Reservation) {
    && id in x.rowLocks
    && w.active == Occupies(w.status)
    && (w.status == Expired ==> w.expiresAt <= clock)
    && (id in db.res ==>
          && SameBooking(db.res[id], w)
          && db.res[id].version < w.version
          && (db.res[id].status == w.status || CanTransition(db.res[id].status, w.status)))
    && (id !in db.res ==>
          && x.made == Some(id) && w.status == Held
          && w.rows == Elements(Members(db.cfg, w.asg)) && w.rows != {}
          && SHORTEST <= w.during.end - w.during.start <= LONGEST)
    && (GoesLive(db, id, w) ==> x.venueLock == Some(Shared) && w.venue == x.venue && ConfigOk(db.cfg, w))
  }

  ghost predicate WritesOk(db: Db, clock: int, x: Txn) {
    forall id {:trigger WriteOk(db, clock, x, id, x.writes[id])} :: id in x.writes ==>
        WriteOk(db, clock, x, id, x.writes[id])
  }

  /** Each status change is written with one event, whose id lies after those of the reservation so far. */
  ghost predicate EventsOk(db: Db, nextEvent: nat, x: Txn) {
    && x.todoEvents <= x.writes.Keys
    && (forall id :: id in x.events ==>
          && id in x.writes && id !in x.todoEvents
          && StatusChanged(db, id, x.writes[id])
          && x.events[id].status == x.writes[id].status && x.events[id].version == x.writes[id].version
          && x.events[id].id < nextEvent
          && forall i :: 0 <= i < |TrailOf(db, id)| ==> TrailOf(db, id)[i].id < x.events[id].id)
    && (forall id :: id in x.todoEvents ==> StatusChanged(db, id, x.writes[id]))
    && (forall id :: id in x.writes && StatusChanged(db, id, x.writes[id]) ==> id in x.events || id in x.todoEvents)
    && (x.pc == Ready ==> x.todoEvents == {})
  }

  ghost predicate LocksOk(db: Db, x: Txn) {
    && (x.unitLocks != {} ==> x.venueLock.Some?)
    && (forall u :: u in x.unitLocks || u in x.todoUnits ==> u in db.cfg.units && db.cfg.units[u].venue == x.venue)
    && StrictlySorted(x.todoUnits) && StrictlySorted(x.todoRows)
    && (forall u, i :: u in x.unitLocks && 0 <= i < |x.todoUnits| ==> u < x.todoUnits[i])
    && (forall r, i :: r in x.rowLocks && 0 <= i < |x.todoRows| ==> r < x.todoRows[i])
    && (forall r :: r in x.rowLocks ==> r in db.res || x.made == Some(r))
    && (x.venueLock == Some(Exclusive) <==> x.cmd.Admin? && x.pc != LockVenue)
    && (x.pc == LockVenue ==> x.venueLock == None && x.rowLocks == {})
    && (x.pc == LockUnits ==> x.venueLock.Some? && (x.cmd.Admin? || x.rowLocks == {}))
  }

  /** Nothing is read, locked or written yet beyond what the hold's phase says. */
  ghost predicate Untouched(x: Txn) {
    x.writes == map[] && x.events == map[] && x.todoEvents == {}
  }

  ghost predicate HoldOk(db: Db, x: Txn)
    requires x.cmd.Hold?
  {
    && x.cmd.key.venue == x.venue
    && x.change == None && x.purging == {} && x.todoEvents == {}
    && x.keys == (if x.pc in {Claim, ReadExisting} then {} else {x.cmd.key})
    && (x.keys != {} ==> x.cmd.key !in db.idem)
    && x.pc in {Claim, ReadExisting, Resolve, LockVenue, LockUnits, CheckCap, ReadOverlap, LockRows, ClearDead,
        Insert, Ready}
    && (x.pc in {Claim, ReadExisting, Resolve} ==> x.venueLock == None && x.unitLocks == {} && x.todoUnits == [])
    && (x.pc in {Claim, ReadExisting, Resolve, LockVenue, LockUnits, CheckCap, ReadOverlap} ==>
          Untouched(x) && x.rowLocks == {} && x.todoRows == [] && x.toExpire == [])
    && (x.pc in {LockVenue, LockUnits, CheckCap, ReadOverlap, LockRows, ClearDead, Insert} ==>
          && Found(db.cfg, x.venue, x.cmd.asg)
          && x.unitLocks + Elements(x.todoUnits) == Elements(Members(db.cfg, x.cmd.asg)))
    && (x.pc in {LockUnits, CheckCap, ReadOverlap, LockRows, ClearDead, Insert} ==> x.venueLock == Some(Shared))
    && (x.pc in {CheckCap, ReadOverlap, LockRows, ClearDead, Insert} ==> x.todoUnits == [])
    && (x.pc in {LockRows, ClearDead, Insert} ==> OverlapsLocked(db, x))
    && (x.pc == LockRows ==> Untouched(x))
    && (x.pc in {LockRows, ClearDead, Insert} ==> DeadListed(db, x))
    && (x.pc in {ClearDead, Insert} ==> x.todoRows == [])
    && (x.pc in {ClearDead, Insert} ==> OnlyExpiries(db, x))
    && (x.pc == Insert ==> x.toExpire == [])
    && (x.pc != Ready ==> x.response == None && x.made == None)
    && (x.pc == Ready ==> AnswerOk(db, x))
  }

  /** Every active row in the way belongs to a reservation the hold has locked or is about to lock. */
  ghost predicate OverlapsLocked(db: Db, x: Txn)
    requires x.cmd.Hold?
  {
    forall id :: id in db.res && db.res[id].active && !(db.res[id].rows !! x.unitLocks)
                 && Overlaps(db.res[id].during, x.cmd.during)
      ==> id in x.rowLocks || id in x.todoRows
  }

  /** All the hold has written so far is the expiry of dead holds. */
  ghost predicate OnlyExpiries(db: Db, x: Txn) {
    forall id {:trigger id in x.writes} :: id in x.writes ==>
      id in db.res && Dead(db.res[id], x.begin) && x.writes[id].status == Expired
  }

  /** A locked row that is still a dead hold in the transaction's view is on the list to expire. */
  ghost predicate DeadListed(db: Db, x: Txn) {
    && (forall id :: id in x.rowLocks ==> id in db.res && (Dead(View(db, x, id), x.begin) ==> id in x.toExpire))
    && (forall id :: id in x.toExpire ==> id in x.rowLocks)
  }

  ghost predicate AnswerOk(db: Db, x: Txn)
    requires x.cmd.Hold?
  {
    match x.response
    case None => false
    case Some(Refused(c)) => c in STORED_OUTCOMES && x.made == None
    case Some(Granted(id)) => x.made == Some(id) && id in x.writes && id !in db.res && BookedOk(db, x, id, x.writes[id])
  }

  /** The uncommitted booking: its units are locked and nothing active in the view overlaps it. */
  ghost predicate BookedOk(db: Db, x: Txn, id: Id, w: Reservation)
    requires x.cmd.Hold?
  {
    && w.rows == x.unitLocks && w.venue == x.cmd.key.venue && w.createdBy == x.cmd.key.actor
    && forall o :: o in db.res ==> Apart(View(db, x, o), w)
  }

  ghost predicate ConfirmOk(db: Db, x: Txn)
    requires x.cmd.Confirm?
  {
    && x.pc in {Peek, LockVenue, LockUnits, LockRows, Update, Ready}
    && Idle(x)
    && (x.pc == Peek ==> x.venueLock == None && x.unitLocks == {} && x.todoUnits == [])
    && (x.pc != Ready ==> Untouched(x))
    && (x.pc in {LockUnits, LockRows, Update, Ready} ==> x.venueLock == Some(Shared))
    && (x.pc in {LockRows, Update} ==> x.todoUnits == [])
    && (x.pc in {Peek, LockVenue, LockUnits} ==> x.todoRows == [x.cmd.id] && x.rowLocks == {})
    && (x.pc == LockRows ==> x.todoRows == [x.cmd.id] || (x.todoRows == [] && x.cmd.id in x.rowLocks))
    && (x.pc == Update ==> x.todoRows == [] && x.cmd.id in x.rowLocks)
    && (x.pc in {LockVenue, LockUnits, LockRows, Update} ==>
          && x.cmd.id in db.res && db.res[x.cmd.id].venue == x.venue
          && x.unitLocks + Elements(x.todoUnits) == Elements(Members(db.cfg, db.res[x.cmd.id].asg)))
  }

  /** The parts of a transaction only other commands use. */
  ghost predicate Idle(x: Txn) {
    x.keys == {} && x.response == None && x.made == None && x.change == None && x.purging == {} && x.toExpire == []
  }

  /** `cancel`, `seat`, `complete` and the token mint: one row lock, then one write. */
  ghost predicate SingleOk(x: Txn)
    requires x.cmd.Cancel? || x.cmd.Advance? || x.cmd.Mint?
  {
    && x.pc in {LockRows, Update, Ready}
    && Idle(x) && x.venueLock == None && x.unitLocks == {} && x.todoUnits == [] && x.todoEvents == {}
    && (x.pc != Ready ==> Untouched(x))
    && (x.pc == LockRows ==>
          (x.todoRows == [x.cmd.id] && x.rowLocks == {}) || (x.todoRows == [] && x.cmd.id in x.rowLocks))
    && (x.pc == Update ==> x.todoRows == [] && x.cmd.id in x.rowLocks)
  }

  ghost predicate SweepOk(x: Txn) {
    && x.pc in {Sweep, Enqueue, Ready}
    && Idle(x) && x.venueLock == None && x.unitLocks == {} && x.todoUnits == [] && x.todoRows == []
    && (x.pc == Sweep ==> Untouched(x) && x.rowLocks == {})
  }

  ghost predicate PurgeOk(db: Db, x: Txn) {
    && x.pc in {PurgeDue, Ready}
    && x.venueLock == None && x.unitLocks == {} && x.rowLocks == {} && x.todoUnits == [] && x.todoRows == []
    && Untouched(x) && x.response == None && x.made == None && x.change == None && x.toExpire == []
    && (forall k :: k in x.keys ==> k in db.idem && db.idem[k].purgeAt <= x.begin)
    && (x.pc == PurgeDue ==> x.keys == {})
  }

  /** In the transaction's view the change strands nobody but the reservations it has yet to lock and cancel. */
  ghost predicate StrandedListed(db: Db, x: Txn, w: Change) {
    forall id :: id in db.res && Live(View(db, x, id), x.begin) && Strands(db.cfg, w, View(db, x, id)) ==>
      x.pc in {LockRows, CancelRows} && (id in x.rowLocks || id in x.todoRows)
  }

  /** Every row on the list is stranded as long as it occupies its units, and what is written is the cancellation of a
      live one. */
  ghost predicate ListedAreStranded(db: Db, x: Txn, w: Change) {
    && (forall id {:trigger id in x.rowLocks} {:trigger id in x.todoRows} :: id in x.todoRows || id in x.rowLocks ==>
          id in db.res && (db.res[id].active ==> Strands(db.cfg, w, db.res[id])))
    && (forall id :: id in x.writes ==> id in db.res && Live(db.res[id], x.begin) && x.writes[id].status == Cancelled)
  }

  ghost predicate AdminOk(db: Db, issued: set<Id>, x: Txn) {
    && x.pc in {LockVenue, Decide, LockRows, CancelRows, Enqueue, LockUnits, Write, Ready}
    && x.keys == {} && x.response == None && x.made == None && x.purging == {} && x.toExpire == []
    && (x.pc in {LockVenue, Decide} ==>
          Untouched(x) && x.rowLocks == {} && x.unitLocks == {} && x.todoUnits == [] && x.todoRows == []
              && x.change == None)
    && (x.pc !in {LockVenue, Decide} ==>
          && x.change.Some?
          && Admissible(db.cfg, x.change.value) && VenueOf(x.change.value) == x.venue
          && x.change.value.id in issued
          && StrandedListed(db, x, x.change.value)
          && ListedAreStranded(db, x, x.change.value))
    && (x.pc in {LockRows, CancelRows} ==> Untouched(x))
    && (x.pc !in {LockVenue, Decide, LockRows} ==> x.todoRows == [])
    && (x.pc in {LockRows, CancelRows, Enqueue} ==> x.unitLocks == {})
    && (x.pc in {LockUnits, Write} ==> x.todoEvents == {})
  }

  ghost predicate CommandOk(db: Db, issued: set<Id>, x: Txn) {
    match x.cmd
    case Hold(_, _, _, _, _) => HoldOk(db, x)
    case Confirm(_, _, _) => ConfirmOk(db, x)
    case Cancel(_, _, _) => SingleOk(x)
    case Advance(_, _, _, _) => SingleOk(x)
    case Mint(_, _, _) => SingleOk(x)
    case ExpireDue(_) => SweepOk(x)
    case PurgeRetained(_, _) => PurgeOk(db, x)
    case Admin(_, _) => AdminOk(db, issued, x)
  }

  ghost predicate TxnOk(s: Sys, x: Txn) {
    && x.begin <= s.clock
    && ProperCommand(x.cmd)
    && x.rowLocks <= s.issued
    && LocksOk(s.db, x)
    && WritesOk(s.db, s.clock, x)
    && EventsOk(s.db, s.nextEvent, x)
    && CommandOk(s.db, s.issued, x)
  }

  // ----- Two transactions -----

  /** The two changes are of one and the same row. */
  ghost predicate SameRow(a: Change, b: Change) {
    a.id == b.id && a.PutUnit? == b.PutUnit? && a.PutCombo? == b.PutCombo?
  }

  ghost predicate Compatible(x: Txn, y: Txn) {
    && x.keys !! y.keys
    && x.unitLocks !! y.unitLocks
    && x.rowLocks !! y.rowLocks
    && (x.venueLock.Some? && y.venueLock.Some? && x.venue == y.venue ==> x.venueLock == y.venueLock == Some(Shared))
    && (x.change.Some? && y.change.Some? ==> !SameRow(x.change.value, y.change.value))
  }

  ghost predicate PairsOk(s: Sys) {
    forall t, o :: t in s.txns && o in s.txns && t != o ==> Compatible(s.txns[t], s.txns[o])
  }

  ghost predicate Inv(s: Sys) {
    && DbOk(s)
    && (forall t :: t in s.txns ==> TxnOk(s, s.txns[t]))
    && PairsOk(s)
  }
}
