/** One statement keeps the invariants of the transaction that runs it. */
module Steps {
  import opened Sorting
  import opened Domain
  import opened Protocol
  import opened Invariants

  /** The committed state stands still while time passes and ids are drawn. */
  ghost predicate Later(s: Sys, s2: Sys) {
    s2.db == s.db && s.clock <= s2.clock && s.issued <= s2.issued && s.nextEvent <= s2.nextEvent
  }

  ghost predicate Drawn(s: Sys, s2: Sys, ch: Choice) {
    && s2.db == s.db && s2.clock == s.clock && s2.issued == s.issued + {ch.freshId} && s2.nextEvent == s.nextEvent + 1
    && ch.freshId !in s.issued
  }

  lemma LaterKeepsTxn(s: Sys, s2: Sys, x: Txn)
    requires TxnOk(s, x) && Later(s, s2)
    ensures TxnOk(s2, x)
  {
    forall id | id in x.writes ensures WriteOk(s2.db, s2.clock, x, id, x.writes[id]) {
      assert WriteOk(s.db, s.clock, x, id, x.writes[id]);
    }
  }

  lemma LaterKeepsDb(s: Sys, s2: Sys)
    requires DbOk(s) && Later(s, s2)
    ensures DbOk(s2)
  {
    forall id | id in s2.db.res ensures RowOk(s2.db.cfg, s2.clock, s2.db.res[id]) {
      assert RowOk(s.db.cfg, s.clock, s.db.res[id]);
    }
  }

  // ----- Frames -----

  /** A statement that writes no row keeps what is known of the rows written so far. */
  lemma SameWrites(s: Sys, s2: Sys, x: Txn, y: Txn)
    requires WritesOk(s.db, s.clock, x) && EventsOk(s.db, s.nextEvent, x) && Later(s, s2)
    requires y.writes == x.writes && y.events == x.events && y.todoEvents == x.todoEvents && y.made == x.made
    requires x.rowLocks <= y.rowLocks && y.venue == x.venue && (x.venueLock.Some? ==> y.venueLock == x.venueLock)
    requires y.pc == Ready ==> y.todoEvents == {}
    ensures WritesOk(s2.db, s2.clock, y) && EventsOk(s2.db, s2.nextEvent, y)
  {
    forall id | id in y.writes ensures WriteOk(s2.db, s2.clock, y, id, y.writes[id]) {
      assert WriteOk(s.db, s.clock, x, id, x.writes[id]);
    }
  }

  lemma SameLocks(db: Db, x: Txn, y: Txn)
    requires LocksOk(db, x) && x.pc != LockVenue && y.pc !in {LockVenue, LockUnits}
    requires y.cmd == x.cmd && y.venue == x.venue && y.unitLocks == x.unitLocks && y.venueLock == x.venueLock
    requires y.todoUnits == x.todoUnits && y.todoRows == x.todoRows
    requires (y.rowLocks == x.rowLocks && y.made == x.made)
             || (y.made.Some? && y.rowLocks == x.rowLocks + {y.made.value} && x.made == None && x.todoRows == [])
    ensures LocksOk(db, y)
  {
  }

  lemma TakeFirst(taken: set<Id>, todo: seq<Id>)
    requires todo != [] && StrictlySorted(todo)
    requires forall u, i :: u in taken && 0 <= i < |todo| ==> u < todo[i]
    ensures taken + {todo[0]} + Elements(todo[1..]) == taken + Elements(todo)
    ensures StrictlySorted(todo[1..])
    ensures forall u, i :: u in taken + {todo[0]} && 0 <= i < |todo[1..]| ==> u < todo[1..][i]
    ensures forall u :: u in todo <==> u == todo[0] || u in todo[1..]
  {
    assert todo == [todo[0]] + todo[1..];
  }

  // ----- Reads and lock steps -----

  lemma KeepsClaim(s: Sys, s2: Sys, x: Txn, ch: Choice)
    requires DbOk(s) && TxnOk(s, x) && Drawn(s, s2, ch)
    requires x.pc == Claim && x.cmd.Hold?
    ensures TxnOk(s2, ClaimMove(s.db, x).x)
  {
  }

  lemma KeepsResolve(s: Sys, s2: Sys, x: Txn, ch: Choice)
    requires DbOk(s) && TxnOk(s, x) && Drawn(s, s2, ch)
    requires x.pc == Resolve && x.cmd.Hold?
    ensures ResolveMove(s.db, x).Go? ==> TxnOk(s2, ResolveMove(s.db, x).x)
  {
  }

  lemma KeepsLockVenue(s: Sys, s2: Sys, x: Txn, ch: Choice)
    requires DbOk(s) && TxnOk(s, x) && Drawn(s, s2, ch)
    requires x.pc == LockVenue
    ensures TxnOk(s2, LockVenueMove(x).x)
  {
  }

  lemma UnitLockOrder(db: Db, x: Txn)
    requires LocksOk(db, x) && x.pc == LockUnits
    ensures LocksOk(db, LockUnitsMove(x).x)
  {
    if x.todoUnits != [] { TakeFirst(x.unitLocks, x.todoUnits); }
  }

  lemma UnitLockInCommand(db: Db, issued: set<Id>, x: Txn)
    requires LocksOk(db, x) && CommandOk(db, issued, x) && x.pc == LockUnits
    ensures CommandOk(db, issued, LockUnitsMove(x).x)
  {
    if x.todoUnits != [] { TakeFirst(x.unitLocks, x.todoUnits); }
    match x.cmd
    case Hold(_, _, _, _, _) =>
    case Confirm(_, _, _) =>
    case Admin(_, _) =>
    case _ =>
  }

  lemma KeepsLockUnits(s: Sys, s2: Sys, x: Txn, ch: Choice)
    requires DbOk(s) && TxnOk(s, x) && Drawn(s, s2, ch)
    requires x.pc == LockUnits
    ensures TxnOk(s2, LockUnitsMove(x).x)
  {
    LaterKeepsTxn(s, s2, x);
    SameWrites(s, s2, x, LockUnitsMove(x).x);
    UnitLockOrder(s2.db, x);
    UnitLockInCommand(s2.db, s2.issued, x);
  }

  lemma PeekInCommand(db: Db, x: Txn)
    requires x.pc == Peek && x.cmd.Confirm? && ConfirmOk(db, x) && PeekMove(db, x).Go?
    ensures ConfirmOk(db, PeekMove(db, x).x)
  {
  }

  lemma PeekLockOrder(db: Db, x: Txn)
    requires WellFormed(db.cfg) && LocksOk(db, x)
    requires x.pc == Peek && x.cmd.Confirm? && ConfirmOk(db, x) && PeekMove(db, x).Go?
    ensures LocksOk(db, PeekMove(db, x).x)
  {
  }

  lemma KeepsPeek(s: Sys, s2: Sys, x: Txn, ch: Choice)
    requires DbOk(s) && TxnOk(s, x) && Drawn(s, s2, ch)
    requires x.pc == Peek && x.cmd.Confirm?
    ensures PeekMove(s.db, x).Go? ==> TxnOk(s2, PeekMove(s.db, x).x)
  {
    LaterKeepsTxn(s, s2, x);
    if PeekMove(s.db, x).Go? {
      SameWrites(s, s2, x, PeekMove(s.db, x).x);
      PeekLockOrder(s2.db, x);
      PeekInCommand(s2.db, x);
    }
  }

  lemma KeepsCheckCap(s: Sys, s2: Sys, x: Txn, ch: Choice)
    requires DbOk(s) && TxnOk(s, x) && Drawn(s, s2, ch)
    requires x.pc == CheckCap && x.cmd.Hold?
    ensures CheckCapMove(s.db, x).Go? ==> TxnOk(s2, CheckCapMove(s.db, x).x)
  {
  }

  lemma ReadOverlapInCommand(db: Db, x: Txn)
    requires forall id :: id in db.res && !(db.res[id].rows !! x.unitLocks) ==> db.res[id].venue == x.venue
    requires x.pc == ReadOverlap && x.cmd.Hold? && HoldOk(db, x) && ReadOverlapMove(db, x).Go?
    ensures HoldOk(db, ReadOverlapMove(db, x).x)
  {
    var y := ReadOverlapMove(db, x).x;
    var found := OverlapSet(db, x.venue, x.unitLocks, x.cmd.during);
    forall id | id in found ensures id in y.todoRows { assert id in Elements(y.todoRows); }
  }

  /** Units are booked only by reservations of their own venue. */
  lemma SharedUnitsShareVenue(s: Sys, x: Txn, id: Id)
    requires DbOk(s) && LocksOk(s.db, x) && id in s.db.res && !(s.db.res[id].rows !! x.unitLocks)
    ensures s.db.res[id].venue == x.venue
  {
    var r := s.db.res[id];
    assert RowOk(s.db.cfg, s.clock, r);
    var u :| u in r.rows && u in x.unitLocks;
    assert u in Members(s.db.cfg, r.asg);
  }

  lemma KeepsReadOverlap(s: Sys, s2: Sys, x: Txn, ch: Choice)
    requires DbOk(s) && TxnOk(s, x) && Drawn(s, s2, ch)
    requires x.pc == ReadOverlap && x.cmd.Hold?
    ensures ReadOverlapMove(s.db, x).Go? ==> TxnOk(s2, ReadOverlapMove(s.db, x).x)
  {
    LaterKeepsTxn(s, s2, x);
    if ReadOverlapMove(s.db, x).Go? {
      SameWrites(s, s2, x, ReadOverlapMove(s.db, x).x);
      forall id | id in s2.db.res && !(s2.db.res[id].rows !! x.unitLocks) ensures s2.db.res[id].venue == x.venue {
        SharedUnitsShareVenue(s, x, id);
      }
      ReadOverlapInCommand(s2.db, x);
    }
  }

  lemma RowLockOrder(db: Db, x: Txn)
    requires LocksOk(db, x) && x.pc == LockRows && LockRowsMove(db, x).Go?
    requires x.cmd.Hold? || x.cmd.Admin? || x.cmd.Confirm? || x.venueLock == None
    ensures LocksOk(db, LockRowsMove(db, x).x)
  {
    if x.todoRows != [] { TakeFirst(x.rowLocks, x.todoRows); }
  }

  lemma RowLockInCommand(db: Db, issued: set<Id>, x: Txn)
    requires LocksOk(db, x) && CommandOk(db, issued, x) && x.pc == LockRows && LockRowsMove(db, x).Go?
    ensures CommandOk(db, issued, LockRowsMove(db, x).x)
  {
    if x.todoRows != [] { TakeFirst(x.rowLocks, x.todoRows); }
    match x.cmd
    case Hold(_, _, _, _, _) =>
    case Admin(_, _) =>
    case _ =>
  }

  lemma KeepsLockRows(s: Sys, s2: Sys, x: Txn, ch: Choice)
    requires DbOk(s) && TxnOk(s, x) && Drawn(s, s2, ch)
    requires x.pc == LockRows
    ensures LockRowsMove(s.db, x).Go? ==> TxnOk(s2, LockRowsMove(s.db, x).x)
  {
    LaterKeepsTxn(s, s2, x);
    if LockRowsMove(s.db, x).Go? {
      SameWrites(s, s2, x, LockRowsMove(s.db, x).x);
      RowLockOrder(s2.db, x);
      RowLockInCommand(s2.db, s2.issued, x);
    }
  }

  // ----- Writes -----

  /** The first write of a row by a transaction, with its event. */
  lemma WriteOne(db: Db, clock: int, x: Txn, y: Txn, id: Id, w: Reservation, eventId: nat)
    requires WritesOk(db, clock, x) && EventsOk(db, eventId, x)
    requires id !in x.writes
    requires y.writes == x.writes[id := w] && y.events == x.events[id := Event(eventId, w.status, w.version)]
    requires y.todoEvents == x.todoEvents && x.rowLocks <= y.rowLocks && y.venueLock == x.venueLock
        && y.venue == x.venue
    requires y.pc == Ready ==> x.todoEvents == {}
    requires y.made == x.made || (x.made == None && y.made == Some(id) && forall o :: o in x.writes ==> o in db.res)
    requires WriteOk(db, clock, y, id, w) && StatusChanged(db, id, w)
    requires forall i :: 0 <= i < |TrailOf(db, id)| ==> TrailOf(db, id)[i].id < eventId
    ensures WritesOk(db, clock, y) && EventsOk(db, eventId + 1, y)
  {
    forall o | o in y.writes ensures WriteOk(db, clock, y, o, y.writes[o]) {
      if o != id { assert WriteOk(db, clock, x, o, x.writes[o]); }
    }
  }

  lemma ExpiryOk(s: Sys, x: Txn, id: Id)
    requires RowsOk(s.db, s.clock) && x.begin <= s.clock && id in x.rowLocks && id in s.db.res
        && Dead(s.db.res[id], x.begin)
    ensures WriteOk(s.db, s.clock, x, id, WithStatus(s.db.res[id], Expired))
    ensures StatusChanged(s.db, id, WithStatus(s.db.res[id], Expired))
  {
    assert RowOk(s.db.cfg, s.clock, s.db.res[id]);
  }

  lemma EventsLieBehind(s: Sys, id: Id)
    requires TrailsOk(s.db, s.nextEvent)
    ensures forall i :: 0 <= i < |TrailOf(s.db, id)| ==> TrailOf(s.db, id)[i].id < s.nextEvent
  {
  }

  lemma SkippedInCommand(db: Db, x: Txn)
    requires x.pc == ClearDead && x.cmd.Hold? && HoldOk(db, x) && x.toExpire != []
    requires !Dead(View(db, x, x.toExpire[0]), x.begin)
    ensures HoldOk(db, Next(x))
  {
    assert x.toExpire == [x.toExpire[0]] + x.toExpire[1..];
  }

  lemma ExpiredIsListed(db: Db, x: Txn, y: Txn, id: Id)
    requires DeadListed(db, x) && OnlyExpiries(db, x) && x.toExpire != [] && id == x.toExpire[0] && id in db.res
    requires Dead(db.res[id], x.begin)
    requires y.rowLocks == x.rowLocks && y.toExpire == x.toExpire[1..] && y.begin == x.begin
    requires y.writes == x.writes[id := WithStatus(db.res[id], Expired)]
    ensures DeadListed(db, y) && OnlyExpiries(db, y)
  {
    assert x.toExpire == [x.toExpire[0]] + x.toExpire[1..];
  }

  lemma ExpiredInCommand(db: Db, x: Txn, id: Id, eventId: nat)
    requires x.pc == ClearDead && x.cmd.Hold? && HoldOk(db, x) && x.toExpire != [] && id == x.toExpire[0]
        && id in db.res
    requires Dead(db.res[id], x.begin)
    ensures HoldOk(db, Written(Next(x), id, WithStatus(db.res[id], Expired), eventId))
  {
    ExpiredIsListed(db, x, Written(Next(x), id, WithStatus(db.res[id], Expired), eventId), id);
  }

  lemma KeepsSkip(s: Sys, s2: Sys, x: Txn)
    requires TxnOk(s, x) && Later(s, s2)
    requires x.pc == ClearDead && x.cmd.Hold? && x.toExpire != [] && !Dead(View(s.db, x, x.toExpire[0]), x.begin)
    ensures TxnOk(s2, Next(x))
  {
    SkippedInCommand(s.db, x);
    SameLocks(s.db, x, Next(x));
    SameWrites(s, s2, x, Next(x));
  }

  lemma KeepsExpiry(s: Sys, s2: Sys, x: Txn, id: Id)
    requires RowsOk(s.db, s.clock) && TrailsOk(s.db, s.nextEvent)
    requires TxnOk(s, x) && Later(s, s2) && s.clock == s2.clock && s2.nextEvent == s.nextEvent + 1
    requires x.pc == ClearDead && x.cmd.Hold? && x.toExpire != [] && id == x.toExpire[0]
    requires id !in x.writes && id in s.db.res && Dead(s.db.res[id], x.begin)
    ensures TxnOk(s2, Written(Next(x), id, WithStatus(s.db.res[id], Expired), s.nextEvent))
  {
    var y := Written(Next(x), id, WithStatus(s.db.res[id], Expired), s.nextEvent);
    ExpiredInCommand(s.db, x, id, s.nextEvent);
    SameLocks(s.db, x, y);
    ExpiryOk(s, y, id);
    EventsLieBehind(s, id);
    WriteOne(s.db, s.clock, x, y, id, WithStatus(s.db.res[id], Expired), s.nextEvent);
  }

  lemma KeepsCleared(s: Sys, s2: Sys, x: Txn)
    requires TxnOk(s, x) && Later(s, s2) && x.pc == ClearDead && x.cmd.Hold? && x.toExpire == []
    ensures TxnOk(s2, x.(pc := Insert))
  {
    hide LocksOk, WritesOk, EventsOk;
    SameLocks(s.db, x, x.(pc := Insert));
    SameWrites(s, s2, x, x.(pc := Insert));
  }

  lemma KeepsClearDead(s: Sys, s2: Sys, x: Txn, ch: Choice, y: Txn)
    requires RowsOk(s.db, s.clock) && TrailsOk(s.db, s.nextEvent) && TxnOk(s, x) && Drawn(s, s2, ch)
    requires x.pc == ClearDead && x.cmd.Hold?
    requires ClearDeadMove(s.db, x, s.nextEvent) == Go(y)
    ensures TxnOk(s2, y)
  {
    if x.toExpire == [] {
      KeepsCleared(s, s2, x);
    } else {
      var id := x.toExpire[0];
      assert id in x.rowLocks && id in s.db.res;
      if Dead(View(s.db, x, id), x.begin) { KeepsExpiry(s, s2, x, id); } else { KeepsSkip(s, s2, x); }
    }
  }

  /** The guards that let the booking through are those a live reservation must satisfy. */
  lemma VerdictMeans(db: Db, x: Txn)
    requires x.cmd.Hold? && Verdict(db, x).None?
    ensures ConfigOk(db.cfg, Booking(db, x))
    ensures SHORTEST <= x.cmd.during.end - x.cmd.during.start <= LONGEST
    ensures !Excluded(db, x, x.unitLocks, x.cmd.during)
  {
  }

  lemma BookingStandsApart(db: Db, x: Txn, y: Txn)
    requires x.cmd.Hold? && !Excluded(db, x, x.unitLocks, x.cmd.during)
    requires forall o :: o in db.res ==> View(db, y, o) == View(db, x, o)
    ensures forall o :: o in db.res ==> Apart(View(db, y, o), Booking(db, x))
  {
  }

  lemma BookedInCommand(db: Db, x: Txn, freshId: Id, eventId: nat)
    requires x.pc == Insert && x.cmd.Hold? && HoldOk(db, x)
    requires !Excluded(db, x, x.unitLocks, x.cmd.during)
    requires freshId !in db.res
    ensures HoldOk(db, Booked(db, x, freshId, eventId))
  {
    BookingStandsApart(db, x, Booked(db, x, freshId, eventId));
  }

  lemma BookingOk(db: Db, clock: int, x: Txn, id: Id, eventId: nat)
    requires x.pc == Insert && x.cmd.Hold? && HoldOk(db, x) && id !in db.res && WellFormed(db.cfg)
    requires ConfigOk(db.cfg, Booking(db, x)) && SHORTEST <= x.cmd.during.end - x.cmd.during.start <= LONGEST
    ensures WriteOk(db, clock, Booked(db, x, id, eventId), id, Booking(db, x))
  {
    assert Elements(x.todoUnits) == {};
    assert Members(db.cfg, x.cmd.asg)[0] in Booking(db, x).rows;
  }

  lemma BookedWrites(s: Sys, x: Txn, id: Id)
    requires x.cmd.Hold? && id !in s.db.res && x.made == None && x.todoEvents == {}
    requires forall o :: o in x.writes ==> o in s.db.res
    requires WritesOk(s.db, s.clock, x) && EventsOk(s.db, s.nextEvent, x) && TrailsOk(s.db, s.nextEvent)
    requires WriteOk(s.db, s.clock, Booked(s.db, x, id, s.nextEvent), id, Booking(s.db, x))
    ensures WritesOk(s.db, s.clock, Booked(s.db, x, id, s.nextEvent))
    ensures EventsOk(s.db, s.nextEvent + 1, Booked(s.db, x, id, s.nextEvent))
  {
    EventsLieBehind(s, id);
    WriteOne(s.db, s.clock, x, Booked(s.db, x, id, s.nextEvent), id, Booking(s.db, x), s.nextEvent);
  }

  lemma KeepsBooking(s: Sys, s2: Sys, x: Txn, ch: Choice)
    requires WellFormed(s.db.cfg) && TrailsOk(s.db, s.nextEvent) && s.db.res.Keys <= s.issued
    requires TxnOk(s, x) && Drawn(s, s2, ch)
    requires x.pc == Insert && x.cmd.Hold? && ConfigOk(s.db.cfg, Booking(s.db, x))
    requires SHORTEST <= x.cmd.during.end - x.cmd.during.start <= LONGEST
    requires !Excluded(s.db, x, x.unitLocks, x.cmd.during)
    ensures TxnOk(s2, Booked(s.db, x, ch.freshId, s.nextEvent))
  {
    var y := Booked(s.db, x, ch.freshId, s.nextEvent);
    BookedInCommand(s.db, x, ch.freshId, s.nextEvent);
    SameLocks(s.db, x, y);
    BookingOk(s.db, s.clock, x, ch.freshId, s.nextEvent);
    BookedWrites(s, x, ch.freshId);
  }

  lemma KeepsAnswer(s: Sys, s2: Sys, x: Txn, c: Code)
    requires TxnOk(s, x) && Later(s, s2)
    requires x.pc == Insert && x.cmd.Hold? && c in STORED_OUTCOMES
    ensures TxnOk(s2, Answer(x, c))
  {
    SameLocks(s2.db, x, Answer(x, c));
    SameWrites(s, s2, x, Answer(x, c));
  }

  lemma KeepsInsert(s: Sys, s2: Sys, x: Txn, ch: Choice, y: Txn)
    requires WellFormed(s.db.cfg) && TrailsOk(s.db, s.nextEvent) && s.db.res.Keys <= s.issued
    requires TxnOk(s, x) && Drawn(s, s2, ch)
    requires x.pc == Insert && x.cmd.Hold?
    requires InsertMove(s.db, x, ch.freshId, s.nextEvent) == Go(y)
    ensures TxnOk(s2, y)
  {
    match Verdict(s.db, x)
    case None => VerdictMeans(s.db, x); KeepsBooking(s, s2, x, ch);
    case Some(c) => KeepsAnswer(s, s2, x, c);
  }

  /** The single status write of `confirm`, `cancel`, `seat` and `complete`. */
  lemma StatusWrites(s: Sys, x: Txn, y: Txn, id: Id, st: Status)
    requires TrailsOk(s.db, s.nextEvent) && Untouched(x) && id in x.rowLocks && id in s.db.res
    requires CanTransition(s.db.res[id].status, st) && st != Expired
        && s.db.res[id].active == Occupies(s.db.res[id].status)
    requires y == Written(x, id, WithStatus(s.db.res[id], st), s.nextEvent).(pc := Ready)
    requires st == Confirmed ==>
      x.venueLock == Some(Shared) && s.db.res[id].venue == x.venue && ConfigOk(s.db.cfg, s.db.res[id])
    ensures WritesOk(s.db, s.clock, y) && EventsOk(s.db, s.nextEvent + 1, y)
  {
    EventsLieBehind(s, id);
    WriteOne(s.db, s.clock, x, y, id, WithStatus(s.db.res[id], st), s.nextEvent);
  }

  lemma ConfirmWrites(s: Sys, x: Txn, y: Txn)
    requires RowsOk(s.db, s.clock) && TrailsOk(s.db, s.nextEvent)
    requires x.pc == Update && x.cmd.Confirm? && ConfirmOk(s.db, x)
    requires ConfirmMove(s.db, x, s.nextEvent) == Go(y) && s.db.res[x.cmd.id].venue == x.venue
    ensures WritesOk(s.db, s.clock, y) && EventsOk(s.db, s.nextEvent + 1, y)
    ensures y == x.(pc := Ready, writes := y.writes, events := y.events)
  {
    assert RowOk(s.db.cfg, s.clock, s.db.res[x.cmd.id]);
    StatusWrites(s, x, y, x.cmd.id, Confirmed);
  }

  lemma MintWrites(db: Db, clock: int, x: Txn, y: Txn, eventId: nat)
    requires Untouched(x) && x.cmd.Mint? && x.cmd.id in x.rowLocks
    requires x.cmd.id in db.res ==> RowOk(db.cfg, clock, db.res[x.cmd.id])
    requires MintMove(db, x) == Go(y)
    ensures WritesOk(db, clock, y) && EventsOk(db, eventId, y)
  {
  }

  /** A command's last statement: the locks and the command's own bookkeeping after its single row write. */
  lemma LastInCommand(db: Db, issued: set<Id>, x: Txn, y: Txn)
    requires CommandOk(db, issued, x) && x.pc == Update && x.todoEvents == {}
    requires y == x.(pc := Ready, writes := y.writes, events := y.events)
    requires x.cmd.Confirm? || x.cmd.Cancel? || x.cmd.Advance? || x.cmd.Mint?
    ensures CommandOk(db, issued, y)
  {
  }

  lemma KeepsLast(s: Sys, s2: Sys, x: Txn, y: Txn)
    requires TxnOk(s, x) && Later(s, s2) && x.pc == Update
    requires y == x.(pc := Ready, writes := y.writes, events := y.events)
    requires WritesOk(s2.db, s2.clock, y) && EventsOk(s2.db, s2.nextEvent, y)
    requires x.cmd.Confirm? || x.cmd.Cancel? || x.cmd.Advance? || x.cmd.Mint?
    ensures TxnOk(s2, y)
  {
    SameLocks(s2.db, x, y);
    LastInCommand(s.db, s.issued, x, y);
  }

  lemma KeepsUpdate(s: Sys, s2: Sys, x: Txn, ch: Choice, y: Txn)
    requires RowsOk(s.db, s.clock) && TrailsOk(s.db, s.nextEvent) && TxnOk(s, x) && Drawn(s, s2, ch)
    requires x.pc == Update
    requires UpdateMove(s.db, x, s.nextEvent) == Go(y)
    ensures TxnOk(s2, y)
  {
    hide ConfigOk, LocksOk, WritesOk, EventsOk, TrailsOk, Found;
    match x.cmd
    case Confirm(id, _, _) =>
      ConfirmWrites(s, x, y);
      KeepsLast(s, s2, x, y);
    case Cancel(id, _, _) =>
      assert RowOk(s.db.cfg, s.clock, s.db.res[id]);
      StatusWrites(s, x, y, id, Cancelled);
      KeepsLast(s, s2, x, y);
    case Advance(id, _, _, to) =>
      assert RowOk(s.db.cfg, s.clock, s.db.res[id]);
      StatusWrites(s, x, y, id, to);
      KeepsLast(s, s2, x, y);
    case Mint(id, _, _) =>
      assert RowOk(s.db.cfg, s.clock, s.db.res[id]);
      MintWrites(s.db, s.clock, x, y, s2.nextEvent);
      KeepsLast(s, s2, x, y);
    case _ =>
  }

  lemma SweepWrites(s: Sys, x: Txn, due: set<Id>)
    requires RowsOk(s.db, s.clock) && Untouched(x) && x.begin <= s.clock
    requires forall id :: id in due ==> id in s.db.res && Dead(s.db.res[id], x.begin)
    ensures WritesOk(s.db, s.clock, SweepMove(s.db, x, due).x) && EventsOk(s.db, s.nextEvent, SweepMove(s.db, x, due).x)
  {
    var y := SweepMove(s.db, x, due).x;
    forall id | id in y.writes ensures WriteOk(s.db, s.clock, y, id, y.writes[id]) {
      ExpiryOk(s, y, id);
    }
  }

  lemma KeepsSweep(s: Sys, s2: Sys, x: Txn, ch: Choice)
    requires RowsOk(s.db, s.clock) && s.db.res.Keys <= s.issued && TxnOk(s, x) && Drawn(s, s2, ch)
    requires x.pc == Sweep && x.cmd.ExpireDue?
    requires forall id :: id in ch.rows ==> id in s.db.res && Dead(s.db.res[id], x.begin)
    ensures TxnOk(s2, SweepMove(s.db, x, ch.rows).x)
  {
    SweepWrites(s, x, ch.rows);
    SweepWrites(s2, x, ch.rows);
  }

  lemma KeepsPurge(s: Sys, s2: Sys, x: Txn, ch: Choice)
    requires DbOk(s) && TxnOk(s, x) && Drawn(s, s2, ch)
    requires x.pc == PurgeDue && x.cmd.PurgeRetained?
    requires forall k :: k in ch.keys ==> k in s.db.idem && s.db.idem[k].purgeAt <= x.begin
    ensures TxnOk(s2, PurgeMove(x, ch.keys, ch.events).x)
  {
  }

  lemma EnqueueOne(db: Db, x: Txn, y: Txn, id: Id, eventId: nat)
    requires EventsOk(db, eventId, x) && id in x.todoEvents && x.pc != Ready && y.pc != Ready
    requires forall i :: 0 <= i < |TrailOf(db, id)| ==> TrailOf(db, id)[i].id < eventId
    requires y.writes == x.writes && y.todoEvents == x.todoEvents - {id}
    requires y.events == x.events[id := Event(eventId, x.writes[id].status, x.writes[id].version)]
    ensures EventsOk(db, eventId + 1, y)
  {
  }

  lemma EnqueueEvents(s: Sys, x: Txn, y: Txn)
    requires TrailsOk(s.db, s.nextEvent) && EventsOk(s.db, s.nextEvent, x)
    requires x.pc == Enqueue && EnqueueMove(x, s.nextEvent) == Go(y) && x.todoEvents != {}
    ensures EventsOk(s.db, s.nextEvent + 1, y)
  {
    var id := InOrder(x.todoEvents)[0];
    assert id in Elements(InOrder(x.todoEvents));
    EventsLieBehind(s, id);
    EnqueueOne(s.db, x, y, id, s.nextEvent);
  }

  lemma EnqueueWrites(db: Db, clock: int, x: Txn, y: Txn)
    requires WritesOk(db, clock, x)
    requires y.writes == x.writes && y.rowLocks == x.rowLocks && y.made == x.made && y.venue == x.venue
        && y.venueLock == x.venueLock
    ensures WritesOk(db, clock, y)
  {
    forall o | o in y.writes ensures WriteOk(db, clock, y, o, y.writes[o]) {
      assert WriteOk(db, clock, x, o, x.writes[o]);
    }
  }

  lemma EnqueueInAdmin(db: Db, issued: set<Id>, x: Txn, eventId: nat)
    requires x.pc == Enqueue && x.cmd.Admin? && AdminOk(db, issued, x) && EnqueueMove(x, eventId).Go?
    ensures AdminOk(db, issued, EnqueueMove(x, eventId).x)
  {
    var y := EnqueueMove(x, eventId).x;
    forall id | id in db.res && Live(View(db, y, id), y.begin)
      ensures !Strands(db.cfg, x.change.value, View(db, y, id))
    {
      assert View(db, y, id) == View(db, x, id);
    }
  }

  lemma EnqueueInCommand(db: Db, issued: set<Id>, x: Txn, eventId: nat)
    requires x.pc == Enqueue && CommandOk(db, issued, x) && EnqueueMove(x, eventId).Go?
    ensures CommandOk(db, issued, EnqueueMove(x, eventId).x)
  {
    match x.cmd
    case Admin(_, _) => EnqueueInAdmin(db, issued, x, eventId);
    case _ =>
  }

  lemma EnqueueLockOrder(db: Db, issued: set<Id>, x: Txn, eventId: nat)
    requires x.pc == Enqueue && LocksOk(db, x) && CommandOk(db, issued, x) && EnqueueMove(x, eventId).Go?
    ensures LocksOk(db, EnqueueMove(x, eventId).x)
  {
  }

  lemma KeepsEnqueue(s: Sys, s2: Sys, x: Txn, ch: Choice)
    requires DbOk(s) && TxnOk(s, x) && Drawn(s, s2, ch)
    requires x.pc == Enqueue
    ensures EnqueueMove(x, s.nextEvent).Go? ==> TxnOk(s2, EnqueueMove(x, s.nextEvent).x)
  {
    LaterKeepsTxn(s, s2, x);
    if EnqueueMove(x, s.nextEvent).Go? {
      var y := EnqueueMove(x, s.nextEvent).x;
      EnqueueInCommand(s2.db, s2.issued, x, s.nextEvent);
      EnqueueLockOrder(s2.db, s2.issued, x, s.nextEvent);
      if x.todoEvents == {} { SameWrites(s, s2, x, y); } else { EnqueueEvents(s, x, y);
      EnqueueWrites(s2.db, s2.clock, x, y); }
    }
  }

  // ----- Admin writes -----

  lemma EditIsAdmissible(cfg: Config, venue: Id, e: Edit, freshId: Id)
    requires WellFormed(cfg) && freshId !in cfg.units && freshId !in cfg.combos && freshId !in cfg.blackouts
    requires ChangeOf(cfg, venue, e, freshId).Some?
    ensures Admissible(cfg, ChangeOf(cfg, venue, e, freshId).value)
    ensures VenueOf(ChangeOf(cfg, venue, e, freshId).value) == venue
    ensures var id := ChangeOf(cfg, venue, e, freshId).value.id;
            id == freshId || id in cfg.units || id in cfg.combos || id in cfg.blackouts
  {
    if e.CreateCombo? {
      var ids := Elements(e.members);
      assert forall m :: m in InOrder(ids) ==> m in Elements(InOrder(ids));
    }
  }

  lemma GuardLocksOk(cfg: Config, w: Change)
    requires WellFormed(cfg) && Admissible(cfg, w)
    ensures StrictlySorted(GuardLocks(cfg, w))
    ensures forall u :: u in GuardLocks(cfg, w) ==> u in cfg.units && cfg.units[u].venue == VenueOf(w)
  {
  }

  lemma DecideLists(s: Sys, x: Txn, y: Txn, freshId: Id)
    requires WellFormed(s.db.cfg) && ConfigIssued(s.db.cfg, s.issued) && RowsOk(s.db, s.clock)
    requires freshId !in s.issued && Untouched(x) && x.rowLocks == {}
    requires x.pc == Decide && x.cmd.Admin? && DecideMove(s.db, x, freshId) == Go(y)
    ensures StrandedListed(s.db, y, y.change.value)
  {
    var w := y.change.value;
    EditIsAdmissible(s.db.cfg, x.venue, x.cmd.edit, freshId);
    forall id | id in s.db.res && Live(View(s.db, y, id), y.begin) && Strands(s.db.cfg, w, View(s.db, y, id))
      ensures y.pc == LockRows && id in y.todoRows
    {
      assert RowOk(s.db.cfg, s.clock, s.db.res[id]);
      StrandsOwnVenue(s.db.cfg, w, s.db.res[id]);
      assert id in StrandedSet(s.db, x, w);
      assert id in Elements(y.todoRows);
    }
  }

  lemma DecideListsStranded(db: Db, x: Txn, y: Txn, freshId: Id)
    requires x.pc == Decide && x.cmd.Admin? && Untouched(x) && x.rowLocks == {} && x.todoRows == []
    requires DecideMove(db, x, freshId) == Go(y)
    ensures ListedAreStranded(db, y, y.change.value)
  {
    var stranded := StrandedSet(db, x, y.change.value);
    forall id | id in y.todoRows ensures id in stranded { assert id in Elements(y.todoRows); }
  }

  lemma DecideLockOrder(db: Db, x: Txn, y: Txn, freshId: Id)
    requires LocksOk(db, x) && x.rowLocks == {} && x.unitLocks == {} && x.todoRows == [] && x.pc == Decide
        && x.cmd.Admin?
    requires DecideMove(db, x, freshId) == Go(y)
    requires StrictlySorted(y.todoUnits)
    requires forall u :: u in y.todoUnits ==> u in db.cfg.units && db.cfg.units[u].venue == x.venue
    ensures LocksOk(db, y)
  {
  }

  lemma DecideShape(db: Db, x: Txn, freshId: Id, y: Txn)
    requires x.pc == Decide && x.cmd.Admin? && DecideMove(db, x, freshId) == Go(y)
    ensures y.pc in {LockRows, LockUnits} && y.change == ChangeOf(db.cfg, x.venue, x.cmd.edit, freshId)
        && y.change.Some?
    ensures y == x.(pc := y.pc, change := y.change, todoUnits := GuardLocks(db.cfg, y.change.value),
        todoRows := y.todoRows)
    ensures y.pc == LockUnits ==> y.todoRows == x.todoRows
  {
  }

  lemma DecidedInCommand(db: Db, issued: set<Id>, x: Txn, y: Txn, w: Change)
    requires x.cmd.Admin? && AdminOk(db, issued, x) && x.pc == Decide
    requires y == x.(pc := y.pc, change := Some(w), todoUnits := y.todoUnits, todoRows := y.todoRows)
    requires y.pc in {LockRows, LockUnits} && (y.pc == LockUnits ==> y.todoRows == [])
    requires Admissible(db.cfg, w) && VenueOf(w) == x.venue && w.id in issued
    requires StrandedListed(db, y, w) && ListedAreStranded(db, y, w)
    ensures AdminOk(db, issued, y)
  {
  }

  lemma DecideFacts(s: Sys, x: Txn, freshId: Id, y: Txn, w: Change)
    requires WellFormed(s.db.cfg) && ConfigIssued(s.db.cfg, s.issued) && RowsOk(s.db, s.clock)
    requires LocksOk(s.db, x) && freshId !in s.issued
    requires Untouched(x) && x.rowLocks == {} && x.unitLocks == {} && x.todoRows == []
    requires x.pc == Decide && x.cmd.Admin? && DecideMove(s.db, x, freshId) == Go(y) && y.change == Some(w)
    ensures LocksOk(s.db, y)
    ensures Admissible(s.db.cfg, w) && VenueOf(w) == x.venue && w.id in s.issued + {freshId}
    ensures StrandedListed(s.db, y, w) && ListedAreStranded(s.db, y, w)
  {
    DecideShape(s.db, x, freshId, y);
    EditIsAdmissible(s.db.cfg, x.venue, x.cmd.edit, freshId);
    GuardLocksOk(s.db.cfg, w);
    DecideLists(s, x, y, freshId);
    DecideListsStranded(s.db, x, y, freshId);
    DecideLockOrder(s.db, x, y, freshId);
  }

  lemma KeepsDecided(s: Sys, s2: Sys, x: Txn, y: Txn, w: Change)
    requires TxnOk(s, x) && Later(s, s2) && x.pc == Decide && x.cmd.Admin?
    requires y == x.(pc := y.pc, change := Some(w), todoUnits := y.todoUnits, todoRows := y.todoRows)
    requires y.pc in {LockRows, LockUnits} && (y.pc == LockUnits ==> y.todoRows == [])
    requires LocksOk(s.db, y)
    requires Admissible(s.db.cfg, w) && VenueOf(w) == x.venue && w.id in s2.issued
    requires StrandedListed(s.db, y, w) && ListedAreStranded(s.db, y, w)
    ensures TxnOk(s2, y)
  {
    LaterKeepsTxn(s, s2, x);
    SameWrites(s, s2, x, y);
    DecidedInCommand(s2.db, s2.issued, x, y, w);
  }

  lemma KeepsDecide(s: Sys, s2: Sys, x: Txn, ch: Choice, y: Txn)
    requires WellFormed(s.db.cfg) && ConfigIssued(s.db.cfg, s.issued) && RowsOk(s.db, s.clock)
    requires TxnOk(s, x) && Drawn(s, s2, ch)
    requires x.pc == Decide && x.cmd.Admin? && DecideMove(s.db, x, ch.freshId) == Go(y)
    ensures TxnOk(s2, y)
  {
    DecideShape(s.db, x, ch.freshId, y);
    DecideFacts(s, x, ch.freshId, y, y.change.value);
    KeepsDecided(s, s2, x, y, y.change.value);
  }

  lemma CancelRowsWrites(s: Sys, x: Txn, y: Txn)
    requires DbOk(s) && x.pc == CancelRows && Untouched(x) && CancelRowsMove(s.db, x) == Go(y)
    ensures WritesOk(s.db, s.clock, y) && EventsOk(s.db, s.nextEvent, y)
  {
    forall id | id in y.writes ensures WriteOk(s.db, s.clock, y, id, y.writes[id]) {
      assert RowOk(s.db.cfg, s.clock, s.db.res[id]);
    }
  }

  lemma CancelRowsInCommand(db: Db, issued: set<Id>, x: Txn)
    requires x.pc == CancelRows && x.cmd.Admin? && AdminOk(db, issued, x)
    ensures AdminOk(db, issued, CancelRowsMove(db, x).x)
  {
    var y := CancelRowsMove(db, x).x;
    forall id | id in db.res && Live(View(db, y, id), y.begin)
      ensures !Strands(db.cfg, x.change.value, View(db, y, id))
    {
      assert Live(View(db, x, id), x.begin);
    }
  }

  lemma KeepsCancelRows(s: Sys, s2: Sys, x: Txn, ch: Choice)
    requires DbOk(s) && TxnOk(s, x) && Drawn(s, s2, ch)
    requires x.pc == CancelRows
    ensures TxnOk(s2, CancelRowsMove(s.db, x).x)
  {
    LaterKeepsTxn(s, s2, x);
    var y := CancelRowsMove(s.db, x).x;
    SameLocks(s.db, x, y);
    CancelRowsInCommand(s2.db, s2.issued, x);
    CancelRowsWrites(s, x, y);
  }

  lemma KeepsWrite(s: Sys, s2: Sys, x: Txn, ch: Choice)
    requires DbOk(s) && TxnOk(s, x) && Drawn(s, s2, ch)
    requires x.pc == Write
    ensures WriteMove(s.db, x).Go? ==> TxnOk(s2, WriteMove(s.db, x).x)
  {
    hide WritesOk, DbOk, Admissible;
    if WriteMove(s.db, x).Go? { SameWrites(s, s2, x, WriteMove(s.db, x).x); }
  }
}
