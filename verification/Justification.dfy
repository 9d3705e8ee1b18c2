/** A second invariant over every run: what a transaction has written so far is what its command asks of the rows as
    they are committed now. */
module Justification {
  import opened Sorting
  import opened Domain
  import opened Protocol
  import opened Invariants
  import opened Interference
  import opened Steps
  import opened Commits
  import opened Reachability
  import opened Guarantees

  // ----- Rows as commands leave them -----

  /** The row after a status update, written out. */
  function Moved(r: Reservation, st: Status, token: Option<int>, active: bool): Reservation {
    r.(status := st, version := r.version + 1, token := token, active := active)
  }

  predicate Presented(presented: Option<int>, r: Reservation) {
    presented.Some? ==> r.token.Some? && r.token.value == presented.value
  }

  predicate Expected(expected: Option<int>, r: Reservation) {
    expected.Some? ==> r.version == expected.value
  }

  // ----- What a transaction has done by its last statement -----

  /** One row written, with its event if the status changed. */
  predicate WroteOne(x: Txn, id: Id, w: Reservation, noted: bool) {
    x.writes == map[id := w] && x.events.Keys == (if noted then {id} else {})
  }

  ghost predicate ConfirmDone(db: Db, x: Txn)
    requires x.cmd.Confirm?
  {
    var id := x.cmd.id;
    && id in db.res && Presented(x.cmd.presented, db.res[id]) && Expected(x.cmd.expected, db.res[id])
    && db.res[id].status == Held && x.begin < db.res[id].expiresAt
    && WroteOne(x, id, Moved(db.res[id], Confirmed, None, db.res[id].active), true)
  }

  ghost predicate CancelDone(db: Db, x: Txn)
    requires x.cmd.Cancel?
  {
    var id := x.cmd.id;
    && id in db.res && Expected(x.cmd.expected, db.res[id]) && x.cmd.reasonGiven
    && db.res[id].status in {Held, Confirmed, Seated}
    && WroteOne(x, id, Moved(db.res[id], Cancelled, Left(db.res[id]), false), true)
  }

  /** A token goes with the held status. */
  function Left(r: Reservation): Option<int> {
    if r.status == Held then None else r.token
  }

  ghost predicate AdvanceDone(db: Db, x: Txn)
    requires x.cmd.Advance?
  {
    var id := x.cmd.id;
    && id in db.res && Expected(x.cmd.expected, db.res[id]) && db.res[id].status == x.cmd.from
    && WroteOne(x, id, Moved(db.res[id], x.cmd.to, db.res[id].token, db.res[id].active), true)
  }

  ghost predicate MintDone(db: Db, x: Txn)
    requires x.cmd.Mint?
  {
    var id := x.cmd.id;
    && id in db.res && Expected(x.cmd.expected, db.res[id])
    && (db.res[id].token == Some(x.cmd.hash) || (db.res[id].status == Held && x.begin < db.res[id].expiresAt))
    && WroteOne(x, id, Moved(db.res[id], db.res[id].status, Some(x.cmd.hash), db.res[id].active), false)
  }

  ghost predicate SweepDone(db: Db, x: Txn) {
    && x.writes.Keys == x.rowLocks
    && forall id {:trigger id in x.rowLocks} :: id in x.rowLocks ==>
         && id in db.res && db.res[id].status == Held && db.res[id].expiresAt <= x.begin
         && id in x.writes && x.writes[id] == Moved(db.res[id], Expired, None, false)
  }

  ghost predicate PurgeDone(x: Txn)
    requires x.cmd.PurgeRetained?
  {
    forall e :: e in x.purging ==> e in x.cmd.published && x.cmd.published[e] <= x.begin - 7 * DAY
  }

  /** The value given, or else the stored one. */
  predicate Chosen<T(==)>(given: Option<T>, stored: T, v: T) {
    v == match given case Some(g) => g case None => stored
  }

  /** What an edit asks the row it names to become; a new row has an id no row had. */
  ghost predicate Asked(cfg: Config, venue: Id, e: Edit, w: Change) {
    match e
    case CreateUnit(lo, hi) =>
      w.PutUnit? && w.id !in cfg.units && w.unit == Unit(venue, lo, hi, true)
    case UpdateUnit(id, lo, hi, active) =>
      && w.PutUnit? && w.id == id && id in cfg.units && w.unit.venue == cfg.units[id].venue == venue
      && Chosen(lo, cfg.units[id].capMin, w.unit.capMin) && Chosen(hi, cfg.units[id].capMax, w.unit.capMax)
      && Chosen(active, cfg.units[id].active, w.unit.active)
    case CreateCombo(members, lo, hi) =>
      && w.PutCombo? && w.id !in cfg.combos && w.combo.venue == venue && w.combo.active
      && w.combo.capMin == lo && w.combo.capMax == hi
      && |w.combo.members| == |members| && forall m :: m in w.combo.members <==> m in members
    case UpdateCombo(id, active) =>
      && w.PutCombo? && w.id == id && id in cfg.combos && cfg.combos[id].venue == venue
      && w.combo == cfg.combos[id].(active := w.combo.active)
      && Chosen(active, cfg.combos[id].active, w.combo.active)
    case CreateBlackout(during, active) =>
      w.PutBlackout? && w.id !in cfg.blackouts && w.blackout == Blackout(venue, during, active)
    case UpdateBlackout(id, active) =>
      && w.PutBlackout? && w.id == id && id in cfg.blackouts && cfg.blackouts[id].venue == venue
      && w.blackout == cfg.blackouts[id].(active := w.blackout.active)
      && Chosen(active, cfg.blackouts[id].active, w.blackout.active)
  }

  ghost predicate AdminDone(db: Db, x: Txn)
    requires x.cmd.Admin?
  {
    && x.change.Some? && Asked(db.cfg, x.venue, x.cmd.edit, x.change.value)
    && (forall u :: u in GuardLocks(db.cfg, x.change.value) ==> u in x.unitLocks || u in x.todoUnits)
    && (x.pc in {Write, Ready} ==> x.todoUnits == [])
    && (x.cmd.force || (x.pc !in {LockRows, CancelRows, Enqueue} && x.writes == map[]))
    && (forall id {:trigger id in x.writes} :: id in x.writes ==>
          id in db.res && x.writes[id] == Moved(db.res[id], Cancelled, Left(db.res[id]), false))
  }

  ghost predicate HoldDone(db: Db, x: Txn)
    requires x.cmd.Hold?
  {
    forall id {:trigger id in x.writes} :: id in x.writes ==>
      if id in db.res then
        && db.res[id].status == Held && db.res[id].expiresAt <= x.begin
        && x.writes[id] == Moved(db.res[id], Expired, None, false)
      else
        && x.writes[id] == Reservation(x.venue, x.cmd.party, x.cmd.during, x.cmd.asg,
            x.begin + HoldTtl(db.cfg, x.venue), x.cmd.key.actor, Held, 1, None, x.writes[id].rows, true)
  }

  function HoldTtl(cfg: Config, venue: Id): int {
    if venue in cfg.venues then cfg.venues[venue].holdTtl else 0
  }

  /** What a transaction has done so far is what its command asks. */
  ghost predicate Justified(db: Db, x: Txn) {
    match x.cmd
    case Hold(_, _, _, _, _) => HoldDone(db, x)
    case Confirm(_, _, _) => x.pc == Ready ==> ConfirmDone(db, x)
    case Cancel(_, _, _) => x.pc == Ready ==> CancelDone(db, x)
    case Advance(_, _, _, _) => x.pc == Ready ==> AdvanceDone(db, x)
    case Mint(_, _, _) => x.pc == Ready ==> MintDone(db, x)
    case ExpireDue(_) => x.pc in {Enqueue, Ready} ==> SweepDone(db, x)
    case PurgeRetained(_, _) => PurgeDone(x)
    case Admin(_, _) => x.pc !in {LockVenue, Decide} ==> AdminDone(db, x)
  }

  // ----- Kept by every action -----

  lemma AskedStable(a: Config, b: Config, venue: Id, e: Edit, w: Change)
    requires SameEntry(a, b, w) && Asked(a, venue, e, w)
    ensures Asked(b, venue, e, w)
  {
  }

  lemma GuardLocksStable(a: Config, b: Config, w: Change)
    requires SameEntry(a, b, w)
    ensures GuardLocks(b, w) == GuardLocks(a, w)
  {
  }

  ghost predicate WrittenStand(db: Db, db2: Db, x: Txn) {
    forall id {:trigger id in x.writes} :: id in x.writes ==>
      (id in db.res <==> id in db2.res) && (id in db.res ==> db2.res[id] == db.res[id])
  }

  lemma WrittenStandStill(db: Db, db2: Db, clock: int, x: Txn)
    requires WritesOk(db, clock, x) && LockedRowsStand(db, db2, x)
    ensures WrittenStand(db, db2, x)
  {
    forall id | id in x.writes ensures id in x.rowLocks { assert WriteOk(db, clock, x, id, x.writes[id]); }
  }

  lemma AdminDoneStable(db: Db, db2: Db, x: Txn)
    requires x.cmd.Admin? && AdminDone(db, x) && WrittenStand(db, db2, x)
    requires SameEntry(db.cfg, db2.cfg, x.change.value)
    ensures AdminDone(db2, x)
  {
    AskedStable(db.cfg, db2.cfg, x.venue, x.cmd.edit, x.change.value);
    GuardLocksStable(db.cfg, db2.cfg, x.change.value);
    hide Asked, GuardLocks, SameEntry;
  }

  lemma HoldDoneStable(db: Db, db2: Db, x: Txn)
    requires x.cmd.Hold? && HoldDone(db, x) && WrittenStand(db, db2, x)
    requires HoldTtl(db2.cfg, x.venue) == HoldTtl(db.cfg, x.venue)
    ensures HoldDone(db2, x)
  {
    hide HoldTtl;
  }

  lemma SweepDoneStable(db: Db, db2: Db, x: Txn)
    requires SweepDone(db, x) && WrittenStand(db, db2, x)
    ensures SweepDone(db2, x)
  {
    forall id | id in x.rowLocks ensures id in x.writes && id in db2.res && db2.res[id] == db.res[id] {
      assert id in x.writes.Keys;
    }
  }

  /** The commands of one row. */
  predicate OneRow(c: Command) {
    c.Confirm? || c.Cancel? || c.Advance? || c.Mint?
  }

  lemma RowDoneStable(db: Db, db2: Db, x: Txn)
    requires OneRow(x.cmd) && x.pc == Ready && Justified(db, x) && WrittenStand(db, db2, x)
    ensures Justified(db2, x)
  {
    assert x.cmd.id in x.writes && db2.res[x.cmd.id] == db.res[x.cmd.id];
    hide Moved, Left;
  }

  /** Whatever others commit, what was done stays justified: the rows are locked and the row changed is the
      administrator's own. */
  lemma JustifiedStable(db: Db, db2: Db, clock: int, x: Txn)
    requires Justified(db, x) && Rely(db, db2, x) && WritesOk(db, clock, x) && db2.cfg.venues == db.cfg.venues
    ensures Justified(db2, x)
  {
    WrittenStandStill(db, db2, clock, x);
    match x.cmd
    case Hold(_, _, _, _, _) =>
      assert HoldTtl(db2.cfg, x.venue) == HoldTtl(db.cfg, x.venue);
      HoldDoneStable(db, db2, x);
    case Admin(_, _) => if x.pc !in {LockVenue, Decide} { AdminDoneStable(db, db2, x); }
    case ExpireDue(_) => if x.pc in {Enqueue, Ready} { SweepDoneStable(db, db2, x); }
    case PurgeRetained(_, _) =>
    case _ => if x.pc == Ready { RowDoneStable(db, db2, x); }
  }

  lemma UpdateJustifies(db: Db, x: Txn, eventId: nat, y: Txn)
    requires OneRow(x.cmd) && Untouched(x) && UpdateMove(db, x, eventId) == Go(y)
    requires x.cmd.id in db.res ==> db.res[x.cmd.id].active == Occupies(db.res[x.cmd.id].status)
    requires ProperCommand(x.cmd)
    ensures Justified(db, y)
  {
    hide ConfigOk, Fits, Usable, BlackedOut, Found;
    assert map[][x.cmd.id := y.writes[x.cmd.id]] == map[x.cmd.id := y.writes[x.cmd.id]];
  }

  lemma RowStepJustifies(s: Sys, x: Txn, ch: Choice, y: Txn)
    requires RowsOk(s.db, s.clock) && TxnOk(s, x) && OneRow(x.cmd) && x.pc != Ready
    requires Step(s.db, x, ch, s.nextEvent) == Go(y)
    ensures Justified(s.db, y)
  {
    if x.pc == Update {
      if x.cmd.id in s.db.res { assert RowOk(s.db.cfg, s.clock, s.db.res[x.cmd.id]); }
      assert Untouched(x) && ProperCommand(x.cmd);
      UpdateJustifies(s.db, x, s.nextEvent, y);
    } else {
      RowStepsGoOn(s, x, ch, y);
    }
  }

  lemma RowStepsGoOn(s: Sys, x: Txn, ch: Choice, y: Txn)
    requires TxnOk(s, x) && OneRow(x.cmd) && x.pc !in {Ready, Update} && Step(s.db, x, ch, s.nextEvent) == Go(y)
    ensures y.cmd == x.cmd && y.pc != Ready
  {
  }

  lemma SweepMoveIsDone(db: Db, x: Txn, due: set<Id>)
    requires forall id :: id in due ==> id in db.res && Dead(db.res[id], x.begin)
    ensures SweepMove(db, x, due).Go? && SweepDone(db, SweepMove(db, x, due).x)
  {
  }

  lemma EnqueueKeepsSweep(db: Db, x: Txn, eventId: nat, y: Txn)
    requires SweepDone(db, x) && EnqueueMove(x, eventId) == Go(y)
    ensures SweepDone(db, y)
  {
  }

  lemma WorkerPcs(s: Sys, x: Txn)
    requires TxnOk(s, x)
    ensures x.cmd.ExpireDue? ==> x.pc in {Sweep, Enqueue, Ready}
    ensures x.cmd.PurgeRetained? ==> x.pc in {PurgeDue, Ready}
  {
  }

  lemma SweptAreDue(s: Sys, t: Id, ch: Choice)
    requires Enabled(s, Act(t, ch)) && t in s.txns && s.txns[t].pc == Sweep
    ensures forall id :: id in ch.rows ==> id in s.db.res && Dead(s.db.res[id], s.txns[t].begin)
  {
    assert SweepPick(s, t, ch.rows);
    hide Free;
  }

  lemma SweepStepJustifies(s: Sys, t: Id, ch: Choice, y: Txn)
    requires t in s.txns && TxnOk(s, s.txns[t]) && s.txns[t].cmd.ExpireDue? && Justified(s.db, s.txns[t])
    requires Enabled(s, Act(t, ch)) && Step(s.db, s.txns[t], ch, s.nextEvent) == Go(y)
    ensures Justified(s.db, y)
  {
    var x := s.txns[t];
    WorkerPcs(s, x);
    assert x.pc != Ready;
    if x.pc == Sweep { SweptAreDue(s, t, ch); }
    hide TxnOk, Enabled;
    SweepKeepsJustified(s.db, x, ch, s.nextEvent, y);
  }

  lemma SweepKeepsJustified(db: Db, x: Txn, ch: Choice, eventId: nat, y: Txn)
    requires x.cmd.ExpireDue? && x.pc in {Sweep, Enqueue} && Justified(db, x) && Step(db, x, ch, eventId) == Go(y)
    requires x.pc == Sweep ==> forall id :: id in ch.rows ==> id in db.res && Dead(db.res[id], x.begin)
    ensures Justified(db, y)
  {
    hide SweepDone;
    if x.pc == Sweep {
      SweepMoveIsDone(db, x, ch.rows);
    } else {
      EnqueueKeepsSweep(db, x, eventId, y);
    }
  }

  lemma PurgeStepJustifies(s: Sys, t: Id, ch: Choice, y: Txn)
    requires t in s.txns && TxnOk(s, s.txns[t]) && s.txns[t].cmd.PurgeRetained?
    requires Enabled(s, Act(t, ch)) && Step(s.db, s.txns[t], ch, s.nextEvent) == Go(y)
    ensures Justified(s.db, y)
  {
    WorkerPcs(s, s.txns[t]);
    hide TxnOk, KeyDue;
    assert PurgePick(s, t, ch.keys, ch.events);
    hide Enabled;
  }

  // Holds.

  lemma HoldFrame(db: Db, x: Txn, y: Txn)
    requires x.cmd.Hold? && HoldDone(db, x) && y.cmd == x.cmd && y.writes == x.writes && y.begin == x.begin
    requires y.venue == x.venue
    ensures HoldDone(db, y)
  {
  }

  lemma ClearDeadJustifies(db: Db, x: Txn, eventId: nat, y: Txn)
    requires x.cmd.Hold? && HoldDone(db, x) && ClearDeadMove(db, x, eventId) == Go(y)
    ensures HoldDone(db, y)
  {
    hide HoldTtl;
  }

  lemma BookingJustifies(db: Db, x: Txn, freshId: Id, eventId: nat, y: Txn)
    requires x.cmd.Hold? && HoldDone(db, x) && freshId !in db.res && freshId !in x.writes
    requires InsertMove(db, x, freshId, eventId) == Go(y)
    ensures HoldDone(db, y)
  {
    hide Verdict;
  }

  lemma OtherHoldSteps(db: Db, x: Txn, ch: Choice, eventId: nat, y: Txn)
    requires x.cmd.Hold? && x.pc !in {ClearDead, Insert, Sweep, PurgeDue, CancelRows, Enqueue, Update, Peek}
    requires Step(db, x, ch, eventId) == Go(y)
    ensures y.cmd == x.cmd && y.writes == x.writes && y.begin == x.begin && y.venue == x.venue
  {
  }

  lemma HoldPcs(s: Sys, x: Txn)
    requires TxnOk(s, x) && x.cmd.Hold?
    ensures x.pc !in {Sweep, PurgeDue, CancelRows, Enqueue, Update, Peek}
  {
  }

  lemma NothingIssued(s: Sys, x: Txn)
    requires TxnOk(s, x)
    ensures x.writes.Keys <= s.issued
  {
    WritesAreLocked(s, x);
  }

  lemma HoldStepJustifies(s: Sys, x: Txn, ch: Choice, y: Txn)
    requires s.db.res.Keys <= s.issued && TxnOk(s, x) && x.cmd.Hold? && Justified(s.db, x) && ch.freshId !in s.issued
    requires Step(s.db, x, ch, s.nextEvent) == Go(y)
    ensures Justified(s.db, y)
  {
    HoldPcs(s, x);
    NothingIssued(s, x);
    hide TxnOk, HoldDone;
    match x.pc
    case ClearDead => ClearDeadJustifies(s.db, x, s.nextEvent, y);
    case Insert =>
      BookingJustifies(s.db, x, ch.freshId, s.nextEvent, y);
      InsertKeepsCommand(s.db, x, ch.freshId, s.nextEvent, y);
    case _ =>
      OtherHoldSteps(s.db, x, ch, s.nextEvent, y);
      HoldFrame(s.db, x, y);
  }

  lemma InsertKeepsCommand(db: Db, x: Txn, freshId: Id, eventId: nat, y: Txn)
    requires x.cmd.Hold? && InsertMove(db, x, freshId, eventId) == Go(y)
    ensures y.cmd == x.cmd
  {
    hide Verdict;
  }

  // Administrators.

  lemma DecidedIsAsked(cfg: Config, venue: Id, e: Edit, freshId: Id)
    requires freshId !in cfg.units && freshId !in cfg.combos && freshId !in cfg.blackouts
    requires ChangeOf(cfg, venue, e, freshId).Some?
    ensures Asked(cfg, venue, e, ChangeOf(cfg, venue, e, freshId).value)
  {
    if e.CreateCombo? {
      var ids := Elements(e.members);
      assert forall m :: m in InOrder(ids) <==> m in Elements(InOrder(ids));
    }
  }

  lemma DecideJustifies(s: Sys, x: Txn, freshId: Id, y: Txn)
    requires ConfigIssued(s.db.cfg, s.issued) && freshId !in s.issued && Untouched(x)
    requires x.cmd.Admin? && x.pc == Decide && DecideMove(s.db, x, freshId) == Go(y)
    ensures AdminDone(s.db, y) && y.cmd == x.cmd
  {
    DecideShape(s.db, x, freshId, y);
    DecideForces(s.db, x, freshId, y);
    DecidedIsAsked(s.db.cfg, x.venue, x.cmd.edit, freshId);
    DoneSoFar(s.db, x, y, y.change.value);
  }

  lemma DoneSoFar(db: Db, x: Txn, y: Txn, w: Change)
    requires x.cmd.Admin? && y.cmd == x.cmd && y.venue == x.venue && Untouched(x) && y.writes == x.writes
    requires y.change == Some(w) && Asked(db.cfg, x.venue, x.cmd.edit, w) && y.todoUnits == GuardLocks(db.cfg, w)
    requires y.pc in {LockRows, LockUnits} && (y.pc == LockRows ==> x.cmd.force)
    ensures AdminDone(db, y)
  {
    hide Asked, GuardLocks;
  }

  lemma DecideForces(db: Db, x: Txn, freshId: Id, y: Txn)
    requires x.cmd.Admin? && DecideMove(db, x, freshId) == Go(y)
    ensures y.pc == LockRows ==> x.cmd.force
    ensures y.pc in {LockRows, LockUnits} && y.writes == x.writes && y.cmd == x.cmd
  {
    hide ChangeOf, StrandedSet;
  }

  lemma CancelRowsJustifies(db: Db, x: Txn, y: Txn)
    requires x.cmd.Admin? && x.pc == CancelRows && AdminDone(db, x) && CancelRowsMove(db, x) == Go(y)
    ensures AdminDone(db, y) && y.cmd == x.cmd
  {
    hide Asked, GuardLocks;
  }

  lemma LockUnitsJustifies(db: Db, x: Txn, y: Txn)
    requires x.cmd.Admin? && AdminDone(db, x) && LockUnitsMove(x) == Go(y)
    ensures AdminDone(db, y) && y.cmd == x.cmd
  {
    hide Asked, GuardLocks;
    if x.todoUnits != [] { assert x.todoUnits == [x.todoUnits[0]] + x.todoUnits[1..]; }
  }

  lemma OtherAdminSteps(db: Db, x: Txn, ch: Choice, eventId: nat, y: Txn)
    requires x.cmd.Admin? && x.pc in {LockRows, Enqueue, Write} && AdminDone(db, x)
    requires Step(db, x, ch, eventId) == Go(y)
    ensures AdminDone(db, y) && y.cmd == x.cmd
  {
    hide Asked, GuardLocks, GuardRefuses;
  }

  lemma AdminPcs(s: Sys, x: Txn)
    requires TxnOk(s, x) && x.cmd.Admin?
    ensures x.pc in {LockVenue, Decide, LockRows, CancelRows, Enqueue, LockUnits, Write, Ready}
    ensures x.pc == Decide ==> Untouched(x)
  {
  }

  lemma AdminStepJustifies(s: Sys, x: Txn, ch: Choice, y: Txn)
    requires ConfigIssued(s.db.cfg, s.issued) && TxnOk(s, x) && x.cmd.Admin? && Justified(s.db, x)
    requires ch.freshId !in s.issued && Step(s.db, x, ch, s.nextEvent) == Go(y)
    ensures Justified(s.db, y)
  {
    AdminPcs(s, x);
    hide TxnOk, AdminDone;
    match x.pc
    case LockVenue =>
    case Decide => DecideJustifies(s, x, ch.freshId, y);
    case CancelRows => CancelRowsJustifies(s.db, x, y);
    case LockUnits => LockUnitsJustifies(s.db, x, y);
    case Ready =>
    case _ => OtherAdminSteps(s.db, x, ch, s.nextEvent, y);
  }

  // ----- In every reachable state -----

  ghost predicate AllJustified(s: Sys) {
    forall t :: t in s.txns ==> Justified(s.db, s.txns[t])
  }

  lemma StepJustifies(s: Sys, t: Id, ch: Choice, y: Txn)
    requires Inv(s) && t in s.txns && Justified(s.db, s.txns[t])
    requires Enabled(s, Act(t, ch)) && Step(s.db, s.txns[t], ch, s.nextEvent) == Go(y)
    ensures Justified(s.db, y)
  {
    var x := s.txns[t];
    assert TxnOk(s, x) && DbOk(s);
    assert x.pc != Ready && ch.freshId !in s.issued;
    hide Inv, TxnOk, Justified, Step, RowsOk, NoOverlap, TrailsOk, IdemOk, WellFormed, ConfigIssued;
    match x.cmd
    case Hold(_, _, _, _, _) => HoldStepJustifies(s, x, ch, y);
    case ExpireDue(_) => SweepStepJustifies(s, t, ch, y);
    case PurgeRetained(_, _) => PurgeStepJustifies(s, t, ch, y);
    case Admin(_, _) => AdminStepJustifies(s, x, ch, y);
    case _ => RowStepJustifies(s, x, ch, y);
  }

  lemma OpenedIsJustified(db: Db, now: int, venue: Id, cmd: Command)
    ensures Justified(db, Opened(now, venue, cmd))
  {
  }

  lemma BothAreOk(s: Sys, t: Id, o: Id)
    requires Inv(s) && t in s.txns && o in s.txns && o != t
    ensures DbOk(s) && TxnOk(s, s.txns[t]) && TxnOk(s, s.txns[o]) && Compatible(s.txns[t], s.txns[o])
    ensures WritesOk(s.db, s.clock, s.txns[o])
  {
    hide DbOk, Compatible;
  }

  lemma CommitKeepsVenues(db: Db, x: Txn)
    ensures CommitDb(db, x).cfg.venues == db.cfg.venues
  {
  }

  lemma CommitKeepsJustified(s: Sys, t: Id, o: Id)
    requires Inv(s) && t in s.txns && s.txns[t].pc == Ready && o in s.txns && o != t && Justified(s.db, s.txns[o])
    ensures Justified(CommitDb(s.db, s.txns[t]), s.txns[o])
  {
    BothAreOk(s, t, o);
    hide Inv, TxnOk, Compatible, WritesOk, Justified, DbOk, CommitDb, Rely;
    CommitAllowsFor(s, s.txns[t], s.txns[o]);
    CommitKeepsVenues(s.db, s.txns[t]);
    JustifiedStable(s.db, CommitDb(s.db, s.txns[t]), s.clock, s.txns[o]);
  }

  lemma ActionKeepsJustified(s: Sys, a: Action)
    requires Inv(s) && AllJustified(s) && Enabled(s, a)
    ensures AllJustified(Apply(s, a))
  {
    hide Inv, Justified, Step, CommitDb, Enabled;
    match a
    case Tick(_) =>
    case Begin(t, venue, cmd) => OpenedIsJustified(s.db, s.clock, venue, cmd);
    case Act(t, ch) =>
      assert t in s.txns by { ActIsOfOne(s, t, ch); }
      match Step(s.db, s.txns[t], ch, s.nextEvent) { case Go(y) => StepJustifies(s, t, ch, y); case End(_) => }
    case Commit(t) =>
      CommitIsOfOne(s, t);
      forall o | o in s.txns && o != t ensures Justified(CommitDb(s.db, s.txns[t]), s.txns[o]) {
        CommitKeepsJustified(s, t, o);
      }
    case Abort(_) =>
  }

  lemma ActIsOfOne(s: Sys, t: Id, ch: Choice)
    requires Enabled(s, Act(t, ch))
    ensures t in s.txns
  {
  }

  lemma CommitIsOfOne(s: Sys, t: Id)
    requires Enabled(s, Commit(t))
    ensures t in s.txns && s.txns[t].pc == Ready
  {
  }

  lemma {:induction false} RunKeepsJustified(s: Sys, acts: seq<Action>)
    requires Inv(s) && AllJustified(s) && Executable(s, acts)
    ensures AllJustified(Run(s, acts))
    decreases |acts|
  {
    hide Inv, AllJustified, Enabled, Apply;
    if acts != [] {
      ActionKeepsJustified(s, acts[0]);
      ActionKeeps(s, acts[0]);
      RunKeepsJustified(Apply(s, acts[0]), acts[1..]);
    }
  }

  lemma ReachableIsJustified(s: Sys)
    requires Reachable(s)
    ensures AllJustified(s)
  {
    var s0, acts :| Init(s0) && Executable(s0, acts) && s == Run(s0, acts);
    InitKeeps(s0);
    RunKeepsJustified(s0, acts);
  }
}
