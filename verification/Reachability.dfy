/** The invariant holds in every reachable state: in the empty book, and after every enabled action. */
module Reachability {
  import opened Sorting
  import opened Domain
  import opened Protocol
  import opened Invariants
  import opened Steps
  import opened Commits
  import opened Interference

  lemma InitKeeps(s: Sys)
    requires Init(s)
    ensures Inv(s)
  {
  }

  // ----- A statement and its own transaction -----

  predicate HoldPc(pc: PC) {
    pc in {Claim, ReadExisting, Resolve, CheckCap, ReadOverlap, ClearDead, Insert}
  }

  lemma HoldActKeepsTxn(s: Sys, s2: Sys, x: Txn, ch: Choice, y: Txn)
    requires DbOk(s) && TxnOk(s, x) && Drawn(s, s2, ch) && HoldPc(x.pc)
    requires Step(s.db, x, ch, s.nextEvent) == Go(y)
    ensures TxnOk(s2, y)
  {
    assert x.cmd.Hold?;
    hide TxnOk;
    match x.pc
    case Claim => KeepsClaim(s, s2, x, ch);
    case Resolve => KeepsResolve(s, s2, x, ch);
    case CheckCap => KeepsCheckCap(s, s2, x, ch);
    case ReadOverlap => KeepsReadOverlap(s, s2, x, ch);
    case ClearDead => KeepsClearDead(s, s2, x, ch, y);
    case Insert => KeepsInsert(s, s2, x, ch, y);
    case _ =>
  }

  lemma LockActKeepsTxn(s: Sys, s2: Sys, x: Txn, ch: Choice, y: Txn)
    requires DbOk(s) && TxnOk(s, x) && Drawn(s, s2, ch) && x.pc in {LockVenue, LockUnits, LockRows, Peek, Update}
    requires Step(s.db, x, ch, s.nextEvent) == Go(y)
    ensures TxnOk(s2, y)
  {
    match x.pc
    case LockVenue => KeepsLockVenue(s, s2, x, ch);
    case LockUnits => KeepsLockUnits(s, s2, x, ch);
    case LockRows => KeepsLockRows(s, s2, x, ch);
    case Peek => KeepsPeek(s, s2, x, ch);
    case Update => KeepsUpdate(s, s2, x, ch, y);
    case _ =>
  }

  lemma AdminActKeepsTxn(s: Sys, s2: Sys, x: Txn, ch: Choice, y: Txn)
    requires DbOk(s) && TxnOk(s, x) && Drawn(s, s2, ch) && x.pc in {Decide, CancelRows, Enqueue, Write}
    requires Step(s.db, x, ch, s.nextEvent) == Go(y)
    ensures TxnOk(s2, y)
  {
    match x.pc
    case Decide => KeepsDecide(s, s2, x, ch, y);
    case CancelRows => KeepsCancelRows(s, s2, x, ch);
    case Enqueue => KeepsEnqueue(s, s2, x, ch);
    case Write => KeepsWrite(s, s2, x, ch);
    case _ =>
  }

  lemma ActKeepsTxn(s: Sys, s2: Sys, t: Id, ch: Choice, y: Txn)
    requires DbOk(s) && t in s.txns && TxnOk(s, s.txns[t]) && Enabled(s, Act(t, ch)) && Drawn(s, s2, ch)
    requires Step(s.db, s.txns[t], ch, s.nextEvent) == Go(y)
    ensures TxnOk(s2, y)
  {
    var x := s.txns[t];
    if HoldPc(x.pc) { HoldActKeepsTxn(s, s2, x, ch, y); }
    else if x.pc in {LockVenue, LockUnits, LockRows, Peek, Update} { LockActKeepsTxn(s, s2, x, ch, y); }
    else if x.pc in {Decide, CancelRows, Enqueue, Write} { AdminActKeepsTxn(s, s2, x, ch, y); }
    else if x.pc == Sweep { KeepsSweep(s, s2, x, ch); }
    else { KeepsPurge(s, s2, x, ch); }
  }

  // ----- A statement and the locks of others -----

  /** The statement takes at most the lock it waited for. */
  ghost predicate TakesOnly(db: Db, x: Txn, y: Txn) {
    && y.venue == x.venue
    && (forall k :: k in y.keys ==> k in x.keys || Wants(db, x) == Some(KeyLock(k)))
    && (y.venueLock == x.venueLock || (y.venueLock.Some?
        && Wants(db, x) == Some(VenueLock(x.venue, y.venueLock.value))))
    && (forall u :: u in y.unitLocks ==> u in x.unitLocks || Wants(db, x) == Some(UnitLock(u)))
    && (forall r :: r in y.rowLocks ==> r in x.rowLocks || Wants(db, x) == Some(RowLock(r)))
    && y.change == x.change
  }

  lemma TakesOnlyKeeps(s: Sys, t: Id, o: Id, y: Txn)
    requires t in s.txns && o in s.txns && t != o
    requires Compatible(s.txns[t], s.txns[o])
    requires TakesOnly(s.db, s.txns[t], y)
    requires Wants(s.db, s.txns[t]).Some? ==> Free(s, t, Wants(s.db, s.txns[t]).value)
    ensures Compatible(y, s.txns[o])
  {
    var other := s.txns[o];
    if Wants(s.db, s.txns[t]).Some? { assert !Excludes(other, Wants(s.db, s.txns[t]).value); }
  }

  lemma UpdateTakesNothing(db: Db, x: Txn, eventId: nat, y: Txn)
    requires x.pc == Update && UpdateMove(db, x, eventId) == Go(y)
    ensures TakesOnly(db, x, y)
  {
    match x.cmd
    case Confirm(_, _, _) =>
    case Cancel(_, _, _) =>
    case Advance(_, _, _, _) =>
    case Mint(_, _, _) =>
    case _ =>
  }

  lemma HoldStepsTakeOnly(db: Db, x: Txn, ch: Choice, eventId: nat, y: Txn)
    requires HoldPc(x.pc) && x.pc != Insert && Step(db, x, ch, eventId) == Go(y)
    ensures TakesOnly(db, x, y)
  {
  }

  lemma OtherStepsTakeOnly(db: Db, x: Txn, ch: Choice, eventId: nat, y: Txn)
    requires x.pc in {LockVenue, LockUnits, LockRows, Peek, CancelRows, Enqueue, Write}
        && Step(db, x, ch, eventId) == Go(y)
    ensures TakesOnly(db, x, y)
  {
  }

  lemma MostStepsTakeOnly(db: Db, x: Txn, ch: Choice, eventId: nat, y: Txn)
    requires x.pc !in {Insert, Sweep, PurgeDue, Decide} && Step(db, x, ch, eventId) == Go(y)
    ensures TakesOnly(db, x, y)
  {
    if HoldPc(x.pc) { HoldStepsTakeOnly(db, x, ch, eventId, y); }
    else if x.pc == Update { UpdateTakesNothing(db, x, eventId, y); }
    else { OtherStepsTakeOnly(db, x, ch, eventId, y); }
  }

  /** Two changes of one row are changes of one venue, or one of them made the row. */
  lemma ChangesDiffer(s: Sys, x: Txn, y: Txn, o: Txn, ch: Choice)
    requires DbOk(s) && TxnOk(s, x) && TxnOk(s, o) && Compatible(x, o) && ch.freshId !in s.issued
    requires x.pc == Decide && x.cmd.Admin? && DecideMove(s.db, x, ch.freshId) == Go(y) && o.change.Some?
    ensures !SameRow(y.change.value, o.change.value)
  {
    var w := y.change.value;
    EditIsAdmissible(s.db.cfg, x.venue, x.cmd.edit, ch.freshId);
    assert o.cmd.Admin?;
    assert x.venueLock == Some(Exclusive) && o.venueLock == Some(Exclusive);
    if w.id != ch.freshId && SameRow(w, o.change.value) {
      assert VenueOf(w) == x.venue && VenueOf(o.change.value) == o.venue;
      EditedRowExists(s.db.cfg, x.venue, x.cmd.edit, ch.freshId);
    }
  }

  lemma EditedRowExists(cfg: Config, venue: Id, e: Edit, freshId: Id)
    requires ChangeOf(cfg, venue, e, freshId).Some?
    ensures match ChangeOf(cfg, venue, e, freshId).value
            case PutUnit(id, _) => id == freshId || (id in cfg.units && cfg.units[id].venue == venue)
            case PutCombo(id, _) => id == freshId || (id in cfg.combos && cfg.combos[id].venue == venue)
            case PutBlackout(id, _) => id == freshId || (id in cfg.blackouts && cfg.blackouts[id].venue == venue)
  {
  }

  /** The steps that lock something other than what they waited for: an inserted row is nobody else's, and a batch
      takes only rows that are free. */
  lemma PickKeepsPair(s: Sys, t: Id, o: Id, ch: Choice, y: Txn)
    requires t in s.txns && o in s.txns && t != o && s.txns[t].pc in {Insert, Sweep, PurgeDue}
    requires s.txns[o].rowLocks <= s.issued && Compatible(s.txns[t], s.txns[o])
    requires Enabled(s, Act(t, ch)) && Step(s.db, s.txns[t], ch, s.nextEvent) == Go(y)
    ensures Compatible(y, s.txns[o])
  {
    var x, other := s.txns[t], s.txns[o];
    match x.pc
    case Insert => assert ch.freshId !in other.rowLocks;
    case Sweep =>
      forall id | id in y.rowLocks ensures id !in other.rowLocks { assert !Excludes(other, RowLock(id)); }
    case PurgeDue =>
      forall k | k in y.keys ensures k !in other.keys { assert !Excludes(other, KeyLock(k)); }
    case _ =>
  }

  lemma ActKeepsPair(s: Sys, t: Id, o: Id, ch: Choice, y: Txn)
    requires DbOk(s) && t in s.txns && o in s.txns && t != o
    requires TxnOk(s, s.txns[t]) && TxnOk(s, s.txns[o]) && Compatible(s.txns[t], s.txns[o])
    requires Enabled(s, Act(t, ch)) && Step(s.db, s.txns[t], ch, s.nextEvent) == Go(y)
    ensures Compatible(y, s.txns[o])
  {
    var x, other := s.txns[t], s.txns[o];
    if x.pc in {Insert, Sweep, PurgeDue} {
      PickKeepsPair(s, t, o, ch, y);
    } else if x.pc == Decide {
      if other.change.Some? { ChangesDiffer(s, x, y, other, ch); }
    } else {
      MostStepsTakeOnly(s.db, x, ch, s.nextEvent, y);
      TakesOnlyKeeps(s, t, o, y);
    }
  }

  lemma CompatibleIsSymmetric(x: Txn, y: Txn)
    requires Compatible(x, y)
    ensures Compatible(y, x)
  {
  }

  // ----- Actions -----

  lemma AdvancedPairs(s: Sys, t: Id, y: Txn)
    requires t in s.txns && PairsOk(s)
    requires forall o :: o in s.txns && o != t ==> Compatible(y, s.txns[o])
    ensures PairsOk(s.(txns := s.txns[t := y]))
  {
    var txns := s.txns[t := y];
    forall i, j | i in txns && j in txns && i != j ensures Compatible(txns[i], txns[j]) {
      if j == t { CompatibleIsSymmetric(y, s.txns[i]); }
      else if i != t { assert Compatible(s.txns[i], s.txns[j]); }
    }
  }

  lemma GoKeepsTxns(s: Sys, s2: Sys, t: Id, ch: Choice, y: Txn)
    requires DbOk(s) && (forall o :: o in s.txns ==> TxnOk(s, s.txns[o]))
    requires Enabled(s, Act(t, ch)) && Step(s.db, s.txns[t], ch, s.nextEvent) == Go(y)
    requires Drawn(s, s2, ch)
    ensures forall o :: o in s.txns ==> TxnOk(s2, if o == t then y else s.txns[o])
  {
    ActKeepsTxn(s, s2, t, ch, y);
    forall o | o in s.txns && o != t ensures TxnOk(s2, s.txns[o]) {
      LaterKeepsTxn(s, s2, s.txns[o]);
    }
  }

  lemma GoKeepsPairs(s: Sys, t: Id, ch: Choice, y: Txn)
    requires Inv(s) && Enabled(s, Act(t, ch)) && Step(s.db, s.txns[t], ch, s.nextEvent) == Go(y)
    ensures PairsOk(s.(txns := s.txns[t := y]))
  {
    forall o | o in s.txns && o != t ensures Compatible(y, s.txns[o]) {
      assert Compatible(s.txns[t], s.txns[o]);
      ActKeepsPair(s, t, o, ch, y);
    }
    AdvancedPairs(s, t, y);
  }

  lemma GoKeeps(s: Sys, s2: Sys, t: Id, ch: Choice, y: Txn)
    requires Inv(s) && Enabled(s, Act(t, ch)) && Step(s.db, s.txns[t], ch, s.nextEvent) == Go(y)
    requires Drawn(s, s2, ch) && s2.txns == s.txns[t := y]
    ensures Inv(s2)
  {
    hide TxnOk, Compatible, Step, WellFormed, RowsOk, NoOverlap, TrailsOk, IdemOk, ConfigIssued;
    assert DbOk(s2) by { LaterKeepsDb(s, s2); }
    assert forall o :: o in s2.txns ==> TxnOk(s2, s2.txns[o]) by { GoKeepsTxns(s, s2, t, ch, y); }
    assert PairsOk(s2) by { GoKeepsPairs(s, t, ch, y); }
  }

  lemma EndKeeps(s: Sys, t: Id, o: Outcome)
    requires Inv(s)
    ensures Inv(Without(s, t, o))
  {
    var s2 := Without(s, t, o);
    LaterKeepsDb(s, s2);
    forall i | i in s2.txns ensures TxnOk(s2, s2.txns[i]) { LaterKeepsTxn(s, s2, s.txns[i]); }
  }

  lemma TickKeeps(s: Sys, ms: nat)
    requires Inv(s)
    ensures Inv(s.(clock := s.clock + ms))
  {
    var s2 := s.(clock := s.clock + ms);
    LaterKeepsDb(s, s2);
    forall i | i in s2.txns ensures TxnOk(s2, s2.txns[i]) { LaterKeepsTxn(s, s2, s.txns[i]); }
  }

  lemma OpenedOk(s: Sys, venue: Id, cmd: Command)
    requires ProperCommand(cmd) && (cmd.Hold? ==> cmd.key.venue == venue)
    ensures TxnOk(s, Opened(s.clock, venue, cmd))
    ensures forall o: Txn :: Compatible(Opened(s.clock, venue, cmd), o) && Compatible(o, Opened(s.clock, venue, cmd))
  {
  }

  lemma BeginKeeps(s: Sys, t: Id, venue: Id, cmd: Command)
    requires Inv(s) && Enabled(s, Begin(t, venue, cmd))
    ensures Inv(Apply(s, Begin(t, venue, cmd)))
  {
    var s2 := Apply(s, Begin(t, venue, cmd));
    OpenedOk(s2, venue, cmd);
    LaterKeepsDb(s, s2);
    forall i | i in s2.txns ensures TxnOk(s2, s2.txns[i]) {
      if i != t { LaterKeepsTxn(s, s2, s.txns[i]); }
    }
    forall i, j | i in s2.txns && j in s2.txns && i != j ensures Compatible(s2.txns[i], s2.txns[j]) {
      if i != t && j != t { assert Compatible(s.txns[i], s.txns[j]); }
    }
  }

  lemma CommitKeeps(s: Sys, t: Id)
    requires Inv(s) && Enabled(s, Commit(t))
    ensures Inv(Apply(s, Commit(t)))
  {
    var x, s2 := s.txns[t], Apply(s, Commit(t));
    CommitKeepsDb(s, s2, x);
    forall i | i in s2.txns ensures TxnOk(s2, s2.txns[i]) {
      assert Compatible(x, s.txns[i]);
      CommitAllowsFor(s, x, s.txns[i]);
      TxnStable(s, s2, s.txns[i]);
    }
    forall i, j | i in s2.txns && j in s2.txns && i != j ensures Compatible(s2.txns[i], s2.txns[j]) {
      assert Compatible(s.txns[i], s.txns[j]);
    }
  }

  lemma ActKeeps(s: Sys, t: Id, ch: Choice)
    requires Inv(s) && Enabled(s, Act(t, ch))
    ensures Inv(Apply(s, Act(t, ch)))
  {
    hide Inv, Step;
    match Step(s.db, s.txns[t], ch, s.nextEvent)
    case Go(y) => GoKeeps(s, Apply(s, Act(t, ch)), t, ch, y);
    case End(o) => EndKeeps(s, t, o);
  }

  lemma ActionKeeps(s: Sys, a: Action)
    requires Inv(s) && Enabled(s, a)
    ensures Inv(Apply(s, a))
  {
    hide Inv, Step, CommitDb, MembershipOk, SweepPick, PurgePick, Free, Wants;
    match a
    case Tick(ms) => TickKeeps(s, ms);
    case Begin(t, venue, cmd) => BeginKeeps(s, t, venue, cmd);
    case Act(t, ch) => ActKeeps(s, t, ch);
    case Commit(t) => CommitKeeps(s, t);
    case Abort(t) => EndKeeps(s, t, Failed(Aborted));
  }

  // ----- Runs -----

  /** Every run, of any length and any interleaving, ends in a state that satisfies the invariant. */
  lemma {:induction false} RunKeeps(s: Sys, acts: seq<Action>)
    requires Inv(s) && Executable(s, acts)
    ensures Inv(Run(s, acts))
    decreases |acts|
  {
    if acts != [] {
      ActionKeeps(s, acts[0]);
      RunKeeps(Apply(s, acts[0]), acts[1..]);
    }
  }

  ghost predicate Reachable(s: Sys) {
    exists s0, acts :: Init(s0) && Executable(s0, acts) && s == Run(s0, acts)
  }

  lemma ReachableKeeps(s: Sys)
    requires Reachable(s)
    ensures Inv(s)
  {
    var s0, acts :| Init(s0) && Executable(s0, acts) && s == Run(s0, acts);
    InitKeeps(s0);
    RunKeeps(s0, acts);
  }
}
