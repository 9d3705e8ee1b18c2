/** What the protocol promises, stated of every reachable state and of every run. */
module Guarantees {
  import opened Sorting
  import opened Domain
  import opened Protocol
  import opened Invariants
  import opened Steps
  import opened Commits
  import opened Reachability

  // ----- The invariant, piece by piece -----

  lemma DbFacts(s: Sys)
    requires Reachable(s)
    ensures DbOk(s)
  {
    ReachableKeeps(s);
  }

  lemma RowFacts(s: Sys, id: Id)
    requires Reachable(s) && id in s.db.res
    ensures RowOk(s.db.cfg, s.clock, s.db.res[id])
  {
    ReachableKeeps(s);
  }

  lemma TxnFacts(s: Sys, t: Id)
    requires Reachable(s) && t in s.txns
    ensures TxnOk(s, s.txns[t])
  {
    ReachableKeeps(s);
  }

  lemma PairFacts(s: Sys, t: Id, o: Id)
    requires Reachable(s) && t in s.txns && o in s.txns && t != o
    ensures Compatible(s.txns[t], s.txns[o])
  {
    ReachableKeeps(s);
  }

  // ----- Configuration safety -----

  /** A confirmed, seated or unexpired held reservation fits its assignment, uses only active units and combinations,
      and overlaps no active blackout, although assignments are resolved before any lock is taken and every
      transaction judges expiry by the clock it began with. */
  lemma ConfigurationSafety(s: Sys, id: Id)
    requires Reachable(s) && id in s.db.res
    requires s.db.res[id].status == Confirmed || s.db.res[id].status == Seated
        || (s.db.res[id].status == Held && s.clock < s.db.res[id].expiresAt)
    ensures ConfigOk(s.db.cfg, s.db.res[id])
  {
    RowFacts(s, id);
  }

  /** Occupancy rows are exactly the members of the assignment, active as long as the status occupies them, and no
      hold was expired before its time. */
  lemma RowsMatchAssignment(s: Sys, id: Id)
    requires Reachable(s) && id in s.db.res
    ensures match s.db.res[id].asg
            case UnitOf(u) => u in s.db.cfg.units && s.db.res[id].rows == {u}
            case ComboOf(c) =>
              c in s.db.cfg.combos && forall u :: u in s.db.res[id].rows <==> u in s.db.cfg.combos[c].members
    ensures s.db.res[id].active <==> s.db.res[id].status != Cancelled && s.db.res[id].status != Expired
    ensures s.db.res[id].status == Expired ==> s.db.res[id].expiresAt <= s.clock
  {
    RowFacts(s, id);
  }

  /** At no instant is a unit occupied by two reservations. */
  lemma NoDoubleBooking(s: Sys, i: Id, j: Id, u: Id, now: int)
    requires Reachable(s) && i in s.db.res && j in s.db.res && i != j
    requires s.db.res[i].status !in {Cancelled, Expired} && s.db.res[j].status !in {Cancelled, Expired}
    requires u in Members(s.db.cfg, s.db.res[i].asg) && u in Members(s.db.cfg, s.db.res[j].asg)
    ensures !(Within(now, s.db.res[i].during) && Within(now, s.db.res[j].during))
  {
    OverlapsExactly(s.db.res[i].during, s.db.res[j].during);
    RowFacts(s, i);
    RowFacts(s, j);
    DbFacts(s);
    assert Apart(s.db.res[i], s.db.res[j]);
    assert u in s.db.res[i].rows && u in s.db.res[j].rows;
  }

  // ----- Booking under locks -----

  predicate InTheWay(r: Reservation, units: set<Id>, during: Range) {
    r.active && !(r.rows !! units) && Overlaps(r.during, during)
  }

  /** When a hold reaches its insert, every reservation whose active rows are in the way is one it has locked itself. */
  lemma ObstaclesAreLocked(s: Sys, t: Id, id: Id)
    requires Reachable(s) && t in s.txns && s.txns[t].pc == Insert && s.txns[t].cmd.Hold?
    requires id in s.db.res && InTheWay(s.db.res[id], s.txns[t].unitLocks, s.txns[t].cmd.during)
    ensures id in s.txns[t].rowLocks
  {
    TxnFacts(s, t);
  }

  /** So the insert never waits: no other transaction has an uncommitted row version that the exclusion constraint
      would have to wait for. Neither does another hold in flight share a unit, nor is an obstacle being released. */
  lemma InsertNeverWaits(s: Sys, t: Id, o: Id, id: Id)
    requires Reachable(s) && t in s.txns && o in s.txns && t != o
    requires s.txns[t].pc == Insert && s.txns[t].cmd.Hold? && id in s.txns[o].writes
    ensures id !in s.db.res ==> s.txns[o].writes[id].rows !! s.txns[t].unitLocks
    ensures id in s.db.res ==> !InTheWay(s.db.res[id], s.txns[t].unitLocks, s.txns[t].cmd.during)
  {
    var x, y := s.txns[t], s.txns[o];
    PairFacts(s, t, o);
    TxnFacts(s, o);
    assert WriteOk(s.db, s.clock, y, id, y.writes[id]);
    if id in s.db.res {
      if InTheWay(s.db.res[id], x.unitLocks, x.cmd.during) { ObstaclesAreLocked(s, t, id); }
    } else {
      InsertedRowsAreLocked(s, y, id);
    }
  }

  lemma InsertedRowsAreLocked(s: Sys, y: Txn, id: Id)
    requires TxnOk(s, y) && id in y.writes && id !in s.db.res && y.made == Some(id)
    ensures y.writes[id].rows == y.unitLocks
  {
    assert y.cmd.Hold?;
  }

  /** The booking succeeds exactly when the guards allow it and whatever is in the way is a dead hold by the
      transaction's clock. */
  lemma BooksExactlyWhenFree(s: Sys, t: Id)
    requires Reachable(s) && t in s.txns && s.txns[t].pc == Insert && s.txns[t].cmd.Hold?
    ensures var x := s.txns[t];
            Verdict(s.db, x).None? <==>
              && ConfigOk(s.db.cfg, Booking(s.db, x))
              && SHORTEST <= x.cmd.during.end - x.cmd.during.start <= LONGEST
              && forall id :: id in s.db.res && InTheWay(s.db.res[id], x.unitLocks, x.cmd.during) ==>
                Dead(s.db.res[id], x.begin)
  {
    var x := s.txns[t];
    DbFacts(s);
    TxnFacts(s, t);
    ExcludedMeans(s, x);
    FoundAtInsert(s, x);
    VerdictCases(s.db, x);
  }

  lemma VerdictCases(db: Db, x: Txn)
    requires x.cmd.Hold?
    ensures Verdict(db, x).None? <==>
              && ConfigOk(db.cfg, Booking(db, x))
              && SHORTEST <= x.cmd.during.end - x.cmd.during.start <= LONGEST
              && !Excluded(db, x, x.unitLocks, x.cmd.during)
  {
  }

  lemma FoundAtInsert(s: Sys, x: Txn)
    requires TxnOk(s, x) && x.pc == Insert && x.cmd.Hold?
    ensures Found(s.db.cfg, Booking(s.db, x).venue, Booking(s.db, x).asg)
  {
  }

  /** Dead holds in the way have been expired in the transaction's view, and nothing else has. */
  lemma ExcludedMeans(s: Sys, x: Txn)
    requires RowsOk(s.db, s.clock) && TxnOk(s, x) && x.pc == Insert && x.cmd.Hold?
    ensures Excluded(s.db, x, x.unitLocks, x.cmd.during) <==>
            exists id :: id in s.db.res && InTheWay(s.db.res[id], x.unitLocks, x.cmd.during)
                && !Dead(s.db.res[id], x.begin)
  {
    forall id | id in s.db.res
      ensures InTheWay(View(s.db, x, id), x.unitLocks, x.cmd.during)
              <==> InTheWay(s.db.res[id], x.unitLocks, x.cmd.during) && !Dead(s.db.res[id], x.begin)
    {
      ViewInTheWay(s, x, id);
    }
  }

  lemma ViewInTheWay(s: Sys, x: Txn, id: Id)
    requires RowsOk(s.db, s.clock) && TxnOk(s, x) && x.pc == Insert && x.cmd.Hold? && id in s.db.res
    ensures InTheWay(View(s.db, x, id), x.unitLocks, x.cmd.during)
            <==> InTheWay(s.db.res[id], x.unitLocks, x.cmd.during) && !Dead(s.db.res[id], x.begin)
  {
    assert HoldOk(s.db, x);
    if id in x.writes {
      assert WriteOk(s.db, s.clock, x, id, x.writes[id]);
    } else if InTheWay(s.db.res[id], x.unitLocks, x.cmd.during) {
      assert id in x.rowLocks;
    }
  }

  // ----- Confirming -----

  /** While a hold is live by the real clock, confirming it depends on the caller alone: it goes through exactly for the
      right token and version of a reservation still held, whatever has become of the configuration since the booking;
      and what is written is the same booking, confirmed, its token gone and its units still occupied. */
  lemma ConfirmsExactly(s: Sys, t: Id, eventId: nat)
    requires Reachable(s) && t in s.txns && s.txns[t].pc == Update && s.txns[t].cmd.Confirm?
    requires s.txns[t].cmd.id in s.db.res ==> s.clock < s.db.res[s.txns[t].cmd.id].expiresAt
    ensures var x := s.txns[t];
            && x.cmd.id in s.db.res
            && var r := s.db.res[x.cmd.id];
               && (ConfirmMove(s.db, x, eventId).Go? <==>
                     && (x.cmd.presented.None? || r.token == x.cmd.presented)
                     && (x.cmd.expected.None? || r.version == x.cmd.expected.value)
                     && r.status == Held)
               && (ConfirmMove(s.db, x, eventId).Go? ==>
                     ConfirmedBooking(r, ConfirmMove(s.db, x, eventId).x.writes, x.cmd.id))
  {
    TxnFacts(s, t);
    RowFacts(s, s.txns[t].cmd.id);
  }

  predicate ConfirmedBooking(r: Reservation, writes: map<Id, Reservation>, id: Id) {
    && writes.Keys == {id}
    && SameBooking(r, writes[id])
    && writes[id].status == Confirmed && writes[id].token == None
    && writes[id].active && writes[id].version == r.version + 1
  }

  /** The guards turn down only a hold that has run out in the meantime: while it is live by the real clock, nothing the
      configuration can become refuses it. */
  lemma RevalidationRefusesOnlyTheDead(s: Sys, t: Id, eventId: nat)
    requires Reachable(s) && t in s.txns && s.txns[t].pc == Update && s.txns[t].cmd.Confirm?
    requires ConfirmMove(s.db, s.txns[t], eventId).End?
    requires ConfirmMove(s.db, s.txns[t], eventId).outcome in
               {Failed(InBlackout), Failed(PartyDoesNotFit), Failed(AssignmentInactive)}
    ensures s.txns[t].cmd.id in s.db.res
    ensures s.txns[t].begin < s.db.res[s.txns[t].cmd.id].expiresAt <= s.clock
  {
    TxnFacts(s, t);
    RowFacts(s, s.txns[t].cmd.id);
  }

  // ----- The guards of an admin write -----

  /** The guard triggers never refuse an admin write that settled what it strands: nothing stranded can appear while
      it holds the venue. */
  lemma GuardsNeverRefuse(s: Sys, t: Id)
    requires Reachable(s) && t in s.txns && s.txns[t].pc == Write
    ensures WriteMove(s.db, s.txns[t]).Go?
  {
    TxnFacts(s, t);
  }

  /** The row an unforced admin write asks for. */
  predicate Deciding(s: Sys, t: Id, freshId: Id) {
    && t in s.txns && s.txns[t].pc == Decide && s.txns[t].cmd.Admin? && !s.txns[t].cmd.force
    && freshId !in s.issued && ChangeOf(s.db.cfg, s.txns[t].venue, s.txns[t].cmd.edit, freshId).Some?
  }

  /** An unforced write that would put a live reservation of any venue outside the rules is refused. */
  lemma HarmfulWritesAreRefused(s: Sys, t: Id, freshId: Id, id: Id)
    requires Reachable(s) && Deciding(s, t, freshId)
    requires id in s.db.res && Live(s.db.res[id], s.clock)
    requires var w := ChangeOf(s.db.cfg, s.txns[t].venue, s.txns[t].cmd.edit, freshId).value;
             !ConfigOk(ApplyChange(s.db.cfg, w), s.db.res[id])
    ensures DecideMove(s.db, s.txns[t], freshId) == Fail(Stranding)
  {
    var x := s.txns[t];
    var w := ChangeOf(s.db.cfg, x.venue, x.cmd.edit, freshId).value;
    DbFacts(s);
    TxnFacts(s, t);
    RowFacts(s, id);
    EditIsAdmissible(s.db.cfg, x.venue, x.cmd.edit, freshId);
    var r := s.db.res[id];
    if !Strands(s.db.cfg, w, r) {
      UnstrandedStaysOk(s.db.cfg, w, r);
    } else {
      StrandsOwnVenue(s.db.cfg, w, r);
      assert id in StrandedSet(s.db, x, w);
    }
  }

  /** And it is refused for nothing less: some reservation live by the transaction's clock would be outside the
      rules. */
  lemma RefusedWritesAreHarmful(s: Sys, t: Id, freshId: Id)
    requires Reachable(s) && Deciding(s, t, freshId) && DecideMove(s.db, s.txns[t], freshId) == Fail(Stranding)
    ensures var w := ChangeOf(s.db.cfg, s.txns[t].venue, s.txns[t].cmd.edit, freshId).value;
            exists id :: id in s.db.res && Live(s.db.res[id], s.txns[t].begin)
                && !ConfigOk(ApplyChange(s.db.cfg, w), s.db.res[id])
  {
    var x := s.txns[t];
    var w := ChangeOf(s.db.cfg, x.venue, x.cmd.edit, freshId).value;
    DbFacts(s);
    EditIsAdmissible(s.db.cfg, x.venue, x.cmd.edit, freshId);
    assert StrandedSet(s.db, x, w) != {};
    var id :| id in StrandedSet(s.db, x, w);
    RowFacts(s, id);
    StrandedBreaks(s.db.cfg, w, s.db.res[id]);
  }

  /** A forced write cancels live reservations that its change would strand, and touches no other. */
  lemma ForceCancelsOnlyStranded(s: Sys, t: Id, id: Id)
    requires Reachable(s) && t in s.txns && s.txns[t].cmd.Admin? && s.txns[t].pc == Ready && id in s.txns[t].writes
    ensures id in s.db.res && s.txns[t].change.Some? && s.txns[t].writes[id].status == Cancelled
    ensures Live(s.db.res[id], s.txns[t].begin) && Strands(s.db.cfg, s.txns[t].change.value, s.db.res[id])
  {
    TxnFacts(s, t);
    CancelsStranded(s, s.txns[t], id);
    RowFacts(s, id);
  }

  lemma CancelsStranded(s: Sys, x: Txn, id: Id)
    requires TxnOk(s, x) && x.cmd.Admin? && x.pc == Ready && id in x.writes
    ensures id in s.db.res && x.change.Some? && x.writes[id].status == Cancelled && Live(s.db.res[id], x.begin)
    ensures s.db.res[id].active ==> Strands(s.db.cfg, x.change.value, s.db.res[id])
  {
    assert WriteOk(s.db, s.clock, x, id, x.writes[id]);
    assert id in x.rowLocks;
  }

  /** The deferred membership check never refuses: a transaction with nothing left to do can commit. */
  lemma MembershipNeverRefuses(s: Sys, t: Id)
    requires Reachable(s) && t in s.txns && s.txns[t].pc == Ready
    ensures Enabled(s, Commit(t))
  {
    ReachableKeeps(s);
    MembershipHolds(s, t);
  }

  lemma MembershipHolds(s: Sys, t: Id)
    requires Inv(s) && t in s.txns
    ensures MembershipOk(s.db, s.txns[t])
  {
    var x := s.txns[t];
    forall id | id in x.writes && id !in s.db.res
      ensures x.writes[id].rows == Elements(Members(s.db.cfg, x.writes[id].asg))
    {
      assert WriteOk(s.db, s.clock, x, id, x.writes[id]);
    }
  }

  // ----- Exactly once -----

  /** Until it is purged a key has created at most one reservation, and exactly the one its stored outcome names. */
  lemma AtMostOneBooking(s: Sys, k: Key)
    requires Reachable(s)
    ensures |BookedUnder(s.db, k)| <= 1
    ensures k in s.db.idem ==> s.db.idem[k].response.Some?
    ensures forall id :: id in BookedUnder(s.db, k) <==> k in s.db.idem && s.db.idem[k].response == Some(Granted(id))
  {
    ReachableKeeps(s);
  }

  /** Only a commit changes committed state, so a transaction that fails or is aborted leaves nothing. */
  lemma OnlyCommitsChange(s: Sys, a: Action)
    requires Enabled(s, a) && !a.Commit?
    ensures Apply(s, a).db == s.db
  {
    match a
    case Act(t, ch) =>
      match Step(s.db, s.txns[t], ch, s.nextEvent) { case Go(_) => case End(_) => }
    case _ =>
  }

  ghost predicate RowMovesOn(a: Db, b: Db, id: Id) {
    id in a.res ==>
      && id in b.res && SameBooking(a.res[id], b.res[id])
      && (IsTerminal(a.res[id].status) ==> b.res[id].status == a.res[id].status)
  }

  ghost predicate KeyMovesOn(a: Db, b: Db, k: Key) {
    && EpochOf(a, k) <= EpochOf(b, k)
    && (k in a.idem && EpochOf(a, k) == EpochOf(b, k) ==> k in b.idem && b.idem[k] == a.idem[k])
  }

  /** Committed state moves on: reservations keep their identity and their past, and a stored outcome stands until
      its key is purged. */
  ghost predicate Onward(a: Db, b: Db) {
    && (forall id {:trigger TrailOf(b, id)} :: TrailOf(a, id) <= TrailOf(b, id))
    && (forall id {:trigger RowMovesOn(a, b, id)} :: RowMovesOn(a, b, id))
    && (forall k {:trigger KeyMovesOn(a, b, k)} :: KeyMovesOn(a, b, k))
  }

  lemma OnwardTransitive(a: Db, b: Db, c: Db)
    requires Onward(a, b) && Onward(b, c)
    ensures Onward(a, c)
  {
    forall id ensures TrailOf(a, id) <= TrailOf(c, id) {
      assert TrailOf(a, id) <= TrailOf(b, id) && TrailOf(b, id) <= TrailOf(c, id);
    }
    forall id ensures RowMovesOn(a, c, id) {
      assert RowMovesOn(a, b, id) && RowMovesOn(b, c, id);
    }
    forall k ensures KeyMovesOn(a, c, k) {
      assert KeyMovesOn(a, b, k) && KeyMovesOn(b, c, k);
    }
  }

  lemma CommitMovesRow(s: Sys, x: Txn, id: Id)
    requires WritesOk(s.db, s.clock, x)
    ensures RowMovesOn(s.db, CommitDb(s.db, x), id)
  {
    if id in x.writes { assert WriteOk(s.db, s.clock, x, id, x.writes[id]); }
  }

  lemma CommitMovesKey(s: Sys, x: Txn, k: Key)
    requires CommandOk(s.db, s.issued, x)
    ensures KeyMovesOn(s.db, CommitDb(s.db, x), k)
  {
  }

  lemma CommitIsOnward(s: Sys, x: Txn)
    requires TxnOk(s, x)
    ensures Onward(s.db, CommitDb(s.db, x))
  {
    forall id ensures TrailOf(s.db, id) <= TrailOf(CommitDb(s.db, x), id) { CommitTrailIs(s, x, id); }
    forall id ensures RowMovesOn(s.db, CommitDb(s.db, x), id) { CommitMovesRow(s, x, id); }
    forall k ensures KeyMovesOn(s.db, CommitDb(s.db, x), k) { CommitMovesKey(s, x, k); }
  }

  lemma OnwardSame(a: Db, b: Db)
    requires a == b
    ensures Onward(a, b)
  {
  }

  lemma ActionIsOnward(s: Sys, a: Action)
    requires Enabled(s, a) && (forall t :: t in s.txns ==> TxnOk(s, s.txns[t]))
    ensures Onward(s.db, Apply(s, a).db)
  {
    match a
    case Commit(t) => CommitIsOnward(s, s.txns[t]);
    case _ => OnlyCommitsChange(s, a); OnwardSame(s.db, Apply(s, a).db);
  }

  lemma {:induction false} RunIsOnward(s: Sys, acts: seq<Action>)
    requires Inv(s) && Executable(s, acts)
    ensures Onward(s.db, Run(s, acts).db)
    decreases |acts|
  {
    if acts != [] {
      var s2 := Apply(s, acts[0]);
      ActionIsOnward(s, acts[0]);
      ActionKeeps(s, acts[0]);
      RunIsOnward(s2, acts[1..]);
      OnwardTransitive(s.db, s2.db, Run(s2, acts[1..]).db);
    }
  }

  lemma RunFromReachable(s: Sys, acts: seq<Action>)
    requires Reachable(s) && Executable(s, acts)
    ensures Onward(s.db, Run(s, acts).db)
  {
    ReachableKeeps(s);
    RunIsOnward(s, acts);
  }

  /** Once an outcome is stored under a key, then until the key is purged every hold that loses the claim is answered
      with that outcome if its request hashes the same, and refused otherwise. */
  lemma ReplaysReturnTheOutcome(s: Sys, acts: seq<Action>, k: Key, t: Id)
    requires Reachable(s) && Executable(s, acts) && k in s.db.idem
    requires EpochOf(Run(s, acts).db, k) == EpochOf(s.db, k)
    requires t in Run(s, acts).txns
    requires Run(s, acts).txns[t].cmd.Hold? && Run(s, acts).txns[t].cmd.key == k
        && Run(s, acts).txns[t].pc == ReadExisting
    ensures s.db.idem[k].response.Some?
    ensures var x := Run(s, acts).txns[t];
            ReadExistingMove(Run(s, acts).db, x) ==
            if x.cmd.hash == s.db.idem[k].hash
            then End(Answered(s.db.idem[k].response.value, true)) else Fail(IdempotencyMismatch)
  {
    DbFacts(s);
    RunFromReachable(s, acts);
    assert KeyMovesOn(s.db, Run(s, acts).db, k);
  }

  /** A purge takes only keys whose time has come. */
  lemma PurgeTakesOnlyDue(s: Sys, x: Txn, k: Key)
    requires TxnOk(s, x) && x.cmd.PurgeRetained? && k in x.keys
    ensures k in s.db.idem && s.db.idem[k].purgeAt <= x.begin <= s.clock
  {
  }

  lemma ActionKeepsOutcome(s: Sys, a: Action, k: Key)
    requires Enabled(s, a) && (forall t :: t in s.txns ==> TxnOk(s, s.txns[t]))
    requires k in s.db.idem && s.clock < s.db.idem[k].purgeAt
    ensures k in Apply(s, a).db.idem && Apply(s, a).db.idem[k] == s.db.idem[k]
  {
    match a
    case Commit(t) =>
      var x := s.txns[t];
      CommitMovesKey(s, x, k);
      if x.cmd.PurgeRetained? && k in x.keys { PurgeTakesOnlyDue(s, x, k); }
      CommitKeepsOutcome(s.db, x, k);
    case _ => OnlyCommitsChange(s, a);
  }

  lemma CommitKeepsOutcome(db: Db, x: Txn, k: Key)
    requires k in db.idem && !(x.cmd.PurgeRetained? && k in x.keys) && KeyMovesOn(db, CommitDb(db, x), k)
    ensures k in CommitDb(db, x).idem && CommitDb(db, x).idem[k] == db.idem[k]
  {
    assert EpochOf(CommitDb(db, x), k) == EpochOf(db, k);
  }

  lemma ClockOnlyAdvances(s: Sys, a: Action)
    requires Enabled(s, a)
    ensures s.clock <= Apply(s, a).clock
  {
    match a
    case Act(t, ch) =>
      match Step(s.db, s.txns[t], ch, s.nextEvent) { case Go(_) => case End(_) => }
    case _ =>
  }

  lemma {:induction false} RunKeepsOutcome(s: Sys, acts: seq<Action>, k: Key)
    requires Inv(s) && Executable(s, acts) && k in s.db.idem && Run(s, acts).clock < s.db.idem[k].purgeAt
    ensures s.clock <= Run(s, acts).clock
    ensures k in Run(s, acts).db.idem && Run(s, acts).db.idem[k] == s.db.idem[k]
    decreases |acts|
  {
    RunAdvances(s, acts);
    if acts != [] {
      ClockOnlyAdvances(s, acts[0]);
      ActionKeepsOutcome(s, acts[0], k);
      ActionKeeps(s, acts[0]);
      RunKeepsOutcome(Apply(s, acts[0]), acts[1..], k);
    }
  }

  lemma {:induction false} RunAdvances(s: Sys, acts: seq<Action>)
    requires Executable(s, acts)
    ensures s.clock <= Run(s, acts).clock
    decreases |acts|
  {
    if acts != [] {
      ClockOnlyAdvances(s, acts[0]);
      RunAdvances(Apply(s, acts[0]), acts[1..]);
    }
  }

  /** Until the purge time of a key, a day after its claim began, a repeat of its request creates nothing and is
      answered with the stored outcome; another payload is refused. */
  lemma ReplaysForADay(s: Sys, acts: seq<Action>, k: Key, t: Id)
    requires Reachable(s) && Executable(s, acts) && k in s.db.idem && Run(s, acts).clock < s.db.idem[k].purgeAt
    requires t in Run(s, acts).txns
    requires Run(s, acts).txns[t].cmd.Hold? && Run(s, acts).txns[t].cmd.key == k
        && Run(s, acts).txns[t].pc == ReadExisting
    ensures s.db.idem[k].response.Some?
    ensures var x := Run(s, acts).txns[t];
            ReadExistingMove(Run(s, acts).db, x) ==
            if x.cmd.hash == s.db.idem[k].hash
            then End(Answered(s.db.idem[k].response.value, true)) else Fail(IdempotencyMismatch)
  {
    ReachableKeeps(s);
    RunKeepsOutcome(s, acts, k);
    DbFacts(s);
  }

  // ----- The event trail -----

  /** The status a subscriber reaches by applying the events in order, or None if one does not follow. */
  function Replay(es: seq<Event>): Option<Status> {
    if es == [] then None
    else if |es| == 1 then (if es[0].status == Held then Some(Held) else None)
    else match Replay(es[..|es| - 1])
         case Some(st) => if CanTransition(st, es[|es| - 1].status) then Some(es[|es| - 1].status) else None
         case None => None
  }

  lemma {:induction false} TrailReplays(es: seq<Event>)
    requires |es| > 0 && es[0].status == Held
    requires forall i :: 0 <= i < |es| - 1 ==> CanTransition(es[i].status, es[i + 1].status)
    ensures Replay(es) == Some(es[|es| - 1].status)
    decreases |es|
  {
    if |es| > 1 { TrailReplays(es[..|es| - 1]); }
  }

  /** Replaying a reservation's events in the order of their ids yields its stored status: each status change has
      exactly one event, purged ones included, and no aborted transaction has any. */
  lemma TrailAgreesWithStatus(s: Sys, id: Id)
    requires Reachable(s) && id in s.db.res
    ensures Replay(TrailOf(s.db, id)) == Some(s.db.res[id].status)
    ensures forall i, j :: 0 <= i < j < |TrailOf(s.db, id)| ==> TrailOf(s.db, id)[i].id < TrailOf(s.db, id)[j].id
  {
    DbFacts(s);
    assert IsTrail(s.db.trail[id], s.db.res[id]);
    TrailReplays(TrailOf(s.db, id));
  }

  lemma EventsNameReservations(s: Sys, id: Id)
    requires Reachable(s) && TrailOf(s.db, id) != []
    ensures id in s.db.res
  {
    ReachableKeeps(s);
  }

  /** Along any run a trail only grows at its end, a reservation never changes what it booked, and a terminal status
      is never left. */
  lemma HistoryOnlyGrows(s: Sys, acts: seq<Action>, id: Id)
    requires Reachable(s) && Executable(s, acts) && id in s.db.res
    ensures var r := Run(s, acts).db;
            && id in r.res && SameBooking(s.db.res[id], r.res[id])
            && TrailOf(s.db, id) <= TrailOf(r, id)
            && (IsTerminal(s.db.res[id].status) ==> r.res[id].status == s.db.res[id].status)
  {
    RunFromReachable(s, acts);
    assert TrailOf(s.db, id) <= TrailOf(Run(s, acts).db, id);
    assert RowMovesOn(s.db, Run(s, acts).db, id);
  }
}
