/** What each command does to the committed database, and what it is refused for: stated of the rows before and after,
    in every reachable state and amid any other transactions. */
module Effects {
  import opened Sorting
  import opened Domain
  import opened Protocol
  import opened Invariants
  import opened Commits
  import opened Reachability
  import opened Guarantees
  import opened Justification

  // ----- What a commit does to the database -----

  /** One row is replaced, its change noted as one more event if it is a change of status; all else stays. */
  ghost predicate OnlyRow(a: Db, b: Db, id: Id, w: Reservation, noted: bool) {
    && b.res == a.res[id := w]
    && b.cfg == a.cfg && b.idem == a.idem && b.purged == a.purged && b.booked == a.booked && b.epoch == a.epoch
    && (forall o {:trigger TrailOf(b, o)} :: o != id || !noted ==> TrailOf(b, o) == TrailOf(a, o))
    && (noted ==> exists n :: TrailOf(b, id) == TrailOf(a, id) + [Event(n, w.status, w.version)])
  }

  lemma OneRowIsIdle(s: Sys, x: Txn)
    requires TxnOk(s, x) && OneRow(x.cmd) && x.pc == Ready
    ensures x.change == None && x.purging == {}
  {
  }

  lemma CommittedTrails(s: Sys, x: Txn)
    ensures forall o :: o !in x.events ==> TrailOf(CommitDb(s.db, x), o) == TrailOf(s.db, o)
    ensures forall o :: o in x.events ==> TrailOf(CommitDb(s.db, x), o) == TrailOf(s.db, o) + [x.events[o]]
  {
    forall o ensures TrailOf(CommitDb(s.db, x), o) == TrailOf(s.db, o) + (if o in x.events then [x.events[o]] else []) {
      CommitTrailIs(s, x, o);
    }
    assert forall o :: TrailOf(s.db, o) + [] == TrailOf(s.db, o);
    hide TrailOf, CommitDb;
  }

  lemma EventFits(s: Sys, x: Txn, id: Id)
    requires TxnOk(s, x) && id in x.events && id in x.writes
    ensures x.events[id] == Event(x.events[id].id, x.writes[id].status, x.writes[id].version)
  {
    assert EventsOk(s.db, s.nextEvent, x);
    hide TxnOk;
  }

  lemma OneRowDb(db: Db, x: Txn)
    requires OneRow(x.cmd) && x.change == None && x.purging == {}
    ensures var b := CommitDb(db, x);
            && b.res == db.res + x.writes && b.cfg == db.cfg && b.idem == db.idem && b.purged == db.purged
            && b.booked == db.booked && b.epoch == db.epoch
  {
  }

  lemma OneRowCommits(s: Sys, x: Txn, id: Id, w: Reservation, noted: bool)
    requires TxnOk(s, x) && OneRow(x.cmd) && x.pc == Ready && WroteOne(x, id, w, noted)
    ensures OnlyRow(s.db, CommitDb(s.db, x), id, w, noted)
  {
    OneRowIsIdle(s, x);
    OneRowDb(s.db, x);
    CommittedTrails(s, x);
    assert id in x.writes.Keys;
    if noted {
      assert id in x.events.Keys;
      EventFits(s, x, id);
    }
    hide TxnOk;
    OneRowOnly(s.db, CommitDb(s.db, x), x, id, w, noted);
  }

  lemma OneRowOnly(a: Db, b: Db, x: Txn, id: Id, w: Reservation, noted: bool)
    requires WroteOne(x, id, w, noted) && b.res == a.res + x.writes && b.cfg == a.cfg && b.idem == a.idem
    requires b.purged == a.purged && b.booked == a.booked && b.epoch == a.epoch
    requires forall o :: o !in x.events ==> TrailOf(b, o) == TrailOf(a, o)
    requires forall o :: o in x.events ==> TrailOf(b, o) == TrailOf(a, o) + [x.events[o]]
    requires noted ==> id in x.events && x.events[id] == Event(x.events[id].id, w.status, w.version)
    ensures OnlyRow(a, b, id, w, noted)
  {
    hide TrailOf;
    assert a.res + map[id := w] == a.res[id := w];
    assert forall o :: o in x.events <==> o in x.events.Keys;
  }

  lemma AtCommit(s: Sys, t: Id)
    requires Reachable(s) && Enabled(s, Commit(t))
    ensures t in s.txns && s.txns[t].pc == Ready && DbOk(s) && TxnOk(s, s.txns[t]) && Justified(s.db, s.txns[t])
    ensures Apply(s, Commit(t)).db == CommitDb(s.db, s.txns[t])
  {
    ReachableKeeps(s);
    ReachableIsJustified(s);
    hide CommitDb, Justified, TxnOk;
  }

  /** Whoever asked hears the outcome of a commit: a hold its stored response, everybody else that it is done. */
  lemma CommitIsReported(s: Sys, t: Id)
    requires Reachable(s) && Enabled(s, Commit(t))
    ensures var x, after := s.txns[t], Apply(s, Commit(t));
            && t !in after.txns && t in after.results
            && (if x.cmd.Hold? then x.response.Some? && after.results[t] == Answered(x.response.value, false)
                else after.results[t] == Finished)
  {
    AtCommit(s, t);
    if s.txns[t].cmd.Hold? { HoldAtCommit(s, s.txns[t]); }
    hide CommitDb, TxnOk, DbOk, Justified, Reachable;
  }

  /** A committed confirmation was of a hold not expired when it began, with the right token and version; the hold is
      now confirmed and its token spent. */
  lemma ConfirmTakesEffect(s: Sys, t: Id)
    requires Reachable(s) && Enabled(s, Commit(t)) && s.txns[t].cmd.Confirm?
    ensures var x, id := s.txns[t], s.txns[t].cmd.id;
            && id in s.db.res && var r := s.db.res[id];
            && r.status == Held && x.begin < r.expiresAt
            && Presented(x.cmd.presented, r) && Expected(x.cmd.expected, r)
            && OnlyRow(s.db, Apply(s, Commit(t)).db, id,
                       r.(status := Confirmed, version := r.version + 1, token := None), true)
  {
    AtCommit(s, t);
    var x := s.txns[t];
    hide Apply, Enabled, Reachable, DbOk, TxnOk;
    OneRowCommits(s, x, x.cmd.id, x.writes[x.cmd.id], true);
    hide OnlyRow;
  }

  /** A committed cancellation had a reason and the right version; the row is cancelled and its units free. */
  lemma CancelTakesEffect(s: Sys, t: Id)
    requires Reachable(s) && Enabled(s, Commit(t)) && s.txns[t].cmd.Cancel?
    ensures var x, id := s.txns[t], s.txns[t].cmd.id;
            && id in s.db.res && var r := s.db.res[id];
            && r.status in {Held, Confirmed, Seated} && x.cmd.reasonGiven && Expected(x.cmd.expected, r)
            && OnlyRow(s.db, Apply(s, Commit(t)).db, id,
                       r.(status := Cancelled, version := r.version + 1, active := false,
                          token := if r.status == Held then None else r.token), true)
  {
    AtCommit(s, t);
    var x := s.txns[t];
    hide Apply, Enabled, Reachable, DbOk, TxnOk;
    OneRowCommits(s, x, x.cmd.id, x.writes[x.cmd.id], true);
    hide OnlyRow;
  }

  /** Seating and completing move one step and leave the units occupied. */
  lemma AdvanceTakesEffect(s: Sys, t: Id)
    requires Reachable(s) && Enabled(s, Commit(t)) && s.txns[t].cmd.Advance?
    ensures var x, id := s.txns[t], s.txns[t].cmd.id;
            && id in s.db.res && var r := s.db.res[id];
            && ((r.status == Confirmed && x.cmd.to == Seated) || (r.status == Seated && x.cmd.to == Completed))
            && Expected(x.cmd.expected, r)
            && OnlyRow(s.db, Apply(s, Commit(t)).db, id, r.(status := x.cmd.to, version := r.version + 1), true)
  {
    AtCommit(s, t);
    var x := s.txns[t];
    assert ProperCommand(x.cmd);
    hide Apply, Enabled, Reachable, DbOk, TxnOk;
    OneRowCommits(s, x, x.cmd.id, x.writes[x.cmd.id], true);
    hide OnlyRow;
  }

  /** A minted token is the one that will confirm, and only a live hold gets a new one. No event tells of it. */
  lemma MintTakesEffect(s: Sys, t: Id)
    requires Reachable(s) && Enabled(s, Commit(t)) && s.txns[t].cmd.Mint?
    ensures var x, id := s.txns[t], s.txns[t].cmd.id;
            && id in s.db.res && var r := s.db.res[id];
            && Expected(x.cmd.expected, r)
            && (r.token == Some(x.cmd.hash) || (r.status == Held && x.begin < r.expiresAt))
            && OnlyRow(s.db, Apply(s, Commit(t)).db, id, r.(version := r.version + 1, token := Some(x.cmd.hash)), false)
  {
    AtCommit(s, t);
    var x := s.txns[t];
    hide Apply, Enabled, Reachable, DbOk, TxnOk;
    OneRowCommits(s, x, x.cmd.id, x.writes[x.cmd.id], false);
    hide OnlyRow;
  }

  // ----- Every change of status has its cause -----

  ghost predicate HasCause(s: Sys, t: Id, id: Id, to: Status)
    requires t in s.txns && id in s.db.res
  {
    var x, r := s.txns[t], s.db.res[id];
    match to
    case Held => false
    case Confirmed => x.cmd.Confirm? && x.cmd.id == id && r.status == Held && x.begin < r.expiresAt
    case Seated => x.cmd.Advance? && x.cmd.id == id && r.status == Confirmed
    case Completed => x.cmd.Advance? && x.cmd.id == id && r.status == Seated
    case Cancelled => (x.cmd.Cancel? && x.cmd.id == id && x.cmd.reasonGiven) || (x.cmd.Admin? && x.cmd.force)
    case Expired => (x.cmd.ExpireDue? || x.cmd.Hold?) && r.status == Held && r.expiresAt <= x.begin
  }

  lemma WritesHaveCause(s: Sys, t: Id, id: Id)
    requires t in s.txns && s.txns[t].pc == Ready && Justified(s.db, s.txns[t]) && ProperCommand(s.txns[t].cmd)
    requires s.txns[t].cmd.PurgeRetained? ==> s.txns[t].writes == map[]
    requires id in s.db.res && id in s.txns[t].writes && s.txns[t].writes[id].status != s.db.res[id].status
    ensures HasCause(s, t, id, s.txns[t].writes[id].status)
  {
  }

  lemma PurgeWritesNothing(s: Sys, x: Txn)
    requires TxnOk(s, x) && x.cmd.PurgeRetained?
    ensures x.writes == map[]
  {
  }

  /** Whatever happens, a reservation changes its status for one of these reasons only. In particular no hold that has
      expired when a confirmation begins is ever confirmed by it. */
  lemma StatusChangesForCause(s: Sys, a: Action, id: Id)
    requires Reachable(s) && Enabled(s, a) && id in s.db.res
    ensures id in Apply(s, a).db.res
    ensures Apply(s, a).db.res[id].status != s.db.res[id].status ==>
              a.Commit? && a.t in s.txns && HasCause(s, a.t, id, Apply(s, a).db.res[id].status)
  {
    if a.Commit? {
      AtCommit(s, a.t);
      var x := s.txns[a.t];
      assert ProperCommand(x.cmd);
      if x.cmd.PurgeRetained? { PurgeWritesNothing(s, x); }
      hide Apply, Enabled, Reachable, DbOk, TxnOk, Justified, HasCause;
      if id in x.writes && x.writes[id].status != s.db.res[id].status { WritesHaveCause(s, a.t, id); }
    } else {
      OnlyCommitsChange(s, a);
      hide Enabled, Reachable;
    }
  }

  /** Nor has any transaction an uncommitted confirmation of one. */
  lemma NoExpiredHoldIsConfirmed(s: Sys, t: Id, id: Id)
    requires Reachable(s) && t in s.txns && id in s.txns[t].writes && id in s.db.res
    requires s.db.res[id].status == Held && s.txns[t].writes[id].status == Confirmed
    ensures s.txns[t].cmd.Confirm? && s.txns[t].cmd.id == id && s.txns[t].begin < s.db.res[id].expiresAt
  {
    ReachableKeeps(s);
    ReachableIsJustified(s);
    var x := s.txns[t];
    assert TxnOk(s, x) && Justified(s.db, x);
    hide Inv, Reachable;
    WritesComeLast(s, x);
    if x.cmd.PurgeRetained? { PurgeWritesNothing(s, x); }
    hide TxnOk;
  }

  lemma WritesComeLast(s: Sys, x: Txn)
    requires TxnOk(s, x) && x.writes != map[]
    ensures OneRow(x.cmd) ==> x.pc == Ready
    ensures x.cmd.ExpireDue? ==> x.pc in {Enqueue, Ready}
    ensures x.cmd.Admin? ==> x.pc !in {LockVenue, Decide}
  {
  }

  // ----- What a command is refused for -----

  /** The transaction is over without a trace, with this answer. */
  predicate Refused(s: Sys, t: Id, c: Code) {
    t !in s.txns && t in s.results && s.results[t] == Failed(c)
  }

  predicate GoesThrough(s: Sys, t: Id) {
    t in s.txns && s.txns[t].pc == Ready
  }

  lemma ActLeadsTo(s: Sys, t: Id, ch: Choice)
    requires Enabled(s, Act(t, ch))
    ensures t in s.txns && s.txns[t].pc != Ready && ch.freshId !in s.issued
    ensures match Step(s.db, s.txns[t], ch, s.nextEvent)
            case Go(y) => t in Apply(s, Act(t, ch)).txns && Apply(s, Act(t, ch)).txns[t] == y
            case End(Failed(c)) => Refused(Apply(s, Act(t, ch)), t, c)
            case _ => true
  {
    hide Step, Free, Wants, SweepPick, PurgePick;
  }

  lemma AtStatement(s: Sys, t: Id, ch: Choice)
    requires Reachable(s) && Enabled(s, Act(t, ch))
    ensures t in s.txns && DbOk(s) && TxnOk(s, s.txns[t]) && s.txns[t].pc != Ready && ch.freshId !in s.issued
    ensures match Step(s.db, s.txns[t], ch, s.nextEvent)
            case Go(y) => t in Apply(s, Act(t, ch)).txns && Apply(s, Act(t, ch)).txns[t] == y
            case End(Failed(c)) => Refused(Apply(s, Act(t, ch)), t, c)
            case _ => true
  {
    ActLeadsTo(s, t, ch);
    ReachableKeeps(s);
    hide DbOk, TxnOk, Step, Enabled, Apply, Reachable;
  }

  /** A confirmation is refused for a wrong token before anything else, then for a stale version, a hold that is no
      longer held, and one expired when it began; while the hold is live by the clock nothing else refuses it. */
  lemma ConfirmIsRefusedFor(s: Sys, t: Id, ch: Choice)
    requires Reachable(s) && Enabled(s, Act(t, ch)) && s.txns[t].cmd.Confirm? && s.txns[t].pc == Update
    ensures var x, after := s.txns[t], Apply(s, Act(t, ch));
            && x.cmd.id in s.db.res && var r := s.db.res[x.cmd.id];
            if !Presented(x.cmd.presented, r) then Refused(after, t, Forbidden)
            else if !Expected(x.cmd.expected, r) then Refused(after, t, VersionConflict)
            else if r.status != Held then Refused(after, t, InvalidTransition)
            else if r.expiresAt <= x.begin then Refused(after, t, HoldExpired)
            else if s.clock < r.expiresAt then GoesThrough(after, t)
            else
              || GoesThrough(after, t) || Refused(after, t, InBlackout)
              || Refused(after, t, PartyDoesNotFit) || Refused(after, t, AssignmentInactive)
  {
    AtStatement(s, t, ch);
    ConfirmRow(s, s.txns[t]);
    hide Reachable, Enabled, Apply, DbOk, TxnOk;
    ConfirmCases(s.db, s.clock, s.txns[t], s.nextEvent);
    hide ConfirmMove, ConfigOk;
  }

  lemma ConfirmRow(s: Sys, x: Txn)
    requires DbOk(s) && TxnOk(s, x) && x.cmd.Confirm? && x.pc == Update
    ensures x.cmd.id in s.db.res && RowOk(s.db.cfg, s.clock, s.db.res[x.cmd.id])
  {
  }

  lemma ConfirmCases(db: Db, clock: int, x: Txn, eventId: nat)
    requires x.cmd.Confirm? && x.cmd.id in db.res && RowOk(db.cfg, clock, db.res[x.cmd.id])
    ensures var r := db.res[x.cmd.id];
            match ConfirmMove(db, x, eventId)
            case Go(y) => y.pc == Ready && Presented(x.cmd.presented, r) && Expected(x.cmd.expected, r)
                          && r.status == Held && x.begin < r.expiresAt
            case End(o) =>
              if !Presented(x.cmd.presented, r) then o == Failed(Forbidden)
              else if !Expected(x.cmd.expected, r) then o == Failed(VersionConflict)
              else if r.status != Held then o == Failed(InvalidTransition)
              else if r.expiresAt <= x.begin then o == Failed(HoldExpired)
              else
                && r.expiresAt <= clock
                && o in {Failed(InBlackout), Failed(PartyDoesNotFit), Failed(AssignmentInactive)}
  {
  }

  lemma SingleRow(s: Sys, x: Txn)
    requires TxnOk(s, x) && (x.cmd.Cancel? || x.cmd.Advance? || x.cmd.Mint?) && x.pc == Update
    ensures x.cmd.id in s.db.res
  {
  }

  /** A cancellation is refused for a stale version, a status that has ended, and a missing reason; for nothing else. */
  lemma CancelIsRefusedFor(s: Sys, t: Id, ch: Choice)
    requires Reachable(s) && Enabled(s, Act(t, ch)) && s.txns[t].cmd.Cancel? && s.txns[t].pc == Update
    ensures var x, after := s.txns[t], Apply(s, Act(t, ch));
            && x.cmd.id in s.db.res && var r := s.db.res[x.cmd.id];
            if !Expected(x.cmd.expected, r) then Refused(after, t, VersionConflict)
            else if r.status in {Held, Confirmed, Seated} && x.cmd.reasonGiven then GoesThrough(after, t)
            else Refused(after, t, InvalidTransition)
  {
    AtStatement(s, t, ch);
    SingleRow(s, s.txns[t]);
    hide Reachable, Enabled, Apply, DbOk, TxnOk;
  }

  lemma AdvanceIsRefusedFor(s: Sys, t: Id, ch: Choice)
    requires Reachable(s) && Enabled(s, Act(t, ch)) && s.txns[t].cmd.Advance? && s.txns[t].pc == Update
    ensures var x, after := s.txns[t], Apply(s, Act(t, ch));
            && x.cmd.id in s.db.res && var r := s.db.res[x.cmd.id];
            if !Expected(x.cmd.expected, r) then Refused(after, t, VersionConflict)
            else if r.status == (if x.cmd.to == Seated then Confirmed else Seated) then GoesThrough(after, t)
            else Refused(after, t, InvalidTransition)
  {
    AtStatement(s, t, ch);
    SingleRow(s, s.txns[t]);
    assert ProperCommand(s.txns[t].cmd);
    hide Reachable, Enabled, Apply, DbOk, TxnOk;
  }

  lemma MintIsRefusedFor(s: Sys, t: Id, ch: Choice)
    requires Reachable(s) && Enabled(s, Act(t, ch)) && s.txns[t].cmd.Mint? && s.txns[t].pc == Update
    ensures var x, after := s.txns[t], Apply(s, Act(t, ch));
            && x.cmd.id in s.db.res && var r := s.db.res[x.cmd.id];
            if !Expected(x.cmd.expected, r) then Refused(after, t, VersionConflict)
            else if r.token == Some(x.cmd.hash) || (r.status == Held && x.begin < r.expiresAt)
            then GoesThrough(after, t)
            else Refused(after, t, TokenRequiresHeld)
  {
    AtStatement(s, t, ch);
    SingleRow(s, s.txns[t]);
    hide Reachable, Enabled, Apply, DbOk, TxnOk;
  }

  /** A command of one row is refused as not found exactly when its venue has no such reservation; otherwise its first
      statement goes on. */
  lemma UnknownRowsAreNotFound(s: Sys, t: Id, ch: Choice)
    requires Reachable(s) && Enabled(s, Act(t, ch)) && OneRow(s.txns[t].cmd)
    requires s.txns[t].pc == Peek || (s.txns[t].pc == LockRows && s.txns[t].todoRows != [])
    ensures var x, after := s.txns[t], Apply(s, Act(t, ch));
            if x.cmd.id in s.db.res && s.db.res[x.cmd.id].venue == x.venue then t in after.txns
            else Refused(after, t, NotFound)
  {
    AtStatement(s, t, ch);
    FirstStatement(s, s.txns[t]);
    hide Reachable, Enabled, Apply, DbOk, TxnOk;
  }

  lemma FirstStatement(s: Sys, x: Txn)
    requires DbOk(s) && TxnOk(s, x) && OneRow(x.cmd) && (x.pc == Peek || (x.pc == LockRows && x.todoRows != []))
    ensures x.pc == Peek ==> x.cmd.Confirm?
    ensures x.pc == LockRows ==> x.todoRows == [x.cmd.id]
    ensures x.cmd.id in s.db.res ==> Found(s.db.cfg, s.db.res[x.cmd.id].venue, s.db.res[x.cmd.id].asg)
  {
    if x.cmd.id in s.db.res { assert RowOk(s.db.cfg, s.clock, s.db.res[x.cmd.id]); }
  }

  // ----- The batches -----

  /** A hold that is due and that no other transaction has locked. */
  predicate DueAndFree(s: Sys, t: Id, id: Id)
    requires t in s.txns
  {
    && id in s.db.res && s.db.res[id].status == Held && s.db.res[id].expiresAt <= s.txns[t].begin
    && forall o :: o in s.txns && o != t ==> id !in s.txns[o].rowLocks
  }

  /** The sweep takes due holds only, and leaves a free one out only when it has its limit of others at least as
      overdue. */
  lemma SweepTakesTheDue(s: Sys, t: Id, ch: Choice)
    requires Reachable(s) && Enabled(s, Act(t, ch)) && s.txns[t].pc == Sweep
    ensures var after := Apply(s, Act(t, ch));
            && t in after.txns && s.txns[t].cmd.ExpireDue? && var taken := after.txns[t].rowLocks;
            && |taken| <= s.txns[t].cmd.limit
            && (forall id :: id in taken ==> DueAndFree(s, t, id))
            && (forall id :: DueAndFree(s, t, id) && id !in taken ==>
                  |taken| == s.txns[t].cmd.limit
                  && forall d :: d in taken ==> s.db.res[d].expiresAt <= s.db.res[id].expiresAt)
  {
    AtStatement(s, t, ch);
    WorkerPcs(s, s.txns[t]);
    assert SweepPick(s, t, ch.rows) by { hide Free, TxnOk, DbOk; }
    hide Reachable, Enabled, Apply, DbOk, TxnOk;
    assert Apply(s, Act(t, ch)).txns[t].rowLocks == ch.rows;
    assert forall id {:trigger DueAndFree(s, t, id)} :: DueAndFree(s, t, id) <==>
      id in s.db.res && Dead(s.db.res[id], s.txns[t].begin) && Free(s, t, RowLock(id));
    hide Free, DueAndFree;
  }

  /** When the sweep commits, every row it took is expired, its token gone and its units free, with an event each. */
  lemma SweepTakesEffect(s: Sys, t: Id)
    requires Reachable(s) && Enabled(s, Commit(t)) && s.txns[t].cmd.ExpireDue?
    ensures var x, after := s.txns[t], Apply(s, Commit(t)).db;
            && after.res.Keys == s.db.res.Keys && x.rowLocks <= s.db.res.Keys
            && (forall id :: id in s.db.res ==> var r := s.db.res[id];
                  after.res[id] == if id in x.rowLocks
                    then r.(status := Expired, version := r.version + 1, token := None, active := false) else r)
            && (forall id :: id in x.rowLocks ==> s.db.res[id].status == Held && s.db.res[id].expiresAt <= x.begin)
            && after.cfg == s.db.cfg && after.idem == s.db.idem
  {
    AtCommit(s, t);
    SweepIsIdle(s, s.txns[t]);
    hide Reachable, Enabled, Apply, DbOk, TxnOk;
    assert forall id :: id in s.txns[t].rowLocks <==> id in s.txns[t].writes by {
      assert forall id :: id in s.txns[t].writes <==> id in s.txns[t].writes.Keys;
    }
  }

  lemma SweepIsIdle(s: Sys, x: Txn)
    requires TxnOk(s, x) && x.cmd.ExpireDue?
    ensures x.change == None
  {
  }

  /** Retention takes only keys past their purge time and rows published long enough ago, and leaves one out only when
      it has its limit of others at least as old. */
  lemma PurgeTakesTheDue(s: Sys, t: Id, ch: Choice)
    requires Reachable(s) && Enabled(s, Act(t, ch)) && s.txns[t].pc == PurgeDue
    ensures var x, after := s.txns[t], Apply(s, Act(t, ch));
            && t in after.txns && x.cmd.PurgeRetained? && var keys, rows := after.txns[t].keys, after.txns[t].purging;
            && (forall k :: k in keys ==> k in s.db.idem && s.db.idem[k].purgeAt <= x.begin)
            && (forall k :: k in s.db.idem && k !in keys && s.db.idem[k].purgeAt <= x.begin ==>
                  || (exists o :: o in s.txns && o != t && k in s.txns[o].keys)
                  || (|keys| == x.cmd.limit
                      && forall d :: d in keys ==> s.db.idem[d].purgeAt <= s.db.idem[k].purgeAt))
            && (forall e :: e in rows ==> e in x.cmd.published && x.cmd.published[e] <= x.begin - 7 * DAY)
            && (forall e :: e in x.cmd.published && e !in rows && e !in s.db.purged
                            && x.cmd.published[e] <= x.begin - 7 * DAY ==>
                  || (exists o :: o in s.txns && o != t && e in s.txns[o].purging)
                  || (|rows| == x.cmd.limit
                      && forall d :: d in rows ==> x.cmd.published[d] <= x.cmd.published[e]))
  {
    AtStatement(s, t, ch);
    WorkerPcs(s, s.txns[t]);
    assert PurgePick(s, t, ch.keys, ch.events) by { hide KeyDue, EventDue, TxnOk, DbOk; }
    hide Reachable, Enabled, Apply, DbOk, TxnOk;
    PickMeans(s, t, ch.keys, ch.events);
    hide PurgePick;
  }

  lemma PickMeans(s: Sys, t: Id, keys: set<Key>, rows: set<nat>)
    requires t in s.txns && PurgePick(s, t, keys, rows)
    ensures var x := s.txns[t];
            && (forall k :: k in keys ==> k in s.db.idem && s.db.idem[k].purgeAt <= x.begin)
            && (forall k :: k in s.db.idem && k !in keys && s.db.idem[k].purgeAt <= x.begin ==>
                  || (exists o :: o in s.txns && o != t && k in s.txns[o].keys)
                  || (|keys| == x.cmd.limit
                      && forall d :: d in keys ==> s.db.idem[d].purgeAt <= s.db.idem[k].purgeAt))
            && (forall e :: e in rows ==> e in x.cmd.published && x.cmd.published[e] <= x.begin - 7 * DAY)
            && (forall e :: e in x.cmd.published && e !in rows && e !in s.db.purged
                            && x.cmd.published[e] <= x.begin - 7 * DAY ==>
                  || (exists o :: o in s.txns && o != t && e in s.txns[o].purging)
                  || (|rows| == x.cmd.limit
                      && forall d :: d in rows ==> x.cmd.published[d] <= x.cmd.published[e]))
  {
    assert forall k :: Free(s, t, KeyLock(k)) <==> forall o :: o in s.txns && o != t ==> k !in s.txns[o].keys;
    hide Free;
  }

  /** When it commits, exactly what it took is gone. */
  lemma PurgeTakesEffect(s: Sys, t: Id)
    requires Reachable(s) && Enabled(s, Commit(t)) && s.txns[t].cmd.PurgeRetained?
    ensures var x, after := s.txns[t], Apply(s, Commit(t)).db;
            && after.idem == s.db.idem - x.keys && after.purged == s.db.purged + x.purging
            && after.res == s.db.res && after.cfg == s.db.cfg
            && (forall id :: TrailOf(after, id) == TrailOf(s.db, id))
  {
    AtCommit(s, t);
    PurgeIsIdle(s, s.txns[t]);
    CommittedTrails(s, s.txns[t]);
    hide Reachable, Enabled, Apply, DbOk, TxnOk, Justified, TrailOf;
    PurgeDb(s.db, s.txns[t]);
    hide CommitDb;
  }

  lemma PurgeDb(db: Db, x: Txn)
    requires x.cmd.PurgeRetained? && x.change == None && x.writes == map[]
    ensures var b := CommitDb(db, x);
            b.idem == db.idem - x.keys && b.purged == db.purged + x.purging && b.res == db.res && b.cfg == db.cfg
  {
  }

  lemma PurgeIsIdle(s: Sys, x: Txn)
    requires TxnOk(s, x) && x.cmd.PurgeRetained?
    ensures x.change == None && x.writes == map[] && x.events == map[]
  {
  }

  // ----- Admin writes -----

  /** The edit names a row of the venue, if it names one. */
  predicate NamesARow(cfg: Config, venue: Id, e: Edit) {
    match e
    case UpdateUnit(id, _, _, _) => id in cfg.units && cfg.units[id].venue == venue
    case UpdateCombo(id, _) => id in cfg.combos && cfg.combos[id].venue == venue
    case UpdateBlackout(id, _) => id in cfg.blackouts && cfg.blackouts[id].venue == venue
    case _ => true
  }

  /** A new combination has two to six members, distinct units of the venue. */
  ghost predicate MembersFit(cfg: Config, venue: Id, e: Edit) {
    e.CreateCombo? ==>
      && 2 <= |e.members| <= 6 && NoRepeats(e.members)
      && forall m :: m in e.members ==> m in cfg.units && cfg.units[m].venue == venue
  }

  /** Capacities run from at least one upwards, whatever of them the edit gives, and a blackout is not empty. */
  predicate ValuesFit(cfg: Config, e: Edit) {
    match e
    case CreateUnit(lo, hi) => 1 <= lo <= hi
    case CreateCombo(_, lo, hi) => 1 <= lo <= hi
    case UpdateUnit(id, lo, hi, _) =>
      id in cfg.units ==>
        var min := (match lo case Some(v) => v case None => cfg.units[id].capMin);
        var max := (match hi case Some(v) => v case None => cfg.units[id].capMax);
        1 <= min <= max
    case CreateBlackout(during, _) => during.start < during.end
    case _ => true
  }

  lemma {:induction false} DistinctMembers(members: seq<Id>)
    ensures |Elements(members)| <= |members|
    ensures |Elements(members)| == |members| <==> NoRepeats(members)
    decreases |members|
  {
    if members != [] {
      var n := |members| - 1;
      var front, last := members[..n], members[n];
      DistinctMembers(front);
      assert Elements(members) == Elements(front) + {last};
      if last in front {
        var i :| 0 <= i < n && front[i] == last;
        assert Elements(members) == Elements(front);
        assert members[i] == members[n];
      } else {
        assert |Elements(members)| == |Elements(front)| + 1;
        if NoRepeats(front) {
          forall i, j | 0 <= i < j < |members| ensures members[i] != members[j] {
            if j == n { assert front[i] in front; } else { assert front[i] != front[j]; }
          }
        } else {
          var i, j :| 0 <= i < j < |front| && front[i] == front[j];
          assert members[i] == members[j];
        }
      }
    }
  }

  lemma EditFaults(cfg: Config, venue: Id, e: Edit, freshId: Id)
    ensures ChangeOf(cfg, venue, e, freshId).Some? <==>
              NamesARow(cfg, venue, e) && MembersFit(cfg, venue, e) && ValuesFit(cfg, e)
    ensures !NamesARow(cfg, venue, e) ==> EditFault(cfg, venue, e) == NotFound
    ensures NamesARow(cfg, venue, e) && !MembersFit(cfg, venue, e) ==> EditFault(cfg, venue, e) == AssignmentMismatch
    ensures NamesARow(cfg, venue, e) && MembersFit(cfg, venue, e) && !ValuesFit(cfg, e) ==>
              EditFault(cfg, venue, e) == InvalidInput
  {
    if e.CreateCombo? {
      DistinctMembers(e.members);
      assert forall m :: m in e.members <==> m in Elements(e.members);
    }
    hide NoRepeats, InOrder, Elements;
  }

  /** A live reservation by the transaction's clock that the change would put outside the rules. */
  predicate InTheWayOf(s: Sys, t: Id, w: Change, id: Id)
    requires t in s.txns
  {
    && id in s.db.res && s.db.res[id].venue == s.txns[t].venue
    && Live(s.db.res[id], s.txns[t].begin) && Strands(s.db.cfg, w, s.db.res[id])
  }

  /** An edit is refused for a row that is not there, for members or values that do not fit, and for the reservations it
      would strand: without force for any, with force for one that has started or for more than 200. Otherwise the
      write goes on with what was asked. */
  lemma EditIsRefusedFor(s: Sys, t: Id, ch: Choice)
    requires Reachable(s) && Enabled(s, Act(t, ch)) && s.txns[t].cmd.Admin? && s.txns[t].pc == Decide
    ensures var x, after, e := s.txns[t], Apply(s, Act(t, ch)), s.txns[t].cmd.edit;
            if !NamesARow(s.db.cfg, x.venue, e) then Refused(after, t, NotFound)
            else if !MembersFit(s.db.cfg, x.venue, e) then Refused(after, t, AssignmentMismatch)
            else if !ValuesFit(s.db.cfg, e) then Refused(after, t, InvalidInput)
            else exists w :: Asked(s.db.cfg, x.venue, e, w) && Decided(s, after, t, w)
  {
    AtStatement(s, t, ch);
    var x := s.txns[t];
    assert ConfigIssued(s.db.cfg, s.issued);
    EditFaults(s.db.cfg, x.venue, x.cmd.edit, ch.freshId);
    hide Reachable, Enabled, Apply, DbOk, TxnOk, ChangeOf, EditFault, NamesARow, MembersFit, ValuesFit;
    if ChangeOf(s.db.cfg, x.venue, x.cmd.edit, ch.freshId).Some? {
      var w := ChangeOf(s.db.cfg, x.venue, x.cmd.edit, ch.freshId).value;
      DecidedIsAsked(s.db.cfg, x.venue, x.cmd.edit, ch.freshId);
      hide Asked;
      assert Step(s.db, x, ch, s.nextEvent) == DecideMove(s.db, x, ch.freshId);
      DecisionMeans(s, Apply(s, Act(t, ch)), t, ch, w);
      hide Decided, Step;
    }
  }

  ghost function StrandedBy(s: Sys, t: Id, w: Change): set<Id>
    requires t in s.txns
  {
    set id | id in s.db.res && InTheWayOf(s, t, w, id)
  }

  ghost predicate Decided(s: Sys, after: Sys, t: Id, w: Change)
    requires t in s.txns && s.txns[t].cmd.Admin?
  {
    var x, stranded := s.txns[t], StrandedBy(s, t, w);
    if stranded != {} && (!x.cmd.force || |stranded| > 200
                          || exists id :: id in stranded && Begun(s.db.res[id], x.begin))
    then Refused(after, t, Stranding)
    else
      && t in after.txns && after.txns[t].change == Some(w)
      && forall id :: id in after.txns[t].todoRows <==> id in stranded
  }

  predicate Begun(r: Reservation, now: int) {
    r.status == Seated || r.during.start <= now
  }

  lemma DecideCases(db: Db, x: Txn, freshId: Id, w: Change)
    requires x.cmd.Admin? && ChangeOf(db.cfg, x.venue, x.cmd.edit, freshId) == Some(w) && x.todoRows == []
    ensures var stranded := StrandedSet(db, x, w);
            if stranded != {} && (!x.cmd.force || |stranded| > 200
                                  || exists id :: id in stranded && Started(db.res[id], x.begin))
            then DecideMove(db, x, freshId) == Fail(Stranding)
            else
              var m := DecideMove(db, x, freshId);
              && m.Go? && m.x.change == Some(w)
              && m.x.todoRows == (if stranded == {} then [] else InOrder(stranded))
  {
    hide ChangeOf, StrandedSet, GuardLocks, InOrder, Started;
  }

  lemma InOrderHas(ids: set<Id>)
    ensures forall id :: id in InOrder(ids) <==> id in ids
  {
    assert forall id :: id in InOrder(ids) <==> id in Elements(InOrder(ids));
  }

  lemma StrandedAre(s: Sys, t: Id, w: Change)
    requires t in s.txns
    ensures StrandedSet(s.db, s.txns[t], w) == StrandedBy(s, t, w)
  {
    hide Strands, Live;
  }

  lemma DecisionMeans(s: Sys, after: Sys, t: Id, ch: Choice, w: Change)
    requires t in s.txns && s.txns[t].cmd.Admin? && s.txns[t].pc == Decide && s.txns[t].todoRows == []
    requires ChangeOf(s.db.cfg, s.txns[t].venue, s.txns[t].cmd.edit, ch.freshId) == Some(w)
    requires match DecideMove(s.db, s.txns[t], ch.freshId)
             case Go(y) => t in after.txns && after.txns[t] == y
             case End(Failed(c)) => Refused(after, t, c)
             case _ => true
    ensures Decided(s, after, t, w)
  {
    var x := s.txns[t];
    DecideCases(s.db, x, ch.freshId, w);
    StrandedAre(s, t, w);
    InOrderHas(StrandedBy(s, t, w));
    hide ChangeOf, Refused, DecideMove, InOrder, StrandedSet;
  }

  /** The configuration after an edit: one row is new or has every field the edit gives and the stored value of every
      field it leaves out, and every other row stays. */
  ghost predicate EditApplied(a: Config, b: Config, venue: Id, e: Edit) {
    match e
    case CreateUnit(lo, hi) =>
      exists id: Id :: id !in a.units && b == a.(units := a.units[id := Unit(venue, lo, hi, true)])
    case UpdateUnit(id, lo, hi, active) =>
      && id in a.units && a.units[id].venue == venue && id in b.units && b == a.(units := a.units[id := b.units[id]])
      && b.units[id].venue == venue
      && b.units[id].capMin == (match lo case Some(v) => v case None => a.units[id].capMin)
      && b.units[id].capMax == (match hi case Some(v) => v case None => a.units[id].capMax)
      && b.units[id].active == (match active case Some(v) => v case None => a.units[id].active)
    case CreateCombo(members, lo, hi) =>
      exists id: Id, c :: id !in a.combos && b == a.(combos := a.combos[id := c]) &&
          IsNewCombo(c, venue, members, lo, hi)
    case UpdateCombo(id, active) =>
      && id in a.combos && a.combos[id].venue == venue
      && b == a.(combos := a.combos[id := a.combos[id].(
            active := match active case Some(v) => v case None => a.combos[id].active)])
    case CreateBlackout(during, active) =>
      exists id: Id :: id !in a.blackouts && b == a.(blackouts := a.blackouts[id := Blackout(venue, during, active)])
    case UpdateBlackout(id, active) =>
      && id in a.blackouts && a.blackouts[id].venue == venue
      && b == a.(blackouts := a.blackouts[id := a.blackouts[id].(
            active := match active case Some(v) => v case None => a.blackouts[id].active)])
  }

  /** A new combination of these units, active, its members in lock order. */
  ghost predicate IsNewCombo(c: Combo, venue: Id, members: seq<Id>, lo: int, hi: int) {
    && c == Combo(venue, c.members, lo, hi, true)
    && StrictlySorted(c.members) && |c.members| == |members| && forall m :: m in c.members <==> m in members
  }

  lemma AskedIsApplied(a: Config, venue: Id, e: Edit, w: Change)
    requires Asked(a, venue, e, w) && (w.PutCombo? ==> StrictlySorted(w.combo.members))
    ensures EditApplied(a, ApplyChange(a, w), venue, e)
  {
    match e
    case CreateUnit(lo, hi) =>
      assert w.id !in a.units && ApplyChange(a, w) == a.(units := a.units[w.id := Unit(venue, lo, hi, true)]);
    case CreateCombo(members, lo, hi) =>
      assert w.id !in a.combos && ApplyChange(a, w) == a.(combos := a.combos[w.id := w.combo]);
      assert IsNewCombo(w.combo, venue, members, lo, hi);
    case CreateBlackout(during, active) =>
      assert ApplyChange(a, w) == a.(blackouts := a.blackouts[w.id := Blackout(venue, during, active)]);
    case _ =>
  }

  lemma AdminAtCommit(s: Sys, x: Txn)
    requires TxnOk(s, x) && x.cmd.Admin? && x.pc == Ready
    ensures x.change.Some? && StrandedListed(s.db, x, x.change.value) && x.purging == {}
    ensures x.change.value.PutCombo? ==> StrictlySorted(x.change.value.combo.members)
  {
  }

  /** A committed edit does to the configuration what it was asked, and to nothing else in it; and of the reservations
      it cancels exactly the live ones it would strand, all of them, and only with force. */
  lemma AdminTakesEffect(s: Sys, t: Id)
    requires Reachable(s) && Enabled(s, Commit(t)) && s.txns[t].cmd.Admin?
    ensures var x, after := s.txns[t], Apply(s, Commit(t)).db;
            && x.change.Some? && after.cfg == ApplyChange(s.db.cfg, x.change.value)
            && EditApplied(s.db.cfg, after.cfg, x.venue, x.cmd.edit)
            && after.res.Keys == s.db.res.Keys && after.idem == s.db.idem && after.purged == s.db.purged
            && forall id :: id in s.db.res ==> var r := s.db.res[id];
                 if Live(r, x.begin) && Strands(s.db.cfg, x.change.value, r) then
                   x.cmd.force && after.res[id] == r.(status := Cancelled, version := r.version + 1, active := false,
                                                      token := if r.status == Held then None else r.token)
                 else after.res[id] == r
  {
    AtCommit(s, t);
    var x := s.txns[t];
    AdminAtCommit(s, x);
    AskedIsApplied(s.db.cfg, x.venue, x.cmd.edit, x.change.value);
    AdminDb(s.db, x);
    CancelsExactly(s, t);
    hide Reachable, Enabled, Apply, DbOk, TxnOk, CommitDb, EditApplied, Strands, Live, StrandedListed;
    RowsSettled(s, x);
  }

  lemma CancelsExactly(s: Sys, t: Id)
    requires Reachable(s) && t in s.txns && s.txns[t].cmd.Admin? && s.txns[t].pc == Ready && s.txns[t].change.Some?
    requires StrandedListed(s.db, s.txns[t], s.txns[t].change.value)
    ensures forall id :: id in s.db.res ==>
              (id in s.txns[t].writes <==>
                Live(s.db.res[id], s.txns[t].begin) && Strands(s.db.cfg, s.txns[t].change.value, s.db.res[id]))
  {
    var x := s.txns[t];
    forall id | id in s.db.res
      ensures id in x.writes <==> Live(s.db.res[id], x.begin) && Strands(s.db.cfg, x.change.value, s.db.res[id])
    {
      if id in x.writes {
        ForceCancelsOnlyStranded(s, t, id);
      } else {
        assert View(s.db, x, id) == s.db.res[id];
      }
    }
  }

  lemma AdminDb(db: Db, x: Txn)
    requires x.cmd.Admin? && x.change.Some? && x.purging == {}
    ensures var b := CommitDb(db, x);
            && b.cfg == ApplyChange(db.cfg, x.change.value) && b.res == db.res + x.writes && b.idem == db.idem
            && b.purged == db.purged
  {
  }

  lemma RowsSettled(s: Sys, x: Txn)
    requires x.cmd.Admin? && AdminDone(s.db, x) && x.pc == Ready
    ensures (s.db.res + x.writes).Keys == s.db.res.Keys
    ensures forall id :: id in s.db.res ==> var r := s.db.res[id];
              (s.db.res + x.writes)[id] ==
              if id in x.writes then r.(status := Cancelled, version := r.version + 1, active := false,
                                        token := if r.status == Held then None else r.token)
              else r
    ensures x.writes != map[] ==> x.cmd.force
  {
    hide Asked, GuardLocks;
  }

  predicate Tightens(a: Unit, b: Unit) {
    a.capMin != b.capMin || a.capMax != b.capMax || (a.active && !b.active)
  }

  /** By then it holds the locks of its guards: the unit whose capacity changes or that is deactivated, or every member
      of a combination deactivated. */
  lemma GuardLocksAreHeld(s: Sys, t: Id)
    requires Reachable(s) && t in s.txns && s.txns[t].cmd.Admin? && s.txns[t].pc in {Write, Ready}
    ensures s.txns[t].change.Some?
    ensures match s.txns[t].change.value
            case PutUnit(id, u) =>
              id in s.db.cfg.units && Tightens(s.db.cfg.units[id], u) ==> id in s.txns[t].unitLocks
            case PutCombo(id, c) =>
              id in s.db.cfg.combos && s.db.cfg.combos[id].active && !c.active ==>
                forall m :: m in s.db.cfg.combos[id].members ==> m in s.txns[t].unitLocks
            case PutBlackout(_, _) => true
  {
    ReachableIsJustified(s);
    assert Justified(s.db, s.txns[t]) && AdminDone(s.db, s.txns[t]);
    hide Reachable, Justified, Asked;
  }

  // ----- Holds -----

  lemma HoldAtCommit(s: Sys, x: Txn)
    requires DbOk(s) && TxnOk(s, x) && x.cmd.Hold? && x.pc == Ready
    ensures x.keys == {x.cmd.key} && x.cmd.key !in s.db.idem && x.change == None && x.purging == {} && x.response.Some?
    ensures match x.response.value
            case Refused(c) => c in STORED_OUTCOMES && x.writes.Keys <= s.db.res.Keys
            case Granted(id) =>
              && id in x.writes && id !in s.db.res && x.writes.Keys <= s.db.res.Keys + {id}
              && x.writes[id].rows == Elements(Members(s.db.cfg, x.writes[id].asg))
  {
    NewRowIsMade(s, x);
    if x.response.value.Granted? {
      var id := x.response.value.id;
      assert WriteOk(s.db, s.clock, x, id, x.writes[id]);
    }
  }

  /** Committed rows stay as they are or are dead holds that have been expired. */
  ghost predicate OnlyDeadExpired(a: map<Id, Reservation>, b: map<Id, Reservation>, now: int) {
    forall id :: id in a ==>
      && id in b
      && (b[id] == a[id]
          || (a[id].status == Held && a[id].expiresAt <= now
              && b[id] == a[id].(status := Expired, version := a[id].version + 1, token := None, active := false)))
  }

  ghost predicate OutcomeStored(a: Db, b: Db, x: Txn)
    requires x.cmd.Hold?
  {
    && x.response.Some? && x.cmd.key !in a.idem
    && b.idem == a.idem[x.cmd.key := IdemRow(x.cmd.hash, x.response, x.begin + DAY)]
    && match x.response.value
       case Refused(c) => c in {HoldConflict, PartyDoesNotFit, InBlackout} && b.res.Keys == a.res.Keys
       case Granted(id) =>
         && id !in a.res && b.res.Keys == a.res.Keys + {id}
         && b.res[id] == Reservation(
              x.venue, x.cmd.party, x.cmd.during, x.cmd.asg, x.begin + HoldTtl(a.cfg, x.venue),
              x.cmd.key.actor, Held, 1, None, Elements(Members(a.cfg, x.cmd.asg)), true)
  }

  /** A committed hold has stored its outcome under its key for a day. It has booked what was asked, or nothing at all
      for one of the three refusals that are stored; and of the other rows it has expired some dead holds. */
  lemma HoldTakesEffect(s: Sys, t: Id)
    requires Reachable(s) && Enabled(s, Commit(t)) && s.txns[t].cmd.Hold?
    ensures var x, after := s.txns[t], Apply(s, Commit(t)).db;
            && OutcomeStored(s.db, after, x) && OnlyDeadExpired(s.db.res, after.res, x.begin)
            && after.cfg == s.db.cfg && after.purged == s.db.purged
  {
    AtCommit(s, t);
    HoldAtCommit(s, s.txns[t]);
    hide Reachable, Enabled, Apply, DbOk, TxnOk, CommitDb, OutcomeStored, OnlyDeadExpired;
    HoldCommits(s.db, s.txns[t]);
  }

  lemma HoldCommits(db: Db, x: Txn)
    requires x.cmd.Hold? && Justified(db, x) && x.response.Some?
    requires x.keys == {x.cmd.key} && x.cmd.key !in db.idem && x.change == None && x.purging == {}
    requires match x.response.value
             case Refused(c) => c in STORED_OUTCOMES && x.writes.Keys <= db.res.Keys
             case Granted(id) =>
               && id in x.writes && id !in db.res && x.writes.Keys <= db.res.Keys + {id}
               && x.writes[id].rows == Elements(Members(db.cfg, x.writes[id].asg))
    ensures var after := CommitDb(db, x);
            && OutcomeStored(db, after, x) && OnlyDeadExpired(db.res, after.res, x.begin)
            && after.cfg == db.cfg && after.purged == db.purged
  {
    HoldDb(db, x);
    hide CommitDb;
    assert HoldDone(db, x);
    hide Justified;
    HoldRows(db, x);
    HoldOutcome(db, x);
    if x.response.value.Granted? { assert x.writes[x.response.value.id].asg == x.cmd.asg; }
    hide HoldDone, OnlyDeadExpired, Elements, HoldTtl;
  }

  lemma HoldRows(db: Db, x: Txn)
    requires x.cmd.Hold? && HoldDone(db, x)
    ensures OnlyDeadExpired(db.res, db.res + x.writes, x.begin)
  {
    hide HoldTtl;
  }

  lemma HoldOutcome(db: Db, x: Txn)
    requires x.cmd.Hold? && HoldDone(db, x) && x.response.Some?
    ensures match x.response.value
            case Refused(c) => x.writes.Keys <= db.res.Keys ==> (db.res + x.writes).Keys == db.res.Keys
            case Granted(id) =>
              id in x.writes && id !in db.res && x.writes.Keys <= db.res.Keys + {id} ==>
                && (db.res + x.writes).Keys == db.res.Keys + {id}
                && (db.res + x.writes)[id] == Reservation(
                     x.venue, x.cmd.party, x.cmd.during, x.cmd.asg, x.begin + HoldTtl(db.cfg, x.venue),
                     x.cmd.key.actor, Held, 1, None, x.writes[id].rows, true)
  {
  }

  lemma HoldDb(db: Db, x: Txn)
    requires x.cmd.Hold? && x.change == None && x.purging == {} && x.keys == {x.cmd.key}
    ensures var b := CommitDb(db, x);
            && b.cfg == db.cfg && b.res == db.res + x.writes && b.purged == db.purged
            && b.idem == db.idem[x.cmd.key := IdemRow(x.cmd.hash, x.response, x.begin + DAY)]
  {
  }
}
