/** A hold statement by statement, on a database no other transaction is using, against what a hold means. */
module HoldAlone {
  import opened Sorting
  import opened Domain
  import opened Protocol
  import opened Invariants
  import opened Reachability
  import opened Guarantees

  // ----- What a hold means -----

  /** The actor's live holds in the venue at `now`. */
  function LiveHoldsAt(db: Db, now: int, k: Key): set<Id> {
    set id | id in db.res && db.res[id].venue == k.venue && db.res[id].createdBy == k.actor
             && db.res[id].status == Held && db.res[id].expiresAt > now
  }

  function CapOf(db: Db, venue: Id): int {
    if venue in db.cfg.venues then db.cfg.venues[venue].maxLiveHolds else 0
  }

  function TtlOf(db: Db, venue: Id): int {
    if venue in db.cfg.venues then db.cfg.venues[venue].holdTtl else 0
  }

  function UnitsOf(db: Db, cmd: Command): set<Id>
    requires cmd.Hold?
  {
    Elements(Members(db.cfg, cmd.asg))
  }

  /** The reservations in the way of a booking, dead holds included. */
  function Obstacles(db: Db, cmd: Command): set<Id>
    requires cmd.Hold?
  {
    set id | id in db.res && InTheWay(db.res[id], UnitsOf(db, cmd), cmd.during)
  }

  function DeadObstacles(db: Db, now: int, cmd: Command): set<Id>
    requires cmd.Hold?
  {
    set id | id in Obstacles(db, cmd) && Dead(db.res[id], now)
  }

  /** The answer to a hold that finds its key unclaimed; None stands for a booking. */
  function Judgement(db: Db, now: int, cmd: Command): Option<Code>
    requires cmd.Hold?
  {
    if !Found(db.cfg, cmd.key.venue, cmd.asg) then Some(PartyDoesNotFit)
    else if !FlaggedActive(db.cfg, cmd.asg) then Some(AssignmentInactive)
    else if |LiveHoldsAt(db, now, cmd.key)| >= CapOf(db, cmd.key.venue) then Some(TooManyLiveHolds)
    else if |Obstacles(db, cmd)| > OVERLAP_SET then Some(OverlapSetTooLarge)
    else GuardJudgement(db, now, cmd)
  }

  /** What the guards, the duration check and the exclusion constraint would say. */
  function GuardJudgement(db: Db, now: int, cmd: Command): Option<Code>
    requires cmd.Hold?
  {
    if BlackedOut(db.cfg, cmd.key.venue, cmd.during) then Some(InBlackout)
    else if !Found(db.cfg, cmd.key.venue, cmd.asg) then Some(PartyDoesNotFit)
    else if !Usable(db.cfg, cmd.asg) then Some(AssignmentInactive)
    else if !Fits(db.cfg, NewRow(db, now, cmd)) then Some(PartyDoesNotFit)
    else if !(SHORTEST <= cmd.during.end - cmd.during.start <= LONGEST) then Some(DurationOutOfRange)
    else if Obstacles(db, cmd) != DeadObstacles(db, now, cmd) then Some(HoldConflict)
    else None
  }

  function NewRow(db: Db, now: int, cmd: Command): Reservation
    requires cmd.Hold?
  {
    Reservation(cmd.key.venue, cmd.party, cmd.during, cmd.asg, now + TtlOf(db, cmd.key.venue), cmd.key.actor, Held, 1,
                None, UnitsOf(db, cmd), true)
  }

  /** The rows after a hold reached its insert: dead holds in the way are expired, and a booking adds its row. */
  function RowsAfter(db: Db, now: int, cmd: Command, made: Option<Id>): map<Id, Reservation>
    requires cmd.Hold?
  {
    var cleared := map id | id in db.res ::
                     if id in DeadObstacles(db, now, cmd) then WithStatus(db.res[id], Expired) else db.res[id];
    if made.Some? then cleared[made.value := NewRow(db, now, cmd)] else cleared
  }

  /** The whole effect of a hold: what is answered, and what is left in the database. */
  ghost predicate HoldMeans(db: Db, now: int, cmd: Command, o: Outcome, after: Db)
    requires cmd.Hold?
  {
    if cmd.key in db.idem then
      && after == db
      && o == (if db.idem[cmd.key].hash != cmd.hash then Failed(IdempotencyMismatch)
               else match db.idem[cmd.key].response
                    case Some(r) => Answered(r, true)
                    case None => Failed(SerializationConflict))
    else match Judgement(db, now, cmd)
      case Some(c) =>
        if c in {HoldConflict, PartyDoesNotFit, InBlackout} then
          && o == Answered(Refused(c), false)
          && Stores(db, now, cmd, Refused(c), after)
          && (Found(db.cfg, cmd.key.venue, cmd.asg) ==> after.res == RowsAfter(db, now, cmd, None))
          && (!Found(db.cfg, cmd.key.venue, cmd.asg) ==> after.res == db.res)
        else o == Failed(c) && after == db
      case None =>
        exists id :: Books(db, now, cmd, id, o, after)
  }

  ghost predicate Books(db: Db, now: int, cmd: Command, id: Id, o: Outcome, after: Db)
    requires cmd.Hold?
  {
    && id !in db.res
    && o == Answered(Granted(id), false)
    && Stores(db, now, cmd, Granted(id), after)
    && after.res == RowsAfter(db, now, cmd, Some(id))
  }

  /** The outcome is stored under the key, and the configuration is untouched. */
  ghost predicate Stores(db: Db, now: int, cmd: Command, r: Response, after: Db)
    requires cmd.Hold?
  {
    && after.cfg == db.cfg
    && after.idem == db.idem[cmd.key := IdemRow(cmd.hash, Some(r), now + 24 * HOUR)]
  }

  // ----- The session -----

  function NextChoice(s: Sys): Choice {
    Choice(FreshId(s.issued), {}, {}, {})
  }

  /** The transaction at its next statement. */
  function Mine(s: Sys, t: Id): Txn
    requires t in s.txns
  {
    s.txns[t]
  }

  /** Only `t` is open, on an unchanged database; its begin time is the clock. */
  ghost predicate Alone(s: Sys, t: Id, db: Db, now: int, cmd: Command) {
    && Inv(s) && s.txns.Keys == {t} && t !in s.results && s.db == db && s.clock == now
    && Mine(s, t).begin == now && Mine(s, t).cmd == cmd && cmd.Hold? && Mine(s, t).venue == cmd.key.venue
  }

  ghost predicate At(s: Sys, t: Id, db: Db, now: int, cmd: Command, pc: PC) {
    Alone(s, t, db, now, cmd) && Mine(s, t).pc == pc
  }

  lemma HoldFacts(s: Sys, t: Id, db: Db, now: int, cmd: Command)
    requires Alone(s, t, db, now, cmd)
    ensures DbOk(s) && TxnOk(s, Mine(s, t)) && HoldOk(db, Mine(s, t))
  {
    assert CommandOk(db, s.issued, Mine(s, t));
  }

  /** Once the lock loop is done the locked units are the assignment's. */
  lemma UnitsAreLocked(s: Sys, t: Id, db: Db, now: int, cmd: Command)
    requires Alone(s, t, db, now, cmd) && Mine(s, t).pc in {CheckCap, ReadOverlap, LockRows, ClearDead, Insert}
    ensures Mine(s, t).unitLocks == UnitsOf(db, cmd)
  {
    HoldFacts(s, t, db, now, cmd);
    hide DbOk, TxnOk;
  }

  /** The overlap read, bound to the venue, misses nothing: rows of other venues use other units. */
  lemma OverlapReadIsComplete(s: Sys, t: Id, db: Db, now: int, cmd: Command)
    requires At(s, t, db, now, cmd, ReadOverlap)
    ensures OverlapSet(db, cmd.key.venue, Mine(s, t).unitLocks, cmd.during) == Obstacles(db, cmd)
  {
    HoldFacts(s, t, db, now, cmd);
    UnitsAreLocked(s, t, db, now, cmd);
    forall id | id in Obstacles(db, cmd) ensures db.res[id].venue == cmd.key.venue {
      assert RowOk(db.cfg, s.clock, db.res[id]);
      var u :| u in db.res[id].rows && u in UnitsOf(db, cmd);
      assert u in Members(db.cfg, db.res[id].asg);
      assert u in Mine(s, t).unitLocks;
    }
  }

  /** While it locks rows, a hold has listed the obstacles, and noted those of the locked ones that are dead. */
  ghost predicate Listing(db: Db, now: int, cmd: Command, x: Txn)
    requires cmd.Hold?
  {
    && Untouched(x)
    && (forall id :: id in x.todoRows ==> id in Obstacles(db, cmd) && db.res[id].venue == cmd.key.venue)
    && (forall id :: id in x.toExpire ==> id in DeadObstacles(db, now, cmd))
  }

  function Expiries(db: Db, now: int, cmd: Command): map<Id, Reservation>
    requires cmd.Hold?
  {
    map id | id in DeadObstacles(db, now, cmd) :: WithStatus(db.res[id], Expired)
  }

  /** What has been written is the expiry of dead obstacles. */
  ghost predicate Clearing(db: Db, now: int, cmd: Command, x: Txn)
    requires cmd.Hold?
  {
    && (forall id :: id in x.toExpire ==> id in DeadObstacles(db, now, cmd))
    && (forall id :: id in x.writes ==>
          id in DeadObstacles(db, now, cmd) && x.writes[id] == WithStatus(db.res[id], Expired))
  }

  lemma ClearedOne(db: Db, now: int, cmd: Command, x: Txn, eventId: nat)
    requires cmd.Hold? && Clearing(db, now, cmd, x) && x.pc == ClearDead && x.begin == now && x.toExpire != []
    ensures ClearDeadMove(db, x, eventId).Go? && Clearing(db, now, cmd, ClearDeadMove(db, x, eventId).x)
  {
    assert x.toExpire[0] in DeadObstacles(db, now, cmd);
  }

  lemma NoneLeftToClear(db: Db, now: int, cmd: Command, x: Txn, eventId: nat)
    requires cmd.Hold? && Clearing(db, now, cmd, x) && x.pc == ClearDead && x.toExpire == []
    ensures ClearDeadMove(db, x, eventId) == Go(x.(pc := Insert)) && Clearing(db, now, cmd, x.(pc := Insert))
  {
  }

  /** By the insert every dead obstacle has been cleared. */
  lemma AllCleared(s: Sys, t: Id, db: Db, now: int, cmd: Command)
    requires At(s, t, db, now, cmd, Insert) && Clearing(db, now, cmd, Mine(s, t))
    ensures Mine(s, t).writes == Expiries(db, now, cmd)
  {
    HoldFacts(s, t, db, now, cmd);
    UnitsAreLocked(s, t, db, now, cmd);
    AllClearedAt(db, now, cmd, Mine(s, t));
  }

  lemma AllClearedAt(db: Db, now: int, cmd: Command, x: Txn)
    requires cmd.Hold? && x.cmd == cmd && x.begin == now && x.pc == Insert && x.unitLocks == UnitsOf(db, cmd)
    requires HoldOk(db, x) && Clearing(db, now, cmd, x)
    ensures x.writes == Expiries(db, now, cmd)
  {
    forall id | id in DeadObstacles(db, now, cmd) ensures id in x.writes {
      assert id in x.rowLocks;
    }
  }

  lemma GuardsJudge(s: Sys, t: Id, db: Db, now: int, cmd: Command)
    requires At(s, t, db, now, cmd, Insert)
    ensures Verdict(db, Mine(s, t)) == GuardJudgement(db, now, cmd)
    ensures Booking(db, Mine(s, t)) == NewRow(db, now, cmd)
  {
    HoldFacts(s, t, db, now, cmd);
    UnitsAreLocked(s, t, db, now, cmd);
    ExcludedMeans(s, Mine(s, t));
    ObstaclesLeft(db, now, cmd, Mine(s, t));
    VerdictAgrees(db, now, cmd, Mine(s, t));
  }

  lemma VerdictAgrees(db: Db, now: int, cmd: Command, x: Txn)
    requires cmd.Hold? && x.cmd == cmd && x.begin == now && x.venue == cmd.key.venue && x.unitLocks == UnitsOf(db, cmd)
    requires Excluded(db, x, x.unitLocks, cmd.during) <==> Obstacles(db, cmd) != DeadObstacles(db, now, cmd)
    ensures Verdict(db, x) == GuardJudgement(db, now, cmd) && Booking(db, x) == NewRow(db, now, cmd)
  {
    hide Excluded, Obstacles, DeadObstacles, BlackedOut, Usable, Found;
  }

  lemma ObstaclesLeft(db: Db, now: int, cmd: Command, x: Txn)
    requires cmd.Hold? && x.unitLocks == UnitsOf(db, cmd) && x.begin == now
    ensures Obstacles(db, cmd) != DeadObstacles(db, now, cmd) <==>
            exists id :: id in db.res && InTheWay(db.res[id], x.unitLocks, cmd.during) && !Dead(db.res[id], x.begin)
  {
    if id :| id in db.res && InTheWay(db.res[id], x.unitLocks, cmd.during) && !Dead(db.res[id], x.begin) {
      assert id in Obstacles(db, cmd) && id !in DeadObstacles(db, now, cmd);
    }
    if forall id :: id in db.res && InTheWay(db.res[id], x.unitLocks, cmd.during) ==> Dead(db.res[id], x.begin) {
      assert Obstacles(db, cmd) == DeadObstacles(db, now, cmd);
    }
  }

  /** The hold is over and meant what it should. */
  ghost predicate Done(s: Sys, t: Id, db: Db, now: int, cmd: Command)
    requires cmd.Hold?
  {
    s.txns == map[] && t in s.results && HoldMeans(db, now, cmd, s.results[t], s.db)
  }

  lemma ReplayMeans(db: Db, now: int, cmd: Command, x: Txn)
    requires cmd.Hold? && x.cmd == cmd && cmd.key in db.idem
    ensures ReadExistingMove(db, x).End? && HoldMeans(db, now, cmd, ReadExistingMove(db, x).outcome, db)
  {
  }

  lemma FailureMeans(db: Db, now: int, cmd: Command, c: Code)
    requires cmd.Hold? && cmd.key !in db.idem && Judgement(db, now, cmd) == Some(c) && c !in STORED_OUTCOMES
    ensures HoldMeans(db, now, cmd, Failed(c), db)
  {
    hide Judgement;
  }

  /** A commit with a stored outcome. */
  lemma RefusalMeans(db: Db, now: int, cmd: Command, x: Txn, c: Code)
    requires cmd.Hold? && x.cmd == cmd && x.begin == now && cmd.key !in db.idem && x.keys == {cmd.key}
    requires Judgement(db, now, cmd) == Some(c) && c in STORED_OUTCOMES && x.response == Some(Refused(c))
        && x.change == None
    requires x.writes == if Found(db.cfg, cmd.key.venue, cmd.asg) then Expiries(db, now, cmd) else map[]
    ensures HoldMeans(db, now, cmd, CommitOutcome(x), CommitDb(db, x))
  {
    hide Judgement, Found, DeadObstacles;
    assert CommitDb(db, x).res == db.res + x.writes;
    assert Found(db.cfg, cmd.key.venue, cmd.asg) ==> db.res + x.writes == RowsAfter(db, now, cmd, None) by {
      ClearedRows(db, now, cmd);
    }
    assert db.res + map[] == db.res;
  }

  lemma ClearedRows(db: Db, now: int, cmd: Command)
    requires cmd.Hold?
    ensures db.res + Expiries(db, now, cmd) == RowsAfter(db, now, cmd, None)
  {
    assert DeadObstacles(db, now, cmd) <= db.res.Keys;
    hide DeadObstacles;
  }

  lemma BookingMeans(db: Db, now: int, cmd: Command, x: Txn, id: Id)
    requires cmd.Hold? && x.cmd == cmd && x.begin == now && cmd.key !in db.idem && x.keys == {cmd.key}
    requires Judgement(db, now, cmd) == None && x.response == Some(Granted(id)) && x.change == None && id !in db.res
    requires x.writes == Expiries(db, now, cmd)[id := NewRow(db, now, cmd)]
    ensures HoldMeans(db, now, cmd, CommitOutcome(x), CommitDb(db, x))
  {
    hide Judgement, DeadObstacles;
    ClearedRows(db, now, cmd);
    assert CommitDb(db, x).res == db.res + x.writes;
    assert db.res + x.writes == RowsAfter(db, now, cmd, Some(id));
    assert Books(db, now, cmd, id, CommitOutcome(x), CommitDb(db, x));
  }

  /** At the end of a hold: its key is claimed and it changes no configuration. */
  lemma ReadyFacts(s: Sys, t: Id, db: Db, now: int, cmd: Command)
    requires At(s, t, db, now, cmd, Ready)
    ensures Mine(s, t).keys == {cmd.key} && Mine(s, t).change == None
  {
    HoldFacts(s, t, db, now, cmd);
    hide DbOk, TxnOk, AnswerOk;
  }

  lemma NothingWritten(s: Sys, t: Id, db: Db, now: int, cmd: Command)
    requires Alone(s, t, db, now, cmd) && Mine(s, t).pc in {Resolve, CheckCap, ReadOverlap}
    ensures Untouched(Mine(s, t)) && Mine(s, t).toExpire == []
  {
    HoldFacts(s, t, db, now, cmd);
    hide DbOk, TxnOk;
  }

  lemma ObstaclesListed(db: Db, now: int, cmd: Command, venue: Id, units: set<Id>, todo: seq<Id>)
    requires cmd.Hold? && venue == cmd.key.venue && OverlapSet(db, venue, units, cmd.during) == Obstacles(db, cmd)
    requires todo == InOrder(Obstacles(db, cmd))
    ensures forall id :: id in todo ==> id in Obstacles(db, cmd) && db.res[id].venue == venue
  {
    forall id | id in todo ensures id in Obstacles(db, cmd) && db.res[id].venue == venue {
      assert id in Elements(todo);
      assert id in OverlapSet(db, venue, units, cmd.during);
    }
  }

  /** The checks before the insert that a hold has passed. */
  predicate PassedLimits(db: Db, now: int, cmd: Command)
    requires cmd.Hold?
  {
    && Found(db.cfg, cmd.key.venue, cmd.asg) && FlaggedActive(db.cfg, cmd.asg)
    && |LiveHoldsAt(db, now, cmd.key)| < CapOf(db, cmd.key.venue)
    && |Obstacles(db, cmd)| <= OVERLAP_SET
  }

  lemma SameLiveHolds(db: Db, now: int, cmd: Command, x: Txn)
    requires cmd.Hold? && x.cmd == cmd && x.begin == now && x.venue == cmd.key.venue
    ensures LiveHolds(db, x, cmd.key.actor) == LiveHoldsAt(db, now, cmd.key)
  {
  }

  lemma ListedNothingWritten(db: Db, now: int, cmd: Command, x: Txn)
    requires cmd.Hold? && Listing(db, now, cmd, x)
    ensures Clearing(db, now, cmd, x)
  {
  }

  lemma FreshForRows(s: Sys)
    requires Inv(s)
    ensures NextChoice(s).freshId !in s.db.res
  {
  }

  class Session {
    var sys: Sys
    const t: Id
    /** The state the session started from and all it has done since. */
    ghost const origin: Sys
    ghost var acts: seq<Action>

    ghost predicate Valid()
      reads this
    {
      Executable(origin, acts) && sys == Run(origin, acts)
    }

    constructor (s: Sys, t: Id)
      ensures Valid() && sys == s && origin == s && this.t == t
    {
      sys, this.t, origin, acts := s, t, s, [];
    }

    method Do(a: Action)
      requires Valid() && Inv(sys) && Enabled(sys, a)
      modifies this
      ensures Valid() && Inv(sys) && sys == Apply(old(sys), a)
    {
      ActionKeeps(sys, a);
      RunExtends(origin, acts, a);
      sys := Apply(sys, a);
      acts := acts + [a];
    }

    /** One statement of the only open transaction: nothing can make it wait. */
    method Statement(ghost db: Db, ghost now: int, ghost cmd: Command)
      requires Valid() && Alone(sys, t, db, now, cmd) && Mine(sys, t).pc !in {Ready, Sweep, PurgeDue}
      modifies this
      ensures Valid()
      ensures After(old(sys), t, db, now, cmd, sys)
    {
      AloneMoves(sys, t, db, now, cmd);
      hide Inv, Enabled, Apply, Alone, After;
      Do(Act(t, NextChoice(sys)));
    }

    method Open(cmd: Command)
      requires Valid() && Inv(sys) && sys.txns == map[] && t !in sys.results && cmd.Hold?
      modifies this
      ensures Valid() && Alone(sys, t, old(sys).db, old(sys).clock, cmd)
      ensures Mine(sys, t) == Opened(old(sys).clock, cmd.key.venue, cmd)
    {
      Do(Begin(t, cmd.key.venue, cmd));
    }

    method Finish(ghost db: Db, ghost now: int, ghost cmd: Command)
      requires Valid() && Alone(sys, t, db, now, cmd) && Mine(sys, t).pc == Ready
      modifies this
      ensures Valid() && Over(sys, t, CommitOutcome(Mine(old(sys), t)))
      ensures sys.db == CommitDb(db, Mine(old(sys), t))
    {
      AloneCommits(sys, t, db, now, cmd);
      hide Inv, Enabled, Apply, Alone, Over, CommitDb;
      Do(Commit(t));
    }

    method LockVenueAndUnits(ghost db: Db, ghost now: int, ghost cmd: Command)
      requires Valid() && At(sys, t, db, now, cmd, LockVenue)
      modifies this
      ensures Valid() && At(sys, t, db, now, cmd, CheckCap)
    {
      hide Inv, InOrder, NextChoice, Run, Executable;
      Statement(db, now, cmd);
      while Mine(sys, t).todoUnits != []
        invariant Valid() && At(sys, t, db, now, cmd, LockUnits)
        decreases |Mine(sys, t).todoUnits|
      {
        Statement(db, now, cmd);
      }
      Statement(db, now, cmd);
    }

    method LockObstacles(ghost db: Db, ghost now: int, ghost cmd: Command)
      requires Valid() && At(sys, t, db, now, cmd, LockRows) && Listing(db, now, cmd, Mine(sys, t))
      modifies this
      ensures Valid() && At(sys, t, db, now, cmd, ClearDead) && Listing(db, now, cmd, Mine(sys, t))
    {
      hide Inv, InOrder, NextChoice, Run, Executable;
      while Mine(sys, t).todoRows != []
        invariant Valid() && At(sys, t, db, now, cmd, LockRows) && Listing(db, now, cmd, Mine(sys, t))
        decreases |Mine(sys, t).todoRows|
      {
        assert Mine(sys, t).todoRows[0] in Obstacles(db, cmd);
        Statement(db, now, cmd);
      }
      Statement(db, now, cmd);
    }

    method ExpireDead(ghost db: Db, ghost now: int, ghost cmd: Command)
      requires Valid() && At(sys, t, db, now, cmd, ClearDead) && Clearing(db, now, cmd, Mine(sys, t))
      modifies this
      ensures Valid() && At(sys, t, db, now, cmd, Insert) && Clearing(db, now, cmd, Mine(sys, t))
    {
      hide Inv, InOrder, NextChoice, Run, Executable, Clearing;
      while Mine(sys, t).toExpire != []
        invariant Valid() && At(sys, t, db, now, cmd, ClearDead) && Clearing(db, now, cmd, Mine(sys, t))
        decreases |Mine(sys, t).toExpire|
      {
        ClearedOne(db, now, cmd, Mine(sys, t), sys.nextEvent);
        Statement(db, now, cmd);
      }
      NoneLeftToClear(db, now, cmd, Mine(sys, t), sys.nextEvent);
      Statement(db, now, cmd);
    }

    /** Claims the key, or answers from the row that has it. */
    method ClaimKey(ghost db: Db, ghost now: int, ghost cmd: Command) returns (done: bool)
      requires Valid() && At(sys, t, db, now, cmd, Claim)
      modifies this
      ensures Valid()
      ensures if done then Done(sys, t, db, now, cmd) else At(sys, t, db, now, cmd, Resolve) && cmd.key !in db.idem
    {
      hide Inv, InOrder, NextChoice, Run, Executable, HoldMeans, ReadExistingMove;
      Statement(db, now, cmd);
      done := Mine(sys, t).pc == ReadExisting;
      if done {
        ReplayMeans(db, now, cmd, Mine(sys, t));
        Statement(db, now, cmd);
      }
    }

    /** Resolves the assignment; a missing one is stored as the outcome, an inactive one ends the hold. */
    method ResolveAssignment(ghost db: Db, ghost now: int, ghost cmd: Command) returns (done: bool)
      requires Valid() && At(sys, t, db, now, cmd, Resolve) && cmd.key !in db.idem
      modifies this
      ensures Valid()
      ensures if done then Done(sys, t, db, now, cmd)
              else && At(sys, t, db, now, cmd, LockVenue)
                   && Found(db.cfg, cmd.key.venue, cmd.asg) && FlaggedActive(db.cfg, cmd.asg)
    {
      hide Inv, InOrder, NextChoice, Run, Executable, HoldMeans, GuardJudgement, CommitDb;
      NothingWritten(sys, t, db, now, cmd);
      Statement(db, now, cmd);
      if t in sys.results {
        FailureMeans(db, now, cmd, AssignmentInactive);
        return true;
      }
      done := Mine(sys, t).pc == Ready;
      if done {
        ReadyFacts(sys, t, db, now, cmd);
        RefusalMeans(db, now, cmd, Mine(sys, t), PartyDoesNotFit);
        Finish(db, now, cmd);
      }
    }

    /** The live-holds cap, then the overlap read with its bound. */
    method CheckLimits(ghost db: Db, ghost now: int, ghost cmd: Command) returns (done: bool)
      requires Valid() && At(sys, t, db, now, cmd, CheckCap) && cmd.key !in db.idem
      requires Found(db.cfg, cmd.key.venue, cmd.asg) && FlaggedActive(db.cfg, cmd.asg)
      modifies this
      ensures Valid()
      ensures if done then Done(sys, t, db, now, cmd)
              else && At(sys, t, db, now, cmd, LockRows)
                   && Listing(db, now, cmd, Mine(sys, t)) && PassedLimits(db, now, cmd)
    {
      hide Inv, InOrder, NextChoice, Run, Executable, HoldMeans, GuardJudgement, LiveHolds, LiveHoldsAt, OverlapSet,
          Obstacles, Found, FlaggedActive;
      SameLiveHolds(db, now, cmd, Mine(sys, t));
      Statement(db, now, cmd);
      if t in sys.results {
        FailureMeans(db, now, cmd, TooManyLiveHolds);
        return true;
      }
      OverlapReadIsComplete(sys, t, db, now, cmd);
      NothingWritten(sys, t, db, now, cmd);
      ghost var units := Mine(sys, t).unitLocks;
      Statement(db, now, cmd);
      if t in sys.results {
        FailureMeans(db, now, cmd, OverlapSetTooLarge);
        return true;
      }
      ObstaclesListed(db, now, cmd, cmd.key.venue, units, Mine(sys, t).todoRows);
      return false;
    }

    /** The booking under its savepoint, and the commit. */
    method Book(ghost db: Db, ghost now: int, ghost cmd: Command)
      requires Valid() && At(sys, t, db, now, cmd, Insert) && Clearing(db, now, cmd, Mine(sys, t))
      requires cmd.key !in db.idem && PassedLimits(db, now, cmd)
      modifies this
      ensures Valid() && Done(sys, t, db, now, cmd)
    {
      hide Inv, InOrder, NextChoice, Run, Executable, HoldMeans, GuardJudgement, LiveHoldsAt, Obstacles, Found,
          FlaggedActive,
           Verdict, Booking, NewRow, Expiries, Clearing, CommitDb;
      AllCleared(sys, t, db, now, cmd);
      GuardsJudge(sys, t, db, now, cmd);
      assert Judgement(db, now, cmd) == GuardJudgement(db, now, cmd);
      ghost var id := NextChoice(sys).freshId;
      FreshForRows(sys);
      Statement(db, now, cmd);
      if t in sys.results {
        FailureMeans(db, now, cmd, GuardJudgement(db, now, cmd).value);
        return;
      }
      ReadyFacts(sys, t, db, now, cmd);
      if GuardJudgement(db, now, cmd).Some? {
        RefusalMeans(db, now, cmd, Mine(sys, t), GuardJudgement(db, now, cmd).value);
      } else {
        BookingMeans(db, now, cmd, Mine(sys, t), id);
      }
      Finish(db, now, cmd);
    }

    /** A whole attempt: claim, resolve, lock, clear, book, store, commit. Run with nobody else about, it does to the
        database exactly what a hold means. */
    method AttemptHold(cmd: Command) returns (o: Outcome)
      requires Valid() && Inv(sys) && sys.txns == map[] && t !in sys.results && cmd.Hold?
      modifies this
      ensures Valid()
      ensures Over(sys, t, o) && HoldMeans(old(sys).db, old(sys).clock, cmd, o, sys.db)
    {
      hide Inv, InOrder, NextChoice, Run, Executable, HoldMeans, Judgement, Listing, Clearing, PassedLimits, Found,
          FlaggedActive;
      ghost var db, now := sys.db, sys.clock;
      Open(cmd);
      var done := ClaimKey(db, now, cmd);
      if done { return sys.results[t]; }
      done := ResolveAssignment(db, now, cmd);
      if done { return sys.results[t]; }
      LockVenueAndUnits(db, now, cmd);
      done := CheckLimits(db, now, cmd);
      if done { return sys.results[t]; }
      LockObstacles(db, now, cmd);
      ListedNothingWritten(db, now, cmd, Mine(sys, t));
      ExpireDead(db, now, cmd);
      Book(db, now, cmd);
      o := sys.results[t];
    }

    /** An attempt the database rolls back, as it does the victim of a deadlock or a serialization failure: after the
        given number of statements, or after its last one if it has fewer. Whatever locks it held and versions it had
        written, nothing is left of it. */
    method RollBack(cmd: Command, statements: nat)
      requires Valid() && Inv(sys) && sys.txns == map[] && t !in sys.results && cmd.Hold?
      modifies this
      ensures Valid() && Inv(sys) && Over(sys, t, Failed(Aborted))
      ensures sys.db == old(sys).db && sys.clock == old(sys).clock
    {
      hide Inv, InOrder, NextChoice, Run, Executable, Alone, Over;
      ghost var db, now := sys.db, sys.clock;
      Open(cmd);
      AloneIsOpen(sys, t, db, now, cmd);
      var i := 0;
      while i < statements && GoesOn(sys, t)
        invariant Valid() && Alone(sys, t, db, now, cmd) && t in sys.txns
      {
        GoingOnStaysAlone(sys, t, db, now, cmd);
        Statement(db, now, cmd);
        AloneIsOpen(sys, t, db, now, cmd);
        i := i + 1;
      }
      AloneAborts(sys, t, db, now, cmd);
      Do(Abort(t));
    }
  }

  /** The transaction has a statement to come that does not end it. */
  predicate GoesOn(s: Sys, t: Id)
    requires t in s.txns
  {
    Mine(s, t).pc != Ready && Step(s.db, Mine(s, t), NextChoice(s), s.nextEvent).Go?
  }

  lemma AloneIsOpen(s: Sys, t: Id, db: Db, now: int, cmd: Command)
    requires Alone(s, t, db, now, cmd)
    ensures t in s.txns
  {
  }

  /** A statement after which the hold is still open, whatever it has locked and written by then. */
  lemma GoingOnStaysAlone(s: Sys, t: Id, db: Db, now: int, cmd: Command)
    requires Alone(s, t, db, now, cmd) && GoesOn(s, t)
    ensures Mine(s, t).pc !in {Ready, Sweep, PurgeDue}
    ensures forall s2 :: After(s, t, db, now, cmd, s2) ==> Alone(s2, t, db, now, cmd)
  {
    HoldFacts(s, t, db, now, cmd);
    StepKeepsCommand(s.db, Mine(s, t), NextChoice(s), s.nextEvent);
    hide Inv, DbOk, TxnOk, Step, NextChoice;
  }

  lemma StepKeepsCommand(db: Db, x: Txn, ch: Choice, eventId: nat)
    requires x.cmd.Hold? && x.pc != Ready && Step(db, x, ch, eventId).Go?
    ensures SameCommand(Step(db, x, ch, eventId).x, x)
  {
  }

  lemma AloneAborts(s: Sys, t: Id, db: Db, now: int, cmd: Command)
    requires Alone(s, t, db, now, cmd)
    ensures Inv(s) && Enabled(s, Abort(t))
    ensures Over(Apply(s, Abort(t)), t, Failed(Aborted))
    ensures Apply(s, Abort(t)).db == db && Apply(s, Abort(t)).clock == now
  {
    hide Inv;
  }

  lemma AloneCommits(s: Sys, t: Id, db: Db, now: int, cmd: Command)
    requires Alone(s, t, db, now, cmd) && Mine(s, t).pc == Ready
    ensures Enabled(s, Commit(t))
    ensures Over(Apply(s, Commit(t)), t, CommitOutcome(Mine(s, t)))
    ensures Apply(s, Commit(t)).db == CommitDb(db, Mine(s, t))
  {
    MembershipHolds(s, t);
    hide Inv, CommitDb, MembershipOk;
  }

  /** What one statement of the only open transaction leads to. */
  ghost predicate After(s: Sys, t: Id, db: Db, now: int, cmd: Command, s2: Sys)
    requires t in s.txns
  {
    match Step(db, Mine(s, t), NextChoice(s), s.nextEvent)
    case Go(x) => t in s2.txns && Mine(s2, t) == x && (SameCommand(x, Mine(s, t)) ==> Alone(s2, t, db, now, cmd))
    case End(o) => Over(s2, t, o) && s2.db == db
  }

  /** The transaction has ended with this outcome. */
  ghost predicate Over(s: Sys, t: Id, o: Outcome) {
    s.txns == map[] && t in s.results && s.results[t] == o
  }

  /** Nothing can make it wait. */
  lemma AloneMoves(s: Sys, t: Id, db: Db, now: int, cmd: Command)
    requires Alone(s, t, db, now, cmd) && Mine(s, t).pc !in {Ready, Sweep, PurgeDue}
    ensures Enabled(s, Act(t, NextChoice(s)))
    ensures After(s, t, db, now, cmd, Apply(s, Act(t, NextChoice(s))))
  {
    hide After, Step, Apply, Enabled;
    AloneIsEnabled(s, t);
    ActionKeeps(s, Act(t, NextChoice(s)));
    AppliedAlone(s, t, db, now, cmd);
  }

  lemma AloneIsEnabled(s: Sys, t: Id)
    requires s.txns.Keys == {t} && Mine(s, t).pc !in {Ready, Sweep, PurgeDue}
    ensures Enabled(s, Act(t, NextChoice(s)))
  {
    hide Step, Wants, InOrder;
    var x := Mine(s, t);
    if Wants(s.db, x).Some? {
      assert Free(s, t, Wants(s.db, x).value);
    }
  }

  lemma AppliedAlone(s: Sys, t: Id, db: Db, now: int, cmd: Command)
    requires Alone(s, t, db, now, cmd) && Enabled(s, Act(t, NextChoice(s)))
    requires Inv(Apply(s, Act(t, NextChoice(s))))
    ensures After(s, t, db, now, cmd, Apply(s, Act(t, NextChoice(s))))
  {
    hide Step, Inv, Enabled, InOrder;
  }

  predicate SameCommand(x: Txn, y: Txn) {
    x.begin == y.begin && x.cmd == y.cmd && x.venue == y.venue
  }

  lemma {:induction false} RunExtends(s: Sys, acts: seq<Action>, a: Action)
    requires Executable(s, acts) && Enabled(Run(s, acts), a)
    ensures Executable(s, acts + [a]) && Run(s, acts + [a]) == Apply(Run(s, acts), a)
    decreases |acts|
  {
    if acts == [] {
      assert [a][1..] == [];
      assert acts + [a] == [a];
    } else {
      assert (acts + [a])[0] == acts[0] && (acts + [a])[1..] == acts[1..] + [a];
      RunExtends(Apply(s, acts[0]), acts[1..], a);
    }
  }

  lemma OutcomeIsStored(s: Sys, cmd: Command, o: Outcome, after: Db)
    requires Inv(s) && cmd.Hold? && HoldMeans(s.db, s.clock, cmd, o, after)
    ensures o != Failed(SerializationConflict)
  {
    assert DbOk(s);
    hide Inv, Obstacles, DeadObstacles, Found, Usable, LiveHoldsAt, RowsAfter;
  }

  /** The command with its one retry: `rolledBack` says which attempts the database rolls back, and after how many
      statements. Whatever befalls the first, the call has the effect of exactly one hold; rolled back twice, it fails
      and leaves nothing. A replay that finds no stored outcome would be retried too, and there is none. */
  method Hold(s: Sys, cmd: Command, rolledBack: nat -> Option<nat>) returns (after: Sys, o: Outcome, attempts: nat)
    requires Inv(s) && s.txns == map[] && cmd.Hold?
    ensures attempts == if rolledBack(1).Some? then 2 else 1
    ensures rolledBack(1).Some? && rolledBack(2).Some? ==> o == Failed(Aborted) && after.db == s.db
    ensures !(rolledBack(1).Some? && rolledBack(2).Some?) ==> HoldMeans(s.db, s.clock, cmd, o, after.db)
    ensures o != Failed(SerializationConflict)
  {
    hide Inv, HoldMeans, InOrder, Run, Executable;
    var now := s;
    attempts := 1;
    while true
      invariant attempts == 1 || (attempts == 2 && rolledBack(1).Some?)
      invariant Inv(now) && now.txns == map[] && now.db == s.db && now.clock == s.clock
      decreases 2 - attempts
    {
      var session := new Session(now, FreshId(now.results.Keys));
      match rolledBack(attempts) {
        case None =>
          o := session.AttemptHold(cmd);
          OutcomeIsStored(now, cmd, o, session.sys.db);
          return session.sys, o, attempts;
        case Some(statements) =>
          session.RollBack(cmd, statements);
          if attempts == 2 { return session.sys, Failed(Aborted), attempts; }
          now, attempts := session.sys, 2;
      }
    }
  }
}
