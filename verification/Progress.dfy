/** The other side of deadlock freedom: whatever transactions are open, some can take its next statement, and all of
    them can be run to their ends without one being aborted. */
module Progress {
  import opened Sorting
  import opened Domain
  import opened Protocol
  import opened Invariants
  import opened Reachability
  import opened Guarantees
  import opened Deadlock

  // ----- Batches that skip locked rows always find something to return -----

  lemma {:induction false} EarliestExists<T>(due: set<T>, at: T -> int) returns (m: T)
    requires due != {}
    ensures m in due && forall d :: d in due ==> at(m) <= at(d)
  {
    m :| m in due;
    var rest := due - {m};
    if rest != {} {
      var n := EarliestExists(rest, at);
      assert forall d :: d in due ==> d == m || d in rest;
      if at(n) < at(m) { m := n; }
    } else {
      assert forall d :: d in due ==> d == m || d in rest;
    }
  }

  /** The `limit` rows that were due first, or all of them. */
  ghost predicate EarliestOf<T>(due: set<T>, at: T -> int, limit: nat, picked: set<T>) {
    && picked <= due && |picked| <= limit
    && forall k :: k in due && k !in picked ==> |picked| == limit && forall d :: d in picked ==> at(d) <= at(k)
  }

  lemma {:induction false} EarliestCanBePicked<T>(due: set<T>, at: T -> int, limit: nat) returns (picked: set<T>)
    ensures EarliestOf(due, at, limit, picked)
    decreases limit
  {
    picked := {};
    if limit > 0 && due != {} {
      var m := EarliestExists(due, at);
      var rest := EarliestCanBePicked(due - {m}, at, limit - 1);
      picked := {m} + rest;
    }
  }

  lemma SweepCanPick(s: Sys, t: Id) returns (due: set<Id>)
    requires t in s.txns && s.txns[t].cmd.ExpireDue?
    ensures SweepPick(s, t, due)
  {
    var all := set id | id in s.db.res && Dead(s.db.res[id], s.txns[t].begin) && Free(s, t, RowLock(id));
    due := EarliestCanBePicked(all, id => if id in s.db.res then s.db.res[id].expiresAt else 0, s.txns[t].cmd.limit);
    forall id | id in s.db.res && id !in due && Dead(s.db.res[id], s.txns[t].begin) && Free(s, t, RowLock(id))
      ensures |due| == s.txns[t].cmd.limit && forall d :: d in due ==> s.db.res[d].expiresAt <= s.db.res[id].expiresAt
    {
      assert id in all;
    }
    forall id | id in due ensures Dead(s.db.res[id], s.txns[t].begin) && Free(s, t, RowLock(id)) {
      assert id in all;
    }
  }

  lemma PurgeCanPick(s: Sys, t: Id) returns (keys: set<Key>, events: set<nat>)
    requires t in s.txns && s.txns[t].cmd.PurgeRetained?
    ensures PurgePick(s, t, keys, events)
  {
    var x := s.txns[t];
    var dueKeys := set k | k in s.db.idem && KeyDue(s, t, k);
    var dueEvents := set e | e in x.cmd.published && EventDue(s, t, e);
    keys := EarliestCanBePicked(dueKeys, k => if k in s.db.idem then s.db.idem[k].purgeAt else 0, x.cmd.limit);
    events := EarliestCanBePicked(dueEvents, e => if e in x.cmd.published then x.cmd.published[e] else 0, x.cmd.limit);
    hide KeyDue, EventDue;
    assert forall k :: k in s.db.idem && KeyDue(s, t, k) ==> k in dueKeys;
    assert forall e :: e in x.cmd.published && EventDue(s, t, e) ==> e in dueEvents;
    assert forall k :: k in keys ==> k in dueKeys;
    assert forall e :: e in events ==> e in dueEvents;
  }

  // ----- Someone can always move -----

  predicate Unblocked(s: Sys, t: Id)
    requires t in s.txns
  {
    Wants(s.db, s.txns[t]).Some? ==> Free(s, t, Wants(s.db, s.txns[t]).value)
  }

  lemma UnblockedCanAct(s: Sys, t: Id) returns (ch: Choice)
    requires t in s.txns && TxnOk(s, s.txns[t]) && s.txns[t].pc != Ready && Unblocked(s, t)
    ensures Enabled(s, Act(t, ch))
  {
    var x := s.txns[t];
    WorkersSweep(s, x);
    hide TxnOk, Wants, Free;
    ch := Choice(FreshId(s.issued), {}, {}, {});
    if x.pc == Sweep {
      var due := SweepCanPick(s, t);
      ch := ch.(rows := due);
    } else if x.pc == PurgeDue {
      var keys, events := PurgeCanPick(s, t);
      ch := ch.(keys := keys, events := events);
    }
  }

  lemma WorkersSweep(s: Sys, x: Txn)
    requires TxnOk(s, x)
    ensures x.pc == Sweep ==> x.cmd.ExpireDue?
    ensures x.pc == PurgeDue ==> x.cmd.PurgeRetained?
  {
    assert CommandOk(s.db, s.issued, x);
  }

  lemma BlockedWaits(s: Sys, t: Id, group: set<Id>)
    requires t in s.txns && !Unblocked(s, t) && group == s.txns.Keys
    ensures Stuck(s, _ => 0, group, t)
  {
    var l := Wants(s.db, s.txns[t]).value;
    var o :| o in s.txns && o != t && Excludes(s.txns[o], l);
    assert WaitsFor(s, _ => 0, t, o);
  }

  predicate Moves(a: Action, t: Id) {
    a == Commit(t) || (a.Act? && a.t == t)
  }

  /** Of the open transactions at least one can take its next statement or commit. */
  lemma SomeoneCanMove(s: Sys) returns (t: Id, a: Action)
    requires Inv(s) && s.txns != map[]
    ensures t in s.txns && Moves(a, t) && Enabled(s, a)
  {
    hide Inv, TxnOk, Enabled, Unblocked;
    if o :| o in s.txns && s.txns[o].pc == Ready {
      t, a := o, Commit(o);
      ReadyCanCommit(s, o);
    } else {
      NotAllBlocked(s);
      t :| t in s.txns && Unblocked(s, t);
      InvariantOf(s, t);
      var ch := UnblockedCanAct(s, t);
      a := Act(t, ch);
    }
  }

  lemma InvariantOf(s: Sys, t: Id)
    requires Inv(s) && t in s.txns
    ensures TxnOk(s, s.txns[t])
  {
  }

  lemma ReadyCanCommit(s: Sys, t: Id)
    requires Inv(s) && t in s.txns && s.txns[t].pc == Ready
    ensures Enabled(s, Commit(t))
  {
    MembershipHolds(s, t);
    hide Inv, MembershipOk;
  }

  /** Otherwise they would all be waiting for one another. */
  lemma NotAllBlocked(s: Sys)
    requires Inv(s) && s.txns != map[]
    ensures exists t :: t in s.txns && Unblocked(s, t)
  {
    hide Inv, Unblocked, Stuck;
    var group := s.txns.Keys;
    if forall t :: t in s.txns ==> !Unblocked(s, t) {
      forall t | t in group ensures Stuck(s, _ => 0, group, t) { BlockedWaits(s, t, group); }
      NoDeadlock(s, _ => 0, group);
    }
  }

  /** So in every reachable state with open transactions one of them can go on. */
  lemma SomeTransactionCanMove(s: Sys)
    requires Reachable(s) && s.txns != map[]
    ensures exists t, a :: t in s.txns && Moves(a, t) && Enabled(s, a)
  {
    ReachableKeeps(s);
    var t, a := SomeoneCanMove(s);
  }

  // ----- How far a transaction is from its end -----

  /** A bound on the statements still to come. */
  function Rank(x: Txn): nat {
    var held := 3 * |x.todoRows| + |x.toExpire| + |x.rowLocks|;
    match x.pc
    case Ready => 0
    case ReadExisting => 1
    case Update => 1
    case PurgeDue => 1
    case Insert => 1
    case Write => 1
    case ClearDead => 2 + |x.toExpire|
    case Enqueue => 10 + |x.todoEvents| + |x.todoUnits|
    case CancelRows => 11 + |x.rowLocks| + |x.todoUnits|
    case Sweep => 11 + (if x.cmd.ExpireDue? then x.cmd.limit else 0) + |x.todoUnits|
    case LockRows => 12 + held + |x.todoUnits|
    case ReadOverlap => 13 + 3 * OVERLAP_SET + held + |x.todoUnits|
    case CheckCap => 14 + 3 * OVERLAP_SET + held + |x.todoUnits|
    case LockUnits => if x.cmd.Admin? then 2 + |x.todoUnits| else 15 + 3 * OVERLAP_SET + held + |x.todoUnits|
    case Decide => 20 + 3 * FORCE_CANCELLATIONS + held
    case LockVenue => 700 + held + |x.todoUnits|
    case Resolve => 710 + held
    case Peek => 710 + held
    case Claim => 711 + held
  }

  lemma MembersAreFew(cfg: Config, a: Assignment)
    requires WellFormed(cfg)
    ensures |Members(cfg, a)| <= COMBO_MAX
  {
  }

  lemma GuardLocksAreFew(cfg: Config, w: Change)
    requires WellFormed(cfg)
    ensures |GuardLocks(cfg, w)| <= COMBO_MAX
  {
  }

  lemma SubsetIsSmaller(a: set<Id>, b: set<Id>)
    requires a <= b
    ensures |a| <= |b|
  {
    if a != {} {
      var x :| x in a;
      SubsetIsSmaller(a - {x}, b - {x});
    }
  }

  lemma LockRowsDescends(db: Db, x: Txn)
    requires x.pc == LockRows && LockRowsMove(db, x).Go?
    ensures Rank(LockRowsMove(db, x).x) < Rank(x)
  {
  }

  lemma CancelRowsDescends(db: Db, x: Txn)
    requires x.pc == CancelRows
    ensures CancelRowsMove(db, x).Go? && Rank(CancelRowsMove(db, x).x) < Rank(x)
  {
    var live := set id | id in x.rowLocks && id in db.res && Live(db.res[id], x.begin);
    SubsetIsSmaller(live, x.rowLocks);
  }

  lemma DecideDescends(db: Db, x: Txn, freshId: Id)
    requires WellFormed(db.cfg) && x.pc == Decide && x.cmd.Admin? && DecideMove(db, x, freshId).Go?
    requires x.todoRows == []
    ensures Rank(DecideMove(db, x, freshId).x) < Rank(x)
  {
    hide StrandedSet, ChangeOf, GuardLocks, WellFormed;
    if ChangeOf(db.cfg, x.venue, x.cmd.edit, freshId).Some? {
      GuardLocksAreFew(db.cfg, ChangeOf(db.cfg, x.venue, x.cmd.edit, freshId).value);
    }
  }

  lemma EnqueueDescends(x: Txn, eventId: nat)
    requires x.pc == Enqueue && EnqueueMove(x, eventId).Go?
    ensures Rank(EnqueueMove(x, eventId).x) < Rank(x)
  {
    if x.todoEvents != {} {
      var id := InOrder(x.todoEvents)[0];
      assert id in Elements(InOrder(x.todoEvents));
    }
  }

  lemma ReadsDescend(db: Db, x: Txn, y: Txn)
    requires WellFormed(db.cfg)
    requires || (x.pc == Resolve && x.cmd.Hold? && ResolveMove(db, x) == Go(y))
             || (x.pc == Peek && x.cmd.Confirm? && PeekMove(db, x) == Go(y))
             || (x.pc == CheckCap && x.cmd.Hold? && CheckCapMove(db, x) == Go(y))
             || (x.pc == ReadOverlap && x.cmd.Hold? && x.todoRows == [] && ReadOverlapMove(db, x) == Go(y))
    ensures Rank(y) < Rank(x)
  {
    hide Found, FlaggedActive, OverlapSet, LiveHolds;
    if x.pc == Resolve { MembersAreFew(db.cfg, x.cmd.asg); }
    if x.pc == Peek && x.cmd.id in db.res { MembersAreFew(db.cfg, db.res[x.cmd.id].asg); }
  }

  predicate PlainPc(pc: PC) {
    pc in {Claim, ReadExisting, LockVenue, LockUnits, ClearDead, Insert, Sweep, PurgeDue, Write}
  }

  lemma PlainDescends(db: Db, x: Txn, ch: Choice, eventId: nat, y: Txn)
    requires PlainPc(x.pc) && Step(db, x, ch, eventId) == Go(y)
    requires x.pc == Sweep ==> x.cmd.ExpireDue? && |ch.rows| <= x.cmd.limit
    requires x.pc == LockVenue && x.cmd.Admin? ==> x.todoRows == []
    ensures Rank(y) < Rank(x)
  {
    hide Found, GuardRefuses, Verdict, Booking, View, Dead, BlackedOut, WithStatus;
  }

  lemma ListedDescends(db: Db, x: Txn, ch: Choice, eventId: nat, y: Txn)
    requires WellFormed(db.cfg) && !PlainPc(x.pc) && Step(db, x, ch, eventId) == Go(y)
    requires x.pc in {ReadOverlap, Decide} ==> x.todoRows == []
    ensures Rank(y) < Rank(x)
  {
    hide WellFormed, ResolveMove, PeekMove, CheckCapMove, ReadOverlapMove, LockRowsMove, CancelRowsMove, DecideMove,
         EnqueueMove, UpdateMove;
    match x.pc
    case Resolve => ReadsDescend(db, x, y);
    case Peek => ReadsDescend(db, x, y);
    case CheckCap => ReadsDescend(db, x, y);
    case ReadOverlap => ReadsDescend(db, x, y);
    case LockRows => LockRowsDescends(db, x);
    case CancelRows => CancelRowsDescends(db, x);
    case Decide => DecideDescends(db, x, ch.freshId);
    case Enqueue => EnqueueDescends(x, eventId);
    case Update => UpdateEnds(db, x, eventId, y);
    case _ =>
  }

  /** Every statement that does not end its transaction brings it nearer its end. */
  lemma StepDescends(s: Sys, t: Id, ch: Choice, y: Txn)
    requires WellFormed(s.db.cfg) && t in s.txns && TxnOk(s, s.txns[t]) && Enabled(s, Act(t, ch))
    requires Step(s.db, s.txns[t], ch, s.nextEvent) == Go(y)
    ensures Rank(y) < Rank(s.txns[t])
  {
    var x := s.txns[t];
    NothingListed(s, x);
    WorkersSweep(s, x);
    hide TxnOk, WellFormed, Step, Rank, Free, Wants, PurgePick;
    if PlainPc(x.pc) {
      PlainDescends(s.db, x, ch, s.nextEvent, y);
    } else {
      ListedDescends(s.db, x, ch, s.nextEvent, y);
    }
  }

  lemma UpdateEnds(db: Db, x: Txn, eventId: nat, y: Txn)
    requires UpdateMove(db, x, eventId) == Go(y)
    ensures y.pc == Ready
  {
    hide BlackedOut, Found, Usable, Fits;
  }

  lemma NothingListed(s: Sys, x: Txn)
    requires TxnOk(s, x)
    ensures x.pc in {ReadOverlap, Decide} ==> x.todoRows == []
    ensures x.pc == LockVenue && x.cmd.Admin? ==> x.todoRows == []
  {
    assert CommandOk(s.db, s.issued, x);
  }

  // ----- All transactions can be run to their ends -----

  ghost function TotalRank(txns: map<Id, Txn>): nat
    decreases |txns|
  {
    if txns == map[] then 0 else
    var t :| t in txns;
    1 + Rank(txns[t]) + TotalRank(txns - {t})
  }

  lemma {:induction false} TotalWithout(txns: map<Id, Txn>, t: Id)
    requires t in txns
    ensures TotalRank(txns) == 1 + Rank(txns[t]) + TotalRank(txns - {t})
    decreases |txns|
  {
    hide Rank;
    var o :| o in txns && TotalRank(txns) == 1 + Rank(txns[o]) + TotalRank(txns - {o});
    if o != t {
      TotalWithout(txns - {o}, t);
      TotalWithout(txns - {t}, o);
      assert txns - {o} - {t} == txns - {t} - {o};
    }
  }

  lemma TotalOf(txns: map<Id, Txn>, t: Id, y: Txn)
    requires t in txns && Rank(y) < Rank(txns[t])
    ensures TotalRank(txns[t := y]) < TotalRank(txns) && TotalRank(txns - {t}) < TotalRank(txns)
  {
    hide Rank;
    TotalWithout(txns, t);
    TotalWithout(txns[t := y], t);
    assert txns[t := y] - {t} == txns - {t};
  }

  lemma ActDescends(s: Sys, t: Id, ch: Choice)
    requires WellFormed(s.db.cfg) && t in s.txns && TxnOk(s, s.txns[t]) && Enabled(s, Act(t, ch))
    ensures TotalRank(Apply(s, Act(t, ch)).txns) < TotalRank(s.txns)
    ensures s.txns.Keys + s.results.Keys <= Apply(s, Act(t, ch)).txns.Keys + Apply(s, Act(t, ch)).results.Keys
  {
    hide TxnOk, WellFormed, Step, Rank, Enabled;
    TotalWithout(s.txns, t);
    match Step(s.db, s.txns[t], ch, s.nextEvent) {
      case Go(y) =>
        StepDescends(s, t, ch, y);
        TotalOf(s.txns, t, y);
      case End(_) =>
    }
  }

  lemma CommitDescends(s: Sys, t: Id)
    requires t in s.txns && Enabled(s, Commit(t))
    ensures TotalRank(Apply(s, Commit(t)).txns) < TotalRank(s.txns)
    ensures s.txns.Keys + s.results.Keys <= Apply(s, Commit(t)).txns.Keys + Apply(s, Commit(t)).results.Keys
  {
    hide Rank, CommitDb, MembershipOk;
    TotalWithout(s.txns, t);
  }

  lemma MoveDescends(s: Sys, t: Id, a: Action)
    requires Inv(s) && t in s.txns && Moves(a, t) && Enabled(s, a)
    ensures TotalRank(Apply(s, a).txns) < TotalRank(s.txns)
    ensures s.txns.Keys + s.results.Keys <= Apply(s, a).txns.Keys + Apply(s, a).results.Keys
  {
    InvariantOf(s, t);
    assert WellFormed(s.db.cfg);
    hide Inv, TxnOk, WellFormed, Apply, Enabled, TotalRank;
    if a.Act? { ActDescends(s, t, a.choice); } else { CommitDescends(s, t); }
  }

  predicate OnlyStatements(acts: seq<Action>) {
    forall a :: a in acts ==> a.Act? || a.Commit?
  }

  lemma {:induction false} Drain(s: Sys) returns (acts: seq<Action>)
    requires Inv(s)
    ensures Executable(s, acts) && OnlyStatements(acts) && Run(s, acts).txns == map[]
    ensures s.txns.Keys + s.results.Keys <= Run(s, acts).results.Keys
    decreases TotalRank(s.txns)
  {
    hide Inv, Enabled, Apply, Rank;
    acts := [];
    if s.txns != map[] {
      var t, a := SomeoneCanMove(s);
      MoveDescends(s, t, a);
      ActionKeeps(s, a);
      var rest := Drain(Apply(s, a));
      acts := [a] + rest;
      assert acts[1..] == rest;
    }
  }

  /** From every reachable state the transactions that are open can all be run to their ends by statements and commits
      alone: none is aborted, and each gets its result. */
  lemma EveryTransactionCanFinish(s: Sys)
    requires Reachable(s)
    ensures exists acts :: Executable(s, acts) && OnlyStatements(acts) && Run(s, acts).txns == map[]
                           && s.txns.Keys <= Run(s, acts).results.Keys
  {
    ReachableKeeps(s);
    hide Inv;
    var acts := Drain(s);
  }
}
