/** No set of transactions of a reachable state is deadlocked, whatever the order of the lock queues. */
module Deadlock {
  import opened Sorting
  import opened Domain
  import opened Protocol
  import opened Invariants
  import opened Reachability

  /** Waiting in the same queue; the modes may differ. */
  predicate SameQueue(a: Lock, b: Lock) {
    a == b || (a.VenueLock? && b.VenueLock? && a.venue == b.venue)
  }

  /** `t` waits for `o`: `o` holds what `t` wants, or stands before it in the queue for it. */
  predicate WaitsFor(s: Sys, ticket: Id -> int, t: Id, o: Id) {
    && t in s.txns && o in s.txns && t != o
    && Wants(s.db, s.txns[t]).Some?
    && var l := Wants(s.db, s.txns[t]).value;
       Excludes(s.txns[o], l)
       || (Wants(s.db, s.txns[o]).Some? && SameQueue(l, Wants(s.db, s.txns[o]).value) && ticket(o) < ticket(t))
  }

  ghost predicate Stuck(s: Sys, ticket: Id -> int, group: set<Id>, t: Id) {
    exists o :: o in group && WaitsFor(s, ticket, t, o)
  }

  /** Every member waits for another member. */
  ghost predicate Deadlocked(s: Sys, ticket: Id -> int, group: set<Id>) {
    group != {} && forall t {:trigger Stuck(s, ticket, group, t)} :: t in group ==> Stuck(s, ticket, group, t)
  }

  // ----- The lock order -----

  function Level(l: Lock): int {
    match l case KeyLock(_) => 0 case VenueLock(_, _) => 1 case UnitLock(_) => 2 case RowLock(_) => 3
  }

  function Index(l: Lock): int {
    match l case KeyLock(_) => 0 case VenueLock(_, _) => 0 case UnitLock(u) => u case RowLock(r) => r
  }

  predicate Before(a: Lock, b: Lock) {
    Level(a) < Level(b) || (Level(a) == Level(b) && Index(a) < Index(b))
  }

  /** An admin write at the unit locks its guard triggers take: the one place the order is inverted. */
  predicate Inverted(x: Txn) {
    x.cmd.Admin? && x.pc == LockUnits
  }

  /** Whatever a waiting transaction holds comes before what it waits for. */
  lemma HoldsBefore(s: Sys, x: Txn, l: Lock)
    requires TxnOk(s, x) && Wants(s.db, x).Some? && !Inverted(x) && Excludes(x, l)
    ensures Before(l, Wants(s.db, x).value)
  {
  }

  lemma VenueKeepsUnitsFree(db: Db, x: Txn, y: Txn, u: Id)
    requires LocksOk(db, x) && LocksOk(db, y) && Compatible(x, y)
    requires Inverted(x) && u in x.todoUnits
    ensures u !in y.unitLocks
    ensures y.pc == LockUnits ==> u !in y.todoUnits
  {
    assert db.cfg.units[u].venue == x.venue;
  }

  lemma InvertedDoesNotWait(s: Sys, ticket: Id -> int, t: Id, o: Id)
    requires t in s.txns && Inverted(s.txns[t]) && LocksOk(s.db, s.txns[t])
    requires o in s.txns && LocksOk(s.db, s.txns[o]) && Compatible(s.txns[t], s.txns[o])
    ensures !WaitsFor(s, ticket, t, o)
  {
    var x := s.txns[t];
    if x.todoUnits != [] { VenueKeepsUnitsFree(s.db, x, s.txns[o], x.todoUnits[0]); }
  }

  lemma InvariantOfPair(s: Sys, t: Id, o: Id)
    requires Inv(s) && t in s.txns && o in s.txns && t != o
    ensures LocksOk(s.db, s.txns[t]) && LocksOk(s.db, s.txns[o]) && Compatible(s.txns[t], s.txns[o])
  {
    assert TxnOk(s, s.txns[t]) && TxnOk(s, s.txns[o]);
  }

  /** Under its exclusive venue lock an admin write finds every unit lock of the venue free. */
  lemma AdminNeverWaitsForUnits(s: Sys, ticket: Id -> int, t: Id, o: Id)
    requires Inv(s) && t in s.txns && Inverted(s.txns[t])
    ensures !WaitsFor(s, ticket, t, o)
  {
    if o in s.txns && o != t {
      InvariantOfPair(s, t, o);
      InvertedDoesNotWait(s, ticket, t, o);
    }
  }

  /** Further along in the lock order, or earlier in the same queue. */
  predicate Further(s: Sys, ticket: Id -> int, t: Id, o: Id)
    requires t in s.txns && o in s.txns && Wants(s.db, s.txns[t]).Some? && Wants(s.db, s.txns[o]).Some?
  {
    var a, b := Wants(s.db, s.txns[t]).value, Wants(s.db, s.txns[o]).value;
    Before(a, b) || (Level(a) == Level(b) && Index(a) == Index(b) && ticket(o) < ticket(t))
  }

  /** A wait for a transaction that itself waits leads further. */
  lemma WaitLeadsFurther(s: Sys, ticket: Id -> int, t: Id, o: Id, p: Id)
    requires Inv(s) && WaitsFor(s, ticket, t, o) && WaitsFor(s, ticket, o, p)
    ensures Further(s, ticket, t, o)
  {
    if Inverted(s.txns[o]) { AdminNeverWaitsForUnits(s, ticket, o, p); }
    if Excludes(s.txns[o], Wants(s.db, s.txns[t]).value) {
      HoldsBefore(s, s.txns[o], Wants(s.db, s.txns[t]).value);
    }
  }

  ghost predicate AllWait(s: Sys, group: set<Id>) {
    forall t :: t in group ==> t in s.txns && Wants(s.db, s.txns[t]).Some?
  }

  lemma {:induction false} FurthestExists(s: Sys, ticket: Id -> int, group: set<Id>) returns (m: Id)
    requires AllWait(s, group) && group != {}
    ensures m in group && forall o :: o in group ==> !Further(s, ticket, m, o)
  {
    m :| m in group;
    var rest := group - {m};
    if rest != {} {
      var n := FurthestExists(s, ticket, rest);
      if !Further(s, ticket, m, n) {
        forall o | o in group ensures !Further(s, ticket, m, o) {
          if o != m { assert o in rest; }
        }
      } else {
        forall o | o in group ensures !Further(s, ticket, n, o) {
          if o != m { assert o in rest; }
        }
        m := n;
      }
    } else {
      assert forall o :: o in group ==> o == m || o in rest;
    }
  }

  /** A stuck group has a member that is furthest along, and that member still waits for one that waits. */
  lemma FurthestIsStuck(s: Sys, ticket: Id -> int, group: set<Id>) returns (m: Id, o: Id, p: Id)
    requires Deadlocked(s, ticket, group)
    ensures WaitsFor(s, ticket, m, o) && WaitsFor(s, ticket, o, p) && !Further(s, ticket, m, o)
  {
    forall t | t in group ensures t in s.txns && Wants(s.db, s.txns[t]).Some? {
      assert Stuck(s, ticket, group, t);
    }
    m := FurthestExists(s, ticket, group);
    assert Stuck(s, ticket, group, m);
    o :| o in group && WaitsFor(s, ticket, m, o);
    assert Stuck(s, ticket, group, o);
    p :| p in group && WaitsFor(s, ticket, o, p);
  }

  /** In a state that keeps the invariant no group of transactions, taken together, can be stuck. */
  lemma NoDeadlock(s: Sys, ticket: Id -> int, group: set<Id>)
    requires Inv(s)
    ensures !Deadlocked(s, ticket, group)
  {
    if Deadlocked(s, ticket, group) {
      var m, o, p := FurthestIsStuck(s, ticket, group);
      WaitLeadsFurther(s, ticket, m, o, p);
    }
  }

  /** Deadlock freedom of every reachable interleaving of all commands. */
  lemma DeadlockFree(s: Sys, ticket: Id -> int, group: set<Id>)
    requires Reachable(s)
    ensures !Deadlocked(s, ticket, group)
  {
    ReachableKeeps(s);
    NoDeadlock(s, ticket, group);
  }
}
