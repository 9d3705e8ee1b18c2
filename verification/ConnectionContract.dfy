/** The connection contract: what may happen to a pooled connection between the moment a command asks for one and the
    moment it is handed back, whatever order the command, its deadline, the grace period, the rollback probe, the
    cancel request and the connection's own errors come in. */
module ConnectionContract {
  import opened Sorting
  import opened Domain

  // ----- State -----

  /** A pooled connection: free, checked out, or closed for good. */
  datatype Place = Idle | Busy(holder: Id) | Gone

  /** Why a connection was asked for: to run a command, or to cancel the backend of an overdue one. */
  datatype Purpose = Serve | CancelOf(call: Id)

  datatype Phase = Waiting | GaveUp | Refused | Working | Grace | Probing | Asking | Over

  datatype Answer = Value | Failure | TimedOut | NoConnection

  /** One checkout. `error` is the recorded connection error, `settled` how the work ended while the connection was
      held, `late` whether its deadline passed first, and `probed` the answer of the rollback probe or of the cancel
      request. `releases` counts how often the connection was handed back, and `clean` says that the last time was to
      the pool. */
  datatype Checkout = Checkout(
    purpose: Purpose, phase: Phase, conn: Option<Id>, error: bool, settled: Option<bool>, late: bool,
    probed: Option<bool>, releases: nat, clean: bool, answer: Option<Answer>)

  /** `known` are the connections whose backend pid is known, and `requests` the cancel requests a server may still act
      on, each with the connection whose backend it names. */
  datatype Handle = Handle(conns: map<Id, Place>, checkouts: map<Id, Checkout>, known: set<Id>, requests: map<Id, Id>)

  datatype Event =
    | Call(x: Id)                        // a command asks the pool for a connection
    | Arrive(x: Id, c: Id)               // the pool serves a request, perhaps after the caller gave up
    | GiveUp(x: Id)                      // the acquire timeout
    | Reject(x: Id)                      // the pool has no connection to give, perhaps after the caller gave up
    | LearnPid(x: Id)
    | Settle(x: Id, ok: bool)            // the work ends while its connection is held; nobody hears of a later end
    | Deadline(x: Id, k: Id, dedicated: bool)
    | GraceOver(x: Id)
    | ProbeAnswer(x: Id, ok: bool)
    | ProbeLimit(x: Id)
    | ConnectionError(c: Id)
    | CancelAnswer(k: Id, ok: bool)      // the cancel request on a borrowed connection answers
    | CancelLimit(k: Id)
    | Deliver(k: Id)                     // a server acts on a cancel request, however late

  predicate Holds(p: Phase) {
    p in {Working, Grace, Probing, Asking}
  }

  // ----- Steps -----

  /** Hands the connection back: destroyed when there is an error of its own or a recorded one, else returned. */
  function Finish(h: Handle, x: Id, failed: bool): Handle
    requires x in h.checkouts && h.checkouts[x].conn.Some?
  {
    var o := h.checkouts[x];
    var fatal := failed || o.error;
    h.(conns := h.conns[o.conn.value := if fatal then Gone else Idle],
       checkouts := h.checkouts[x := o.(phase := Over, releases := o.releases + 1, clean := !fatal)])
  }

  function With(h: Handle, x: Id, o: Checkout): Handle {
    h.(checkouts := h.checkouts[x := o])
  }

  function Asked(p: Purpose): Checkout {
    Checkout(p, Waiting, None, false, None, false, None, 0, false, None)
  }

  predicate Possible(h: Handle, e: Event) {
    match e
    case Call(x) => x !in h.checkouts
    case Arrive(x, c) => x in h.checkouts && h.checkouts[x].phase in {Waiting, GaveUp} && c in h.conns
        && h.conns[c] == Idle
    case GiveUp(x) => x in h.checkouts && h.checkouts[x].phase == Waiting
    case Reject(x) => x in h.checkouts && h.checkouts[x].phase in {Waiting, GaveUp}
    case LearnPid(x) => x in h.checkouts && h.checkouts[x].phase in {Working, Grace}
        && h.checkouts[x].settled.None? && h.checkouts[x].conn.Some?
    case Settle(x, _) => x in h.checkouts && h.checkouts[x].phase in {Working, Grace} && h.checkouts[x].conn.Some?
    case Deadline(x, k, _) => x in h.checkouts && h.checkouts[x].phase == Working && h.checkouts[x].conn.Some?
        && k !in h.checkouts && k !in h.requests
    case GraceOver(x) => x in h.checkouts && h.checkouts[x].phase == Grace && h.checkouts[x].conn.Some?
    case ProbeAnswer(x, _) => x in h.checkouts && h.checkouts[x].phase == Probing && h.checkouts[x].conn.Some?
    case ProbeLimit(x) => x in h.checkouts && h.checkouts[x].phase == Probing && h.checkouts[x].conn.Some?
    case ConnectionError(c) => c in h.conns && h.conns[c] != Gone
        && (h.conns[c].Busy? ==> h.conns[c].holder in h.checkouts)
    case CancelAnswer(k, _) => k in h.checkouts && h.checkouts[k].phase == Asking && h.checkouts[k].conn.Some?
    case CancelLimit(k) => k in h.checkouts && h.checkouts[k].phase == Asking && h.checkouts[k].conn.Some?
    case Deliver(k) => k in h.requests
  }

  /** A connection that arrives: put to work, or, after the caller gave up, straight back to the pool. A borrowed one
      sends its cancel request at once. */
  function Arrived(h: Handle, x: Id, c: Id): Handle
    requires x in h.checkouts
  {
    var o := h.checkouts[x];
    if o.phase == GaveUp then With(h, x, o.(phase := Over, conn := Some(c), releases := o.releases + 1, clean := true))
    else match o.purpose
      case Serve => With(h, x, o.(phase := Working, conn := Some(c))).(conns := h.conns[c := Busy(x)])
      case CancelOf(call) =>
        With(h, x, o.(phase := Asking, conn := Some(c))).(
          conns := h.conns[c := Busy(x)],
          requests := if call in h.checkouts && h.checkouts[call].conn.Some?
                      then h.requests[x := h.checkouts[call].conn.value] else h.requests)
  }

  /** The deadline: the grace period starts, and the backend is cancelled if its pid is known, over the dedicated
      connection or one borrowed from the pool. */
  function PassDeadline(h: Handle, x: Id, k: Id, dedicated: bool): Handle
    requires x in h.checkouts && h.checkouts[x].conn.Some?
  {
    var o := h.checkouts[x];
    var h' := With(h, x, o.(phase := Grace, late := true));
    if o.conn.value !in h.known then h'
    else if dedicated then h'.(requests := h.requests[k := o.conn.value])
    else With(h', k, Asked(CancelOf(x)))
  }

  function SettleWork(h: Handle, x: Id, ok: bool): Handle
    requires x in h.checkouts && h.checkouts[x].conn.Some?
  {
    var o := h.checkouts[x].(settled := Some(ok), answer := Some(if ok then Value else Failure));
    if o.phase == Grace then Finish(With(h, x, o), x, true)
    else if ok then Finish(With(h, x, o), x, false)
    else With(h, x, o.(phase := Probing))
  }

  /** A recorded error on a connection in use; an idle one is dropped by the pool. */
  function Errored(h: Handle, c: Id): Handle
    requires c in h.conns && (h.conns[c].Busy? ==> h.conns[c].holder in h.checkouts)
  {
    match h.conns[c]
    case Busy(x) => With(h, x, h.checkouts[x].(error := true))
    case _ => h.(conns := h.conns[c := Gone])
  }

  function Next(h: Handle, e: Event): Handle
    requires Possible(h, e)
  {
    match e
    case Call(x) => With(h, x, Asked(Serve))
    case Arrive(x, c) => Arrived(h, x, c)
    case GiveUp(x) => With(h, x, h.checkouts[x].(phase := GaveUp, answer := Some(NoConnection)))
    case Reject(x) => With(h, x, h.checkouts[x].(phase := Refused, answer := Some(NoConnection)))
    case LearnPid(x) => h.(known := h.known + {h.checkouts[x].conn.value})
    case Settle(x, ok) => SettleWork(h, x, ok)
    case Deadline(x, k, dedicated) => PassDeadline(h, x, k, dedicated)
    case GraceOver(x) => Finish(With(h, x, h.checkouts[x].(answer := Some(TimedOut))), x, true)
    case ProbeAnswer(x, ok) => Finish(With(h, x, h.checkouts[x].(probed := Some(ok))), x, !ok)
    case ProbeLimit(x) => Finish(h, x, true)
    case ConnectionError(c) => Errored(h, c)
    case CancelAnswer(k, ok) =>
      Finish(With(h, k, h.checkouts[k].(probed := Some(ok))), k, !ok).(requests := h.requests - {k})
    case CancelLimit(k) => Finish(h, k, true)
    case Deliver(k) => h.(requests := h.requests - {k})
  }

  // ----- What every order keeps -----

  /** How one checkout stands, in its own terms. */
  ghost predicate CheckoutOk(o: Checkout) {
    && (o.phase in {Waiting, GaveUp, Refused} <==> o.conn.None?)
    && (o.releases == if o.phase == Over then 1 else 0)
    && (o.phase in {Working, Grace, Probing} ==> o.purpose == Serve)
    && (o.phase == Asking ==> o.purpose != Serve)
    && (o.phase in {Waiting, GaveUp, Refused, Working} ==>
          !o.late && o.settled.None? && o.probed.None? && (o.phase != Working ==> !o.error))
    && (o.phase == Grace ==> o.late && o.settled.None?)
    && (o.phase == Probing ==> !o.late && o.settled == Some(false) && o.probed.None?)
    && (o.phase == Asking ==> !o.late && o.settled.None? && o.probed.None? && o.answer.None?)
    && (o.phase == Over ==> (o.clean <==> Deserved(o)))
    && (o.phase == Over && o.purpose == Serve ==> AnswerFits(o))
    && (o.phase in {Waiting, Working, Grace} ==> o.answer.None?)
    && (o.phase in {GaveUp, Refused} ==> o.answer == Some(NoConnection))
    && (o.phase == Probing ==> o.answer == Some(Failure))
  }

  /** When a connection may go back to the pool: nothing ran on it, or its command settled before the deadline, any
      failure was followed by a good probe, a borrowed one's request was answered, and no error was recorded. */
  predicate Deserved(o: Checkout) {
    || (o.answer == Some(NoConnection) && !o.error)
    || (&& !o.error && !o.late && o.answer != Some(NoConnection)
        && match o.purpose
           case Serve => o.settled == Some(true) || (o.settled == Some(false) && o.probed == Some(true))
           case CancelOf(_) => o.probed == Some(true))
  }

  /** The caller hears how the work ended if it ended while the connection was held, and a timeout otherwise. */
  predicate AnswerFits(o: Checkout) {
    match o.settled
    case Some(ok) => o.answer == Some(if ok then Value else Failure)
    case None => o.answer == Some(TimedOut) || o.answer == Some(NoConnection)
  }

  /** Connections and checkouts agree on who holds what. */
  ghost predicate HoldersAgree(h: Handle) {
    && (forall x :: x in h.checkouts && Holds(h.checkouts[x].phase) ==>
          h.checkouts[x].conn.Some? && h.checkouts[x].conn.value in h.conns
              && h.conns[h.checkouts[x].conn.value] == Busy(x))
    && (forall c :: c in h.conns && h.conns[c].Busy? ==>
          var x := h.conns[c].holder; x in h.checkouts && Holds(h.checkouts[x].phase) && h.checkouts[x].conn == Some(c))
    && (forall x :: x in h.checkouts && h.checkouts[x].conn.Some? ==> h.checkouts[x].conn.value in h.conns)
  }

  /** The overdue call whose backend it was: it still holds the connection, or the connection is gone. */
  ghost predicate OnlyOverdue(h: Handle, c: Id) {
    c in h.conns && (h.conns[c] == Gone || (h.conns[c].Busy? && h.conns[c].holder in h.checkouts
        && h.checkouts[h.conns[c].holder].phase == Grace))
  }

  ghost predicate Overdue(h: Handle, x: Id) {
    x in h.checkouts && h.checkouts[x].conn.Some? && h.checkouts[x].late && OnlyOverdue(h, h.checkouts[x].conn.value)
  }

  ghost predicate CheckoutsOk(h: Handle) {
    forall x :: x in h.checkouts ==> CheckoutOk(h.checkouts[x])
  }

  /** Every cancel request that may still be acted on names the backend of an overdue call. */
  ghost predicate RequestsSafe(h: Handle) {
    && (forall k :: k in h.requests ==> OnlyOverdue(h, h.requests[k]))
    && (forall k :: k in h.checkouts && h.checkouts[k].purpose.CancelOf? ==> Overdue(h, h.checkouts[k].purpose.call))
  }

  ghost predicate Contract(h: Handle) {
    CheckoutsOk(h) && HoldersAgree(h) && RequestsSafe(h)
  }

  /** No backend that only an overdue call may use becomes anything else, and no call stops being overdue. */
  ghost predicate StaysOverdue(h: Handle, h2: Handle) {
    && (forall c :: OnlyOverdue(h, c) ==> OnlyOverdue(h2, c))
    && (forall x :: Overdue(h, x) ==> Overdue(h2, x))
  }

  lemma RequestsStaySafe(h: Handle, h2: Handle)
    requires RequestsSafe(h) && StaysOverdue(h, h2)
    requires forall k :: k in h2.requests ==>
          (k in h.requests && h2.requests[k] == h.requests[k]) || OnlyOverdue(h2, h2.requests[k])
    requires forall k :: k in h2.checkouts ==>
      (k in h.checkouts && h2.checkouts[k].purpose == h.checkouts[k].purpose)
          || (h2.checkouts[k].purpose.CancelOf? ==> Overdue(h2, h2.checkouts[k].purpose.call))
    ensures RequestsSafe(h2)
  {
    hide OnlyOverdue, Overdue;
  }

  // ----- Every step keeps the contract -----

  /** Handing back: only `x` and its connection change. */
  lemma FinishKeepsHolders(h: Handle, x: Id, failed: bool)
    requires HoldersAgree(h) && x in h.checkouts && Holds(h.checkouts[x].phase)
    ensures HoldersAgree(Finish(h, x, failed))
  {
  }

  lemma FinishStaysOverdue(h: Handle, x: Id, failed: bool)
    requires HoldersAgree(h) && x in h.checkouts && Holds(h.checkouts[x].phase)
    requires h.checkouts[x].phase == Grace ==> failed
    ensures StaysOverdue(h, Finish(h, x, failed))
  {
    var h2 := Finish(h, x, failed);
    forall c | OnlyOverdue(h, c) ensures OnlyOverdue(h2, c) { }
    forall o | Overdue(h, o) ensures Overdue(h2, o) { assert OnlyOverdue(h2, h.checkouts[o].conn.value); }
  }

  lemma FinishKeeps(h: Handle, x: Id, failed: bool)
    requires Contract(h) && x in h.checkouts && Holds(h.checkouts[x].phase)
    requires h.checkouts[x].phase == Grace ==> failed
    requires CheckoutOk(Finish(h, x, failed).checkouts[x])
    ensures Contract(Finish(h, x, failed))
  {
    FinishKeepsHolders(h, x, failed);
    FinishStaysOverdue(h, x, failed);
    RequestsStaySafe(h, Finish(h, x, failed));
    hide CheckoutOk, HoldersAgree, RequestsSafe, StaysOverdue;
  }

  /** A change to one checkout that leaves its phase, purpose, connection and lateness alone. */
  lemma AnnotateKeeps(h: Handle, x: Id, o: Checkout)
    requires Contract(h) && x in h.checkouts && CheckoutOk(o)
    requires o.phase == h.checkouts[x].phase && o.purpose == h.checkouts[x].purpose
        && o.conn == h.checkouts[x].conn && o.late == h.checkouts[x].late
    ensures Contract(With(h, x, o))
  {
    hide CheckoutOk;
    AnnotateAgrees(h, x, o);
    RequestsStaySafe(h, With(h, x, o));
    hide HoldersAgree, RequestsSafe, StaysOverdue;
  }

  lemma AnnotateAgrees(h: Handle, x: Id, o: Checkout)
    requires HoldersAgree(h) && x in h.checkouts
    requires o.phase == h.checkouts[x].phase && o.purpose == h.checkouts[x].purpose
        && o.conn == h.checkouts[x].conn && o.late == h.checkouts[x].late
    ensures HoldersAgree(With(h, x, o)) && StaysOverdue(h, With(h, x, o))
  {
  }

  lemma CallKeeps(h: Handle, x: Id, p: Purpose)
    requires Contract(h) && x !in h.checkouts && (p.CancelOf? ==> Overdue(h, p.call))
    ensures Contract(With(h, x, Asked(p)))
  {
    assert CheckoutOk(Asked(p));
    hide CheckoutOk;
    CallAgrees(h, x, p);
    RequestsStaySafe(h, With(h, x, Asked(p)));
    hide HoldersAgree, RequestsSafe, OnlyOverdue;
  }

  lemma CallAgrees(h: Handle, x: Id, p: Purpose)
    requires HoldersAgree(h) && x !in h.checkouts
    ensures HoldersAgree(With(h, x, Asked(p))) && StaysOverdue(h, With(h, x, Asked(p)))
  {
  }

  lemma ArrivalAgrees(h: Handle, x: Id, c: Id)
    requires CheckoutsOk(h) && HoldersAgree(h) && Possible(h, Arrive(x, c))
    ensures HoldersAgree(Arrived(h, x, c)) && StaysOverdue(h, Arrived(h, x, c))
    ensures CheckoutsOk(Arrived(h, x, c))
  {
    assert CheckoutOk(h.checkouts[x]) && h.checkouts[x].conn.None?;
    assert CheckoutOk(Arrived(h, x, c).checkouts[x]);
    hide CheckoutOk;
    ArrivalHolds(h, x, c);
  }

  lemma ArrivalHolds(h: Handle, x: Id, c: Id)
    requires HoldersAgree(h) && Possible(h, Arrive(x, c)) && h.checkouts[x].conn.None?
    ensures HoldersAgree(Arrived(h, x, c)) && StaysOverdue(h, Arrived(h, x, c))
  {
    var o := Arrived(h, x, c).checkouts[x];
    if o.phase == Over {
      ReturnHolds(h, x, c, o);
    } else {
      TakeHolds(h, x, c, o, Arrived(h, x, c).requests);
    }
  }

  lemma ReturnHolds(h: Handle, x: Id, c: Id, o: Checkout)
    requires HoldersAgree(h) && x in h.checkouts && h.checkouts[x].conn.None? && !Holds(h.checkouts[x].phase)
    requires c in h.conns && o.conn == Some(c) && o.phase == Over
    ensures HoldersAgree(With(h, x, o)) && StaysOverdue(h, With(h, x, o))
  {
  }

  lemma TakeHolds(h: Handle, x: Id, c: Id, o: Checkout, requests: map<Id, Id>)
    requires HoldersAgree(h) && x in h.checkouts && h.checkouts[x].conn.None? && !Holds(h.checkouts[x].phase)
    requires c in h.conns && h.conns[c] == Idle && o.conn == Some(c) && Holds(o.phase)
    ensures HoldersAgree(With(h, x, o).(conns := h.conns[c := Busy(x)], requests := requests))
    ensures StaysOverdue(h, With(h, x, o).(conns := h.conns[c := Busy(x)], requests := requests))
  {
    var h2 := With(h, x, o).(conns := h.conns[c := Busy(x)], requests := requests);
    forall d | OnlyOverdue(h, d) ensures OnlyOverdue(h2, d) { assert d != c; }
    forall y | Overdue(h, y) ensures Overdue(h2, y) { assert OnlyOverdue(h2, h.checkouts[y].conn.value); }
  }

  /** A checkout goes from one phase in which it holds its connection to another, never out of the grace period. */
  lemma PhaseHolds(h: Handle, x: Id, o: Checkout)
    requires HoldersAgree(h) && x in h.checkouts && h.checkouts[x].phase == Working && Holds(o.phase)
    requires o.conn == h.checkouts[x].conn && (h.checkouts[x].late ==> o.late)
    ensures HoldersAgree(With(h, x, o)) && StaysOverdue(h, With(h, x, o))
  {
  }

  /** A borrowed connection sends a request for the overdue call it was asked for. */
  lemma ArrivalRequests(h: Handle, x: Id, c: Id, k: Id)
    requires Possible(h, Arrive(x, c)) && h.checkouts[x].conn.None? && StaysOverdue(h, Arrived(h, x, c))
    requires h.checkouts[x].purpose.CancelOf? ==> Overdue(h, h.checkouts[x].purpose.call)
    requires k in Arrived(h, x, c).requests
    ensures (k in h.requests && Arrived(h, x, c).requests[k] == h.requests[k])
            || OnlyOverdue(Arrived(h, x, c), Arrived(h, x, c).requests[k])
  {
    var p := h.checkouts[x].purpose;
    if p.CancelOf? { assert Overdue(h, p.call) && OnlyOverdue(h, h.checkouts[p.call].conn.value); }
    hide OnlyOverdue;
  }

  lemma ArriveKeeps(h: Handle, x: Id, c: Id)
    requires Contract(h) && Possible(h, Arrive(x, c))
    ensures Contract(Arrived(h, x, c))
  {
    ArrivalAgrees(h, x, c);
    assert CheckoutOk(h.checkouts[x]);
    var h2 := Arrived(h, x, c);
    assert h.checkouts[x].purpose.CancelOf? ==> Overdue(h, h.checkouts[x].purpose.call);
    forall k | k in h2.requests
      ensures (k in h.requests && h2.requests[k] == h.requests[k]) || OnlyOverdue(h2, h2.requests[k])
    {
      ArrivalRequests(h, x, c, k);
    }
    hide CheckoutOk, HoldersAgree, OnlyOverdue, Overdue, StaysOverdue;
    RequestsStaySafe(h, h2);
    hide RequestsSafe, CheckoutsOk;
  }

  /** The call goes overdue before the request that names its backend exists. */
  lemma LateKeeps(h: Handle, x: Id)
    requires Contract(h) && x in h.checkouts && h.checkouts[x].phase == Working
    ensures var h2 := With(h, x, h.checkouts[x].(phase := Grace, late := true)); Contract(h2) && Overdue(h2, x)
  {
    var o := h.checkouts[x].(phase := Grace, late := true);
    assert CheckoutOk(h.checkouts[x]) && CheckoutOk(o);
    hide CheckoutOk;
    PhaseHolds(h, x, o);
    RequestsStaySafe(h, With(h, x, o));
  }

  lemma DeadlineKeeps(h: Handle, x: Id, k: Id, dedicated: bool)
    requires Contract(h) && Possible(h, Deadline(x, k, dedicated))
    ensures Contract(PassDeadline(h, x, k, dedicated))
  {
    LateKeeps(h, x);
    var h2 := With(h, x, h.checkouts[x].(phase := Grace, late := true));
    if h.checkouts[x].conn.value in h.known {
      if dedicated { RequestKeeps(h2, k, h.checkouts[x].conn.value); } else { CallKeeps(h2, k, CancelOf(x)); }
    }
  }

  lemma RequestKeeps(h: Handle, k: Id, c: Id)
    requires Contract(h) && OnlyOverdue(h, c)
    ensures Contract(h.(requests := h.requests[k := c]))
  {
    var h2 := h.(requests := h.requests[k := c]);
    assert StaysOverdue(h, h2);
    RequestsStaySafe(h, h2);
  }

  /** The pids known and the requests delivered concern nobody's connection. */
  lemma BookkeepingKeeps(h: Handle, ks: set<Id>, known: set<Id>)
    requires Contract(h)
    ensures Contract(h.(requests := h.requests - ks, known := known))
  {
    var h2 := h.(requests := h.requests - ks, known := known);
    assert StaysOverdue(h, h2);
    RequestsStaySafe(h, h2);
  }

  lemma ErrorKeeps(h: Handle, c: Id)
    requires Contract(h) && Possible(h, ConnectionError(c))
    ensures Contract(Errored(h, c))
  {
    if h.conns[c].Busy? {
      var x := h.conns[c].holder;
      AnnotateKeeps(h, x, h.checkouts[x].(error := true));
    } else {
      var h2 := Errored(h, c);
      assert HoldersAgree(h2) && StaysOverdue(h, h2) by { hide CheckoutOk; }
      RequestsStaySafe(h, h2);
    }
  }

  lemma SettleKeeps(h: Handle, x: Id, ok: bool)
    requires Contract(h) && Possible(h, Settle(x, ok))
    ensures Contract(SettleWork(h, x, ok))
  {
    var o := h.checkouts[x].(settled := Some(ok), answer := Some(if ok then Value else Failure));
    if o.phase == Grace || ok {
      assert CheckoutOk(h.checkouts[x]);
      EndKeeps(h, x, o, o.phase == Grace);
      hide Contract;
    } else {
      ProbingKeeps(h, x, o.(phase := Probing));
      hide Contract;
    }
  }

  lemma ProbingKeeps(h: Handle, x: Id, o: Checkout)
    requires Contract(h) && x in h.checkouts && h.checkouts[x].phase == Working
    requires o == h.checkouts[x].(settled := Some(false), answer := Some(Failure), phase := Probing)
    ensures Contract(With(h, x, o))
  {
    assert CheckoutOk(h.checkouts[x]) && CheckoutOk(o);
    hide CheckoutOk;
    PhaseHolds(h, x, o);
    RequestsStaySafe(h, With(h, x, o));
    hide HoldersAgree, RequestsSafe, StaysOverdue;
  }

  /** Handing back with a last note on the checkout. */
  lemma EndKeeps(h: Handle, x: Id, o: Checkout, failed: bool)
    requires Contract(h) && x in h.checkouts && Holds(o.phase)
    requires o.phase == h.checkouts[x].phase && o.purpose == h.checkouts[x].purpose
        && o.conn == h.checkouts[x].conn && o.late == h.checkouts[x].late
    requires o.phase == Grace ==> failed
    requires CheckoutOk(o.(phase := Over, releases := o.releases + 1, clean := !(failed || o.error)))
    ensures Contract(Finish(With(h, x, o), x, failed))
  {
    NotedStays(h, x, o);
    FinishedStays(With(h, x, o), x, failed);
    EndedCheckouts(h, x, o, failed);
    hide CheckoutsOk, HoldersAgree, RequestsSafe, CheckoutOk;
  }

  lemma EndedCheckouts(h: Handle, x: Id, o: Checkout, failed: bool)
    requires CheckoutsOk(h) && x in h.checkouts && o.conn.Some?
    requires CheckoutOk(o.(phase := Over, releases := o.releases + 1, clean := !(failed || o.error)))
    ensures CheckoutsOk(Finish(With(h, x, o), x, failed))
  {
    hide CheckoutOk;
  }

  lemma NotedStays(h: Handle, x: Id, o: Checkout)
    requires HoldersAgree(h) && RequestsSafe(h) && x in h.checkouts
    requires o.phase == h.checkouts[x].phase && o.purpose == h.checkouts[x].purpose
    requires o.conn == h.checkouts[x].conn && o.late == h.checkouts[x].late
    ensures HoldersAgree(With(h, x, o)) && RequestsSafe(With(h, x, o))
  {
    AnnotateAgrees(h, x, o);
    RequestsStaySafe(h, With(h, x, o));
    hide HoldersAgree, RequestsSafe, StaysOverdue;
  }

  lemma FinishedStays(h: Handle, x: Id, failed: bool)
    requires HoldersAgree(h) && RequestsSafe(h) && x in h.checkouts && Holds(h.checkouts[x].phase)
    requires h.checkouts[x].phase == Grace ==> failed
    ensures HoldersAgree(Finish(h, x, failed)) && RequestsSafe(Finish(h, x, failed))
  {
    FinishKeepsHolders(h, x, failed);
    FinishStaysOverdue(h, x, failed);
    RequestsStaySafe(h, Finish(h, x, failed));
    hide HoldersAgree, RequestsSafe, StaysOverdue;
  }

  lemma NextKeeps(h: Handle, e: Event)
    requires Contract(h) && Possible(h, e)
    ensures Contract(Next(h, e))
  {
    hide Contract;
    match e
    case Call(x) => CallKeeps(h, x, Serve);
    case Arrive(x, c) => ArriveKeeps(h, x, c);
    case GiveUp(x) => UnservedKeeps(h, x, GaveUp);
    case Reject(x) => UnservedKeeps(h, x, Refused);
    case LearnPid(x) => BookkeepingKeeps(h, {}, h.known + {h.checkouts[x].conn.value});
    assert h.requests - {} == h.requests;
    case Settle(x, ok) => SettleKeeps(h, x, ok);
    case Deadline(x, k, dedicated) => DeadlineKeeps(h, x, k, dedicated);
    case GraceOver(x) => GraceOverKeeps(h, x);
    case ProbeAnswer(x, ok) => ProbeAnswerKeeps(h, x, ok);
    case ProbeLimit(x) => LimitKeeps(h, x);
    case ConnectionError(c) => ErrorKeeps(h, c);
    case CancelAnswer(k, ok) => CancelAnswerKeeps(h, k, ok);
    case CancelLimit(k) => LimitKeeps(h, k);
    case Deliver(k) => BookkeepingKeeps(h, {k}, h.known);
  }

  lemma GraceOverKeeps(h: Handle, x: Id)
    requires Contract(h) && Possible(h, GraceOver(x))
    ensures Contract(Next(h, GraceOver(x)))
  {
    assert CheckoutOk(h.checkouts[x]);
    EndKeeps(h, x, h.checkouts[x].(answer := Some(TimedOut)), true);
  }

  lemma ProbeAnswerKeeps(h: Handle, x: Id, ok: bool)
    requires Contract(h) && Possible(h, ProbeAnswer(x, ok))
    ensures Contract(Next(h, ProbeAnswer(x, ok)))
  {
    assert CheckoutOk(h.checkouts[x]);
    EndKeeps(h, x, h.checkouts[x].(probed := Some(ok)), !ok);
  }

  /** The probe's limit, or the cancel request's. */
  lemma LimitKeeps(h: Handle, x: Id)
    requires Contract(h) && (Possible(h, ProbeLimit(x)) || Possible(h, CancelLimit(x)))
    ensures Contract(Finish(h, x, true))
  {
    assert CheckoutOk(h.checkouts[x]);
    FinishKeeps(h, x, true);
  }

  lemma CancelAnswerKeeps(h: Handle, k: Id, ok: bool)
    requires Contract(h) && Possible(h, CancelAnswer(k, ok))
    ensures Contract(Next(h, CancelAnswer(k, ok)))
  {
    assert CheckoutOk(h.checkouts[k]);
    EndKeeps(h, k, h.checkouts[k].(probed := Some(ok)), !ok);
    var h2 := Finish(With(h, k, h.checkouts[k].(probed := Some(ok))), k, !ok);
    BookkeepingKeeps(h2, {k}, h2.known);
    hide Contract;
  }

  /** A caller without a connection: it gave up, or the pool refused it. */
  lemma UnservedKeeps(h: Handle, x: Id, p: Phase)
    requires Contract(h) && Possible(h, Reject(x)) && p in {GaveUp, Refused}
    ensures Contract(With(h, x, h.checkouts[x].(phase := p, answer := Some(NoConnection))))
  {
    var o := h.checkouts[x].(phase := p, answer := Some(NoConnection));
    assert CheckoutOk(h.checkouts[x]) && CheckoutOk(o);
    hide CheckoutOk;
    UnservedAgrees(h, x, o);
    RequestsStaySafe(h, With(h, x, o));
    hide HoldersAgree, RequestsSafe, StaysOverdue;
  }

  lemma UnservedAgrees(h: Handle, x: Id, o: Checkout)
    requires HoldersAgree(h) && x in h.checkouts && h.checkouts[x].conn.None? && !Holds(h.checkouts[x].phase)
    requires o.conn.None? && !Holds(o.phase)
    ensures HoldersAgree(With(h, x, o)) && StaysOverdue(h, With(h, x, o))
  {
  }

  // ----- Every order of events -----

  ghost predicate Start(h: Handle) {
    (forall c :: c in h.conns ==> h.conns[c] == Idle) && h.checkouts == map[] && h.requests == map[]
  }

  ghost predicate Happens(h: Handle, es: seq<Event>)
    decreases |es|
  {
    es == [] || (Possible(h, es[0]) && Happens(Next(h, es[0]), es[1..]))
  }

  ghost function Eventually(h: Handle, es: seq<Event>): Handle
    requires Happens(h, es)
    decreases |es|
  {
    if es == [] then h else Eventually(Next(h, es[0]), es[1..])
  }

  lemma {:induction false} EveryOrderKeeps(h: Handle, es: seq<Event>)
    requires Contract(h) && Happens(h, es)
    ensures Contract(Eventually(h, es))
    decreases |es|
  {
    hide Contract;
    if es != [] {
      NextKeeps(h, es[0]);
      EveryOrderKeeps(Next(h, es[0]), es[1..]);
    }
  }

  /** Some order of events leads from a fresh pool to `h`. */
  ghost predicate Reached(h: Handle) {
    exists h0, es :: Start(h0) && Happens(h0, es) && h == Eventually(h0, es)
  }

  lemma ContractHolds(h: Handle)
    requires Reached(h)
    ensures Contract(h)
  {
    var h0, es :| Start(h0) && Happens(h0, es) && h == Eventually(h0, es);
    EveryOrderKeeps(h0, es);
  }

  /** Each connection taken is handed back exactly once: not while it is in use, and once the checkout is over. */
  lemma ReleasedExactlyOnce(h: Handle, x: Id)
    requires Reached(h) && x in h.checkouts
    ensures h.checkouts[x].releases == if h.checkouts[x].phase == Over then 1 else 0
    ensures Holds(h.checkouts[x].phase) ==> h.checkouts[x].conn.Some? && h.checkouts[x].conn.value in h.conns
    ensures Holds(h.checkouts[x].phase) ==> h.conns[h.checkouts[x].conn.value] == Busy(x)
  {
    ContractHolds(h);
    assert CheckoutOk(h.checkouts[x]);
  }

  /** A command's connection returns to the pool clean exactly when its command settled before the deadline, a failure
      was followed by a good rollback probe, and no connection error was recorded. */
  lemma CleanExactlyWhenEarned(h: Handle, x: Id)
    requires Reached(h) && x in h.checkouts
    requires h.checkouts[x].phase == Over && h.checkouts[x].purpose == Serve
        && h.checkouts[x].answer != Some(NoConnection)
    ensures var o := h.checkouts[x];
            o.clean <==>
              !o.error && !o.late && (o.settled == Some(true) || (o.settled == Some(false) && o.probed == Some(true)))
  {
    ContractHolds(h);
    assert CheckoutOk(h.checkouts[x]);
  }

  /** A cancel request still in flight never names a backend that is free or serves another command: the connection
      is gone, or still with the overdue call itself. */
  lemma CancelNeverHitsAnother(h: Handle, k: Id)
    requires Reached(h) && k in h.requests
    ensures var c := h.requests[k];
            && c in h.conns && h.conns[c] != Idle
            && (h.conns[c].Busy? ==>
                  h.conns[c].holder in h.checkouts && h.checkouts[h.conns[c].holder].late
                  && h.checkouts[h.conns[c].holder].settled.None?)
  {
    ContractHolds(h);
    assert OnlyOverdue(h, h.requests[k]);
    if h.conns[h.requests[k]].Busy? { assert CheckoutOk(h.checkouts[h.conns[h.requests[k]].holder]); }
  }

  /** No two checkouts hold one connection. */
  lemma HeldByOne(h: Handle, x: Id, y: Id)
    requires Reached(h) && x in h.checkouts && y in h.checkouts && x != y
    requires Holds(h.checkouts[x].phase) && Holds(h.checkouts[y].phase)
    ensures h.checkouts[x].conn != h.checkouts[y].conn
  {
    ContractHolds(h);
  }

  /** The caller hears how the command ended if it ended while its connection was held, and a timeout otherwise. */
  lemma CallerHearsTheEnd(h: Handle, x: Id)
    requires Reached(h) && x in h.checkouts && h.checkouts[x].phase == Over && h.checkouts[x].purpose == Serve
    ensures match h.checkouts[x].settled
            case Some(ok) => h.checkouts[x].answer == Some(if ok then Value else Failure)
            case None => h.checkouts[x].answer == Some(TimedOut) || h.checkouts[x].answer == Some(NoConnection)
  {
    ContractHolds(h);
    assert CheckoutOk(h.checkouts[x]);
  }

  predicate HandedBack(h: Handle, x: Id) {
    x in h.checkouts && h.checkouts[x].phase == Over && h.checkouts[x].releases == 1
  }

  /** The timers of a checkout that holds a connection, in the order they run out. `k` names the cancel request. */
  function Timers(o: Checkout, x: Id, k: Id): seq<Event> {
    match o.phase
    case Working => [Deadline(x, k, true), GraceOver(x)]
    case Grace => [GraceOver(x)]
    case Probing => [ProbeLimit(x)]
    case Asking => [CancelLimit(x)]
    case _ => []
  }

  /** No connection is held for ever: whatever else stalls, the checkout's own timers hand it back. */
  lemma TimersRelease(h: Handle, x: Id, k: Id)
    requires Reached(h) && x in h.checkouts && Holds(h.checkouts[x].phase) && k !in h.checkouts && k !in h.requests
    ensures Happens(h, Timers(h.checkouts[x], x, k))
    ensures HandedBack(Eventually(h, Timers(h.checkouts[x], x, k)), x)
  {
    ContractHolds(h);
    assert CheckoutOk(h.checkouts[x]) && h.checkouts[x].conn.Some?;
    TimersRun(h, x, k);
  }

  lemma TimersRun(h: Handle, x: Id, k: Id)
    requires x in h.checkouts && Holds(h.checkouts[x].phase) && h.checkouts[x].conn.Some?
        && h.checkouts[x].releases == 0
    requires k !in h.checkouts && k !in h.requests
    ensures Happens(h, Timers(h.checkouts[x], x, k))
    ensures HandedBack(Eventually(h, Timers(h.checkouts[x], x, k)), x)
  {
    var ts := Timers(h.checkouts[x], x, k);
    if h.checkouts[x].phase == Working {
      GraceRuns(Next(h, ts[0]), x);
      assert ts[1..] == [GraceOver(x)];
    } else {
      assert ts[1..] == [];
      assert Next(h, ts[0]) == Eventually(Next(h, ts[0]), []);
    }
  }

  lemma GraceRuns(h: Handle, x: Id)
    requires x in h.checkouts && h.checkouts[x].phase == Grace && h.checkouts[x].conn.Some?
        && h.checkouts[x].releases == 0
    ensures Happens(h, [GraceOver(x)]) && HandedBack(Eventually(h, [GraceOver(x)]), x)
  {
    assert [GraceOver(x)][1..] == [];
    assert Next(h, GraceOver(x)) == Eventually(Next(h, GraceOver(x)), []);
  }

  // ----- The handle's callbacks -----

  /** Nothing but checkout `x` changed among the checkouts, and nothing but connection `c` among the connections. */
  ghost predicate OnlyTouches(h: Handle, h2: Handle, x: Id, c: Id) {
    && h2.checkouts.Keys == h.checkouts.Keys
    && (forall y :: y in h.checkouts && y != x ==> h2.checkouts[y] == h.checkouts[y])
    && h2.conns.Keys == h.conns.Keys && (forall d :: d in h.conns && d != c ==> h2.conns[d] == h.conns[d])
  }

  /** `x` is over and its connection `c` handed back once: to the pool, or closed. */
  predicate Returned(h: Handle, x: Id, c: Id, clean: bool) {
    && HandedBack(h, x) && h.checkouts[x].clean == clean
    && c in h.conns && h.conns[c] == if clean then Idle else Gone
  }

  /** Only checkout `x` changed, and it changed to `o`. */
  predicate OnlyCheckout(h: Handle, h2: Handle, x: Id, o: Checkout) {
    h2.conns == h.conns && h2.known == h.known && h2.requests == h.requests && h2.checkouts == h.checkouts[x := o]
  }

  /** What an arrival means: one too late leaves the pool as if it had never been asked; otherwise the caller, and
      nobody else, holds the connection. A command starts on it; a connection borrowed for an overdue call sends the
      request that names that call's backend. */
  ghost predicate ArrivalMeans(h: Handle, h2: Handle, x: Id, c: Id)
    requires x in h.checkouts
  {
    var o := h.checkouts[x];
    && OnlyTouches(h, h2, x, c) && h2.known == h.known && x in h2.checkouts
    && (o.phase == GaveUp ==> h2.conns == h.conns && h2.requests == h.requests && Returned(h2, x, c, true))
    && (o.phase == Waiting ==>
          && h2.conns == h.conns[c := Busy(x)]
          && match o.purpose
             case Serve => h2.requests == h.requests && h2.checkouts[x] == o.(phase := Working, conn := Some(c))
             case CancelOf(call) =>
               && call in h.checkouts && h.checkouts[call].conn.Some? && h.checkouts[call].late
               && h2.requests == h.requests[x := h.checkouts[call].conn.value]
               && h2.checkouts[x] == o.(phase := Asking, conn := Some(c)))
  }

  /** What settling means: the caller hears the result. A success before the deadline returns the connection unless an
      error was recorded, after the deadline it is closed whatever the result, and a failure on time is not handed back
      before it is probed. */
  ghost predicate SettlingMeans(h: Handle, h2: Handle, x: Id, ok: bool)
    requires x in h.checkouts && h.checkouts[x].conn.Some?
  {
    var o, c := h.checkouts[x], h.checkouts[x].conn.value;
    && OnlyTouches(h, h2, x, c) && h2.requests == h.requests && h2.known == h.known && x in h2.checkouts
    && h2.checkouts[x].answer == Some(if ok then Value else Failure)
    && (ok || o.late ==> Returned(h2, x, c, ok && !o.late && !o.error))
    && (!ok && !o.late ==>
          h2.conns == h.conns && h2.checkouts[x].phase == Probing && h2.checkouts[x].releases == 0)
  }

  /** What the deadline means: the connection stays with its overdue call, which is marked late. If its backend is
      known, a request that names it goes out: at once over the dedicated connection, or else a connection is asked for
      to send it. If it is not known, nothing goes out. */
  ghost predicate DeadlineMeans(h: Handle, h2: Handle, x: Id, k: Id, dedicated: bool)
    requires x in h.checkouts && h.checkouts[x].conn.Some?
  {
    var o, c := h.checkouts[x], h.checkouts[x].conn.value;
    var late := h.checkouts[x := o.(phase := Grace, late := true)];
    && h2.conns == h.conns && h2.known == h.known && c in h2.conns && h2.conns[c] == Busy(x) && o.releases == 0
    && (c !in h.known ==> h2.requests == h.requests && h2.checkouts == late)
    && (c in h.known && dedicated ==> h2.requests == h.requests[k := c] && h2.checkouts == late)
    && (c in h.known && !dedicated ==>
          h2.requests == h.requests && k !in h.checkouts && h2.checkouts == late[k := Fresh(CancelOf(x))])
  }

  /** A checkout that waits for its connection. */
  function Fresh(p: Purpose): Checkout {
    Checkout(p, Waiting, None, false, None, false, None, 0, false, None)
  }

  /** What an ending means: the connection of `x` is handed back once, clean or closed, and the caller hears the
      given answer. */
  ghost predicate EndingMeans(h: Handle, h2: Handle, x: Id, clean: bool, answer: Option<Answer>)
    requires x in h.checkouts && h.checkouts[x].conn.Some?
  {
    var c := h.checkouts[x].conn.value;
    OnlyTouches(h, h2, x, c) && h2.known == h.known && Returned(h2, x, c, clean) && h2.checkouts[x].answer == answer
  }

  /** What a connection error means: recorded for the holder of a connection in use, and nothing else yet; an idle one
      leaves the pool. */
  ghost predicate ErrorMeans(h: Handle, h2: Handle, c: Id)
    requires c in h.conns
  {
    match h.conns[c]
    case Busy(x) =>
      x in h.checkouts && OnlyCheckout(h, h2, x, h.checkouts[x].(error := true)) && h.checkouts[x].releases == 0
    case _ =>
      h2.conns == h.conns[c := Gone] && h2.checkouts == h.checkouts && h2.known == h.known && h2.requests == h.requests
  }

  lemma ArrivalHas(h: Handle, x: Id, c: Id)
    requires Contract(h) && Possible(h, Arrive(x, c))
    ensures ArrivalMeans(h, Next(h, Arrive(x, c)), x, c)
  {
    assert CheckoutOk(h.checkouts[x]);
    if h.checkouts[x].purpose.CancelOf? { assert Overdue(h, h.checkouts[x].purpose.call); }
    hide Contract, CheckoutOk, OnlyOverdue;
  }

  lemma SettlingHas(h: Handle, x: Id, ok: bool)
    requires Contract(h) && Possible(h, Settle(x, ok))
    ensures SettlingMeans(h, Next(h, Settle(x, ok)), x, ok)
  {
    HeldFacts(h, x);
    var o := h.checkouts[x].(settled := Some(ok), answer := Some(if ok then Value else Failure));
    if o.phase == Grace || ok { EndingHas(h, x, o, o.phase == Grace); }
    assert (o.phase == Grace) == o.late;
    hide Contract, CheckoutOk;
  }

  lemma DeadlineHas(h: Handle, x: Id, k: Id, dedicated: bool)
    requires Contract(h) && Possible(h, Deadline(x, k, dedicated))
    ensures DeadlineMeans(h, Next(h, Deadline(x, k, dedicated)), x, k, dedicated)
  {
    HeldFacts(h, x);
    hide Contract;
  }

  /** A checkout keeps its purpose, and its connection once it has one. */
  lemma CheckoutStays(h: Handle, e: Event, x: Id)
    requires Contract(h) && Possible(h, e) && x in h.checkouts
    ensures x in Next(h, e).checkouts && Next(h, e).checkouts[x].purpose == h.checkouts[x].purpose
    ensures h.checkouts[x].conn.Some? ==> Next(h, e).checkouts[x].conn == h.checkouts[x].conn
  {
    assert CheckoutOk(h.checkouts[x]);
    hide Contract;
  }

  lemma {:induction false} CheckoutStaysFor(h: Handle, es: seq<Event>, x: Id)
    requires Contract(h) && Happens(h, es) && x in h.checkouts
    ensures x in Eventually(h, es).checkouts && Eventually(h, es).checkouts[x].purpose == h.checkouts[x].purpose
    ensures h.checkouts[x].conn.Some? ==> Eventually(h, es).checkouts[x].conn == h.checkouts[x].conn
    decreases |es|
  {
    hide Contract, Next, Possible;
    if es != [] {
      CheckoutStays(h, es[0], x);
      NextKeeps(h, es[0]);
      CheckoutStaysFor(Next(h, es[0]), es[1..], x);
    }
  }

  /** An overdue command whose backend is known is cancelled: at its deadline over the dedicated connection, or,
      whatever happens in between, as soon as the connection asked for the request arrives. */
  lemma OverdueIsCancelled(h: Handle, x: Id, k: Id, dedicated: bool, es: seq<Event>, d: Id)
    requires Contract(h) && Possible(h, Deadline(x, k, dedicated)) && h.checkouts[x].conn.value in h.known
    requires Happens(Next(h, Deadline(x, k, dedicated)), es)
    ensures var after := Next(h, Deadline(x, k, dedicated));
            var later := Eventually(after, es);
            if dedicated then k in after.requests && Some(after.requests[k]) == h.checkouts[x].conn
            else
              && k in later.checkouts
              && (later.checkouts[k].phase == Waiting && Possible(later, Arrive(k, d)) ==>
                    var sent := Next(later, Arrive(k, d)).requests;
                    k in sent && Some(sent[k]) == h.checkouts[x].conn)
  {
    var after := Next(h, Deadline(x, k, dedicated));
    DeadlineHas(h, x, k, dedicated);
    NextKeeps(h, Deadline(x, k, dedicated));
    if !dedicated {
      CheckoutStaysFor(after, es, x);
      CheckoutStaysFor(after, es, k);
      EveryOrderKeeps(after, es);
      var later := Eventually(after, es);
      if later.checkouts[k].phase == Waiting && Possible(later, Arrive(k, d)) {
        ArrivalHas(later, k, d);
        hide Contract, Next;
      }
    }
  }

  lemma HeldFacts(h: Handle, x: Id)
    requires Contract(h) && x in h.checkouts && Holds(h.checkouts[x].phase)
    ensures CheckoutOk(h.checkouts[x])
    ensures h.checkouts[x].conn.Some? && h.checkouts[x].conn.value in h.conns
    ensures h.conns[h.checkouts[x].conn.value] == Busy(x) && h.checkouts[x].releases == 0
  {
    assert CheckoutOk(h.checkouts[x]);
  }

  /** Handing back with a last note on the checkout. */
  lemma EndingHas(h: Handle, x: Id, o: Checkout, failed: bool)
    requires Contract(h) && x in h.checkouts && Holds(h.checkouts[x].phase)
    requires o.conn == h.checkouts[x].conn && o.releases == h.checkouts[x].releases
    ensures o.conn.Some? && EndingMeans(h, Finish(With(h, x, o), x, failed), x, !(failed || o.error), o.answer)
  {
    HeldFacts(h, x);
    hide Contract, CheckoutOk;
  }

  /** Requests are no part of what an ending means. */
  lemma EndingIgnoresRequests(h: Handle, h2: Handle, x: Id, clean: bool, answer: Option<Answer>, requests: map<Id, Id>)
    requires x in h.checkouts && h.checkouts[x].conn.Some? && EndingMeans(h, h2, x, clean, answer)
    ensures EndingMeans(h, h2.(requests := requests), x, clean, answer)
  {
  }

  lemma ErrorHas(h: Handle, c: Id)
    requires Contract(h) && Possible(h, ConnectionError(c))
    ensures ErrorMeans(h, Next(h, ConnectionError(c)), c)
  {
    if h.conns[c].Busy? { HeldFacts(h, h.conns[c].holder); }
    hide Contract;
  }

  /** The mutable state behind the promises: every callback updates it in place as its event arrives, and each keeps the
      connection contract. */
  class PoolHandle {
    var conns: map<Id, Place>
    var checkouts: map<Id, Checkout>
    var known: set<Id>
    var requests: map<Id, Id>

    ghost function State(): Handle
      reads this
    {
      Handle(conns, checkouts, known, requests)
    }

    ghost predicate Valid()
      reads this
    {
      Contract(State())
    }

    constructor (ids: set<Id>)
      ensures Valid() && Start(State()) && conns.Keys == ids
    {
      conns := map c | c in ids :: Idle;
      checkouts, known, requests := map[], {}, map[];
    }

    /** `finish`: the connection is released once, with the error if there is one. */
    method FinishWith(x: Id, failed: bool)
      requires x in checkouts && checkouts[x].conn.Some?
      modifies this
      ensures State() == Finish(old(State()), x, failed)
    {
      var o := checkouts[x];
      if failed || o.error {
        conns := conns[o.conn.value := Gone];
      } else {
        conns := conns[o.conn.value := Idle];
      }
      checkouts := checkouts[x := o.(phase := Over, releases := o.releases + 1, clean := !(failed || o.error))];
    }

    method OnCall(x: Id)
      requires Valid() && Possible(State(), Call(x))
      modifies this
      ensures Valid() && State() == Next(old(State()), Call(x))
      ensures OnlyCheckout(old(State()), State(), x, Fresh(Serve))
    {
      ghost var before := State();
      checkouts := checkouts[x := Asked(Serve)];
      NextKeeps(before, Call(x));
      hide Contract;
    }

    /** A caller that gives up leaves the pool as it was. */
    method OnGiveUp(x: Id)
      requires Valid() && Possible(State(), GiveUp(x))
      modifies this
      ensures Valid() && State() == Next(old(State()), GiveUp(x))
      ensures OnlyCheckout(old(State()), State(), x,
                           old(checkouts)[x].(phase := GaveUp, answer := Some(NoConnection)))
    {
      ghost var before := State();
      checkouts := checkouts[x := checkouts[x].(phase := GaveUp, answer := Some(NoConnection))];
      NextKeeps(before, GiveUp(x));
      hide Contract;
    }

    /** A refusal by the pool leaves it as it was, and nothing is left to hand back. */
    method OnReject(x: Id)
      requires Valid() && Possible(State(), Reject(x))
      modifies this
      ensures Valid() && State() == Next(old(State()), Reject(x))
      ensures OnlyCheckout(old(State()), State(), x,
                           old(checkouts)[x].(phase := Refused, answer := Some(NoConnection)))
      ensures checkouts[x].releases == 0 && checkouts[x].conn == None
    {
      ghost var before := State();
      assert CheckoutOk(checkouts[x]);
      checkouts := checkouts[x := checkouts[x].(phase := Refused, answer := Some(NoConnection))];
      NextKeeps(before, Reject(x));
      hide Contract;
    }

    /** A connection that arrives too late goes straight back: the pool is as if it had never been asked. Otherwise the
        caller, and nobody else, holds it. */
    method OnArrive(x: Id, c: Id)
      requires Valid() && Possible(State(), Arrive(x, c))
      modifies this
      ensures Valid() && State() == Next(old(State()), Arrive(x, c))
      ensures ArrivalMeans(old(State()), State(), x, c)
    {
      hide Contract, ArrivalMeans, SettlingMeans, DeadlineMeans, EndingMeans, ErrorMeans;
      ghost var before := State();
      var o := checkouts[x];
      if o.phase == GaveUp {
        checkouts := checkouts[x := o.(phase := Over, conn := Some(c), releases := o.releases + 1, clean := true)];
      } else {
        conns := conns[c := Busy(x)];
        match o.purpose {
          case Serve =>
            checkouts := checkouts[x := o.(phase := Working, conn := Some(c))];
          case CancelOf(call) =>
            if call in checkouts && checkouts[call].conn.Some? {
              requests := requests[x := checkouts[call].conn.value];
            }
            checkouts := checkouts[x := o.(phase := Asking, conn := Some(c))];
        }
      }
      NextKeeps(before, Arrive(x, c));
      ArrivalHas(before, x, c);
    }

    /** The backend is known from here on. */
    method OnLearnPid(x: Id)
      requires Valid() && Possible(State(), LearnPid(x))
      modifies this
      ensures Valid() && State() == Next(old(State()), LearnPid(x))
      ensures old(checkouts)[x].conn.Some? && known == old(known) + {old(checkouts)[x].conn.value}
      ensures conns == old(conns) && checkouts == old(checkouts) && requests == old(requests)
    {
      ghost var before := State();
      known := known + {checkouts[x].conn.value};
      NextKeeps(before, LearnPid(x));
      hide Contract;
    }

    /** The caller hears the result. A success before the deadline returns the connection unless an error was
        recorded; after the deadline it is closed whatever the result; and a failure on time is not handed back before
        it is probed. */
    method OnSettle(x: Id, ok: bool)
      requires Valid() && Possible(State(), Settle(x, ok))
      modifies this
      ensures Valid() && State() == Next(old(State()), Settle(x, ok))
      ensures SettlingMeans(old(State()), State(), x, ok)
    {
      hide Contract, ArrivalMeans, SettlingMeans, DeadlineMeans, EndingMeans, ErrorMeans;
      ghost var before := State();
      var late := checkouts[x].phase == Grace;
      checkouts := checkouts[x := checkouts[x].(settled := Some(ok), answer := Some(if ok then Value else Failure))];
      if late {
        FinishWith(x, true);
      } else if ok {
        FinishWith(x, false);
      } else {
        checkouts := checkouts[x := checkouts[x].(phase := Probing)];
        assert State() == SettleWork(before, x, ok);
      }
      NextKeeps(before, Settle(x, ok));
      SettlingHas(before, x, ok);
    }

    /** The connection stays with its overdue call, which is marked late; a cancel request that names that very
        connection goes out, or a connection is asked for to send it, unless its backend is unknown. */
    method OnDeadline(x: Id, k: Id, dedicated: bool)
      requires Valid() && Possible(State(), Deadline(x, k, dedicated))
      modifies this
      ensures Valid() && State() == Next(old(State()), Deadline(x, k, dedicated))
      ensures DeadlineMeans(old(State()), State(), x, k, dedicated)
    {
      hide Contract, ArrivalMeans, SettlingMeans, DeadlineMeans, EndingMeans, ErrorMeans;
      ghost var before := State();
      var c := checkouts[x].conn.value;
      checkouts := checkouts[x := checkouts[x].(phase := Grace, late := true)];
      if c in known {
        if dedicated { requests := requests[k := c]; } else { checkouts := checkouts[k := Asked(CancelOf(x))]; }
      }
      NextKeeps(before, Deadline(x, k, dedicated));
      DeadlineHas(before, x, k, dedicated);
    }

    /** The caller hears of a timeout and the connection is closed, its command still running. */
    method OnGraceOver(x: Id)
      requires Valid() && Possible(State(), GraceOver(x))
      modifies this
      ensures Valid() && State() == Next(old(State()), GraceOver(x))
      ensures requests == old(requests) && EndingMeans(old(State()), State(), x, false, Some(TimedOut))
    {
      hide Contract, ArrivalMeans, SettlingMeans, DeadlineMeans, EndingMeans, ErrorMeans;
      ghost var before := State();
      checkouts := checkouts[x := checkouts[x].(answer := Some(TimedOut))];
      FinishWith(x, true);
      NextKeeps(before, GraceOver(x));
      HeldFacts(before, x);
      EndingHas(before, x, before.checkouts[x].(answer := Some(TimedOut)), true);
    }

    /** A good probe returns the connection after a failure, unless an error was recorded. */
    method OnProbe(x: Id, ok: bool)
      requires Valid() && Possible(State(), ProbeAnswer(x, ok))
      modifies this
      ensures Valid() && State() == Next(old(State()), ProbeAnswer(x, ok))
      ensures requests == old(requests)
      ensures EndingMeans(old(State()), State(), x, ok && !old(checkouts)[x].error, Some(Failure))
    {
      hide Contract, ArrivalMeans, SettlingMeans, DeadlineMeans, EndingMeans, ErrorMeans;
      ghost var before := State();
      checkouts := checkouts[x := checkouts[x].(probed := Some(ok))];
      FinishWith(x, !ok);
      NextKeeps(before, ProbeAnswer(x, ok));
      HeldFacts(before, x);
      EndingHas(before, x, before.checkouts[x].(probed := Some(ok)), !ok);
    }

    method OnProbeLimit(x: Id)
      requires Valid() && Possible(State(), ProbeLimit(x))
      modifies this
      ensures Valid() && State() == Next(old(State()), ProbeLimit(x))
      ensures requests == old(requests) && EndingMeans(old(State()), State(), x, false, Some(Failure))
    {
      hide Contract, ArrivalMeans, SettlingMeans, DeadlineMeans, EndingMeans, ErrorMeans;
      ghost var before := State();
      FinishWith(x, true);
      NextKeeps(before, ProbeLimit(x));
      HeldFacts(before, x);
      assert With(before, x, before.checkouts[x]) == before;
      EndingHas(before, x, before.checkouts[x], true);
    }

    /** An error on a connection in use is recorded for its holder and changes nothing else yet. */
    method OnError(c: Id)
      requires Valid() && Possible(State(), ConnectionError(c))
      modifies this
      ensures Valid() && State() == Next(old(State()), ConnectionError(c))
      ensures ErrorMeans(old(State()), State(), c)
    {
      hide Contract, ArrivalMeans, SettlingMeans, DeadlineMeans, EndingMeans, ErrorMeans;
      ghost var before := State();
      if conns[c].Busy? {
        checkouts := checkouts[conns[c].holder := checkouts[conns[c].holder].(error := true)];
      } else {
        conns := conns[c := Gone];
      }
      NextKeeps(before, ConnectionError(c));
      ErrorHas(before, c);
    }

    /** A borrowed connection returns once its cancel request has been answered, which is then no longer in flight. */
    method OnCancelAnswer(k: Id, ok: bool)
      requires Valid() && Possible(State(), CancelAnswer(k, ok))
      modifies this
      ensures Valid() && State() == Next(old(State()), CancelAnswer(k, ok))
      ensures requests == old(requests) - {k}
      ensures EndingMeans(old(State()), State(), k, ok && !old(checkouts)[k].error, None)
    {
      hide Contract, ArrivalMeans, SettlingMeans, DeadlineMeans, EndingMeans, ErrorMeans;
      ghost var before := State();
      checkouts := checkouts[k := checkouts[k].(probed := Some(ok))];
      FinishWith(k, !ok);
      requests := requests - {k};
      NextKeeps(before, CancelAnswer(k, ok));
      HeldFacts(before, k);
      ghost var o := before.checkouts[k].(probed := Some(ok));
      EndingHas(before, k, o, !ok);
      EndingIgnoresRequests(before, Finish(With(before, k, o), k, !ok), k, !(!ok || o.error), o.answer, requests);
    }

    method OnCancelLimit(k: Id)
      requires Valid() && Possible(State(), CancelLimit(k))
      modifies this
      ensures Valid() && State() == Next(old(State()), CancelLimit(k))
      ensures requests == old(requests) && EndingMeans(old(State()), State(), k, false, None)
    {
      hide Contract, ArrivalMeans, SettlingMeans, DeadlineMeans, EndingMeans, ErrorMeans;
      ghost var before := State();
      FinishWith(k, true);
      NextKeeps(before, CancelLimit(k));
      HeldFacts(before, k);
      assert With(before, k, before.checkouts[k]) == before;
      EndingHas(before, k, before.checkouts[k], true);
    }

    /** The request has been acted on, and the handle hears nothing of it. */
    method OnDeliver(k: Id)
      requires Valid() && Possible(State(), Deliver(k))
      modifies this
      ensures Valid() && State() == Next(old(State()), Deliver(k))
      ensures requests == old(requests) - {k}
      ensures conns == old(conns) && checkouts == old(checkouts) && known == old(known)
    {
      ghost var before := State();
      requests := requests - {k};
      NextKeeps(before, Deliver(k));
      hide Contract;
    }

    /** The event loop: each event runs its callback. */
    method HandleAll(es: seq<Event>)
      requires Valid() && Happens(State(), es)
      modifies this
      ensures Valid() && State() == Eventually(old(State()), es)
    {
      hide Contract, Next, Possible;
      var i := 0;
      assert es[0..] == es;
      while i < |es|
        invariant i <= |es| && Valid() && Happens(State(), es[i..])
        invariant Eventually(State(), es[i..]) == Eventually(old(State()), es)
      {
        assert es[i..][1..] == es[i + 1..];
        match es[i] {
          case Call(x) => OnCall(x);
          case Arrive(x, c) => OnArrive(x, c);
          case GiveUp(x) => OnGiveUp(x);
          case Reject(x) => OnReject(x);
          case LearnPid(x) => OnLearnPid(x);
          case Settle(x, ok) => OnSettle(x, ok);
          case Deadline(x, k, dedicated) => OnDeadline(x, k, dedicated);
          case GraceOver(x) => OnGraceOver(x);
          case ProbeAnswer(x, ok) => OnProbe(x, ok);
          case ProbeLimit(x) => OnProbeLimit(x);
          case ConnectionError(c) => OnError(c);
          case CancelAnswer(k, ok) => OnCancelAnswer(k, ok);
          case CancelLimit(k) => OnCancelLimit(k);
          case Deliver(k) => OnDeliver(k);
        }
        i := i + 1;
      }
    }
  }

  // ----- The dedicated canceller -----

  /** One connection for cancel requests, shared by all callers: the connecting promise is memoized. Promises are
      numbered in the order they were opened. */
  class Canceller {
    var current: Option<nat>
    var created: nat
    /** The ones that failed to connect, reported an error, failed a request, or were closed. */
    ghost var broken: set<nat>

    /** Every one created but the current is broken, so at most one connection is ever good. */
    ghost predicate Valid()
      reads this
    {
      && (current.Some? ==> current.value < created && current.value !in broken)
      && (forall p :: p in broken ==> p < created)
      && (forall p: nat :: p < created && p !in broken ==> current == Some(p))
    }

    constructor ()
      ensures Valid() && created == 0
    {
      current, created, broken := None, 0, {};
    }

    /** Callers at the same time get the same connection; a new one is created only when the last is broken. */
    method Get() returns (p: nat)
      requires Valid()
      modifies this
      ensures Valid() && current == Some(p) && p !in broken && broken == old(broken)
      ensures old(current).Some? ==> p == old(current).value && created == old(created)
      ensures old(current).None? ==> p == old(created) && created == p + 1 && forall o: nat :: o < p ==> o in broken
    {
      if current.Some? { return current.value; }
      p := created;
      current, created := Some(p), created + 1;
    }

    /** A failure, however late it arrives, forgets only the connection it is about. */
    method Break(p: nat)
      requires Valid() && p < created
      modifies this
      ensures Valid() && broken == old(broken) + {p} && created == old(created)
      ensures current == if old(current) == Some(p) then None else old(current)
    {
      broken := broken + {p};
      if current == Some(p) { current := None; }
    }
  }
}
