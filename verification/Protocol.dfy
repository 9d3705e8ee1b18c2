/** The reservation protocol as interleaved transactions.

    The database is its committed state, and every transaction carries the row versions it has written but not
    committed. One action is one SQL statement of one transaction, a commit, a rollback, the opening of a
    transaction, or the passing of time. Statements that follow one another under locks already taken are one action
    where they only read what those locks protect and write rows of their own: the booking with its unit rows, event
    and stored outcome (`Insert`), and the stranded query of an admin write with what it decides (`Decide`). A
    statement that takes a lock is enabled only while no other transaction holds a conflicting one. `begin` is the
    transaction's `now()`: it is fixed when the transaction opens, so concurrent transactions judge expiry by different
    clocks. */
module Protocol {
  import opened Domain
  import opened Sorting

  // ----- The commands -----

  datatype Key = Key(venue: Id, actor: Id, key: Id)

  /** `published` are the outbox rows that retention finds published and not dead-lettered, and since when. */
  datatype Command =
    | Hold(key: Key, hash: int, party: int, during: Range, asg: Assignment)
    | Confirm(id: Id, expected: Option<int>, presented: Option<int>)
    | Cancel(id: Id, expected: Option<int>, reasonGiven: bool)
    | Advance(id: Id, expected: Option<int>, from: Status, to: Status)
    | Mint(id: Id, expected: Option<int>, hash: int)
    | ExpireDue(limit: nat)
    | PurgeRetained(limit: nat, published: map<nat, int>)
    | Admin(edit: Edit, force: bool)

  /** A published outbox row is kept this long. */
  const RETENTION := 7 * DAY

  /** What an admin command asks for; an absent field keeps the stored value. */
  datatype Edit =
    | CreateUnit(capMin: int, capMax: int)
    | UpdateUnit(unitId: Id, newMin: Option<int>, newMax: Option<int>, unitActive: Option<bool>)
    | CreateCombo(members: seq<Id>, capMin: int, capMax: int)
    | UpdateCombo(comboId: Id, comboActive: Option<bool>)
    | CreateBlackout(during: Range, active: bool)
    | UpdateBlackout(blackoutId: Id, blackoutActive: Option<bool>)

  /** `seat` and `complete` are the only two uses of the shared status step. */
  predicate ProperCommand(c: Command) {
    c.Advance? ==> (c.from == Confirmed && c.to == Seated) || (c.from == Seated && c.to == Completed)
  }

  // ----- Results -----

  datatype Code =
    | HoldConflict | PartyDoesNotFit | InBlackout | AssignmentInactive | TooManyLiveHolds | OverlapSetTooLarge
    | DurationOutOfRange | IdempotencyMismatch | SerializationConflict | NotFound | AssignmentMismatch | Forbidden
    | VersionConflict | InvalidTransition | HoldExpired | TokenRequiresHeld | InvalidInput | Stranding | Aborted

  /** The domain outcomes that are stored under the idempotency key. */
  const STORED_OUTCOMES: set<Code> := {HoldConflict, PartyDoesNotFit, InBlackout}

  datatype Response = Granted(id: Id) | Refused(code: Code)

  datatype Outcome = Answered(response: Response, replayed: bool) | Finished | Failed(code: Code)

  // ----- The stored state -----

  datatype IdemRow = IdemRow(hash: int, response: Option<Response>, purgeAt: int)

  /** An outbox row of one reservation; its id comes from the table's sequence. */
  datatype Event = Event(id: nat, status: Status, version: int)

  /** Committed state. `trail` groups the outbox rows ever committed by reservation, in commit order, and `purged` is
      the set of those retention has deleted. `booked` and `epoch` are history: the reservations created under a key
      since it was last purged, and how often it was purged. */
  datatype Db = Db(
    cfg: Config, res: map<Id, Reservation>, idem: map<Key, IdemRow>,
    trail: map<Id, seq<Event>>, purged: set<nat>, booked: map<Key, set<Id>>, epoch: map<Key, nat>)

  function TrailOf(db: Db, id: Id): seq<Event> {
    if id in db.trail then db.trail[id] else []
  }

  function BookedUnder(db: Db, k: Key): set<Id> {
    if k in db.booked then db.booked[k] else {}
  }

  function EpochOf(db: Db, k: Key): nat {
    if k in db.epoch then db.epoch[k] else 0
  }

  // ----- Locks -----

  datatype Mode = Shared | Exclusive

  datatype Lock = KeyLock(key: Key) | VenueLock(venue: Id, mode: Mode) | UnitLock(unit: Id) | RowLock(row: Id)

  // ----- Transactions -----

  datatype PC =
    | Claim | ReadExisting | Resolve | LockVenue | LockUnits | CheckCap | ReadOverlap | LockRows | ClearDead | Insert
    | Peek | Update | Sweep | PurgeDue | Decide | CancelRows | Enqueue | Write | Ready

  datatype Txn = Txn(
    begin: int, venue: Id, cmd: Command, pc: PC,
    keys: set<Key>, venueLock: Option<Mode>, unitLocks: set<Id>, rowLocks: set<Id>,
    todoUnits: seq<Id>, todoRows: seq<Id>, toExpire: seq<Id>, todoEvents: set<Id>,
    made: Option<Id>, writes: map<Id, Reservation>, events: map<Id, Event>,
    response: Option<Response>, change: Option<Change>, purging: set<nat>)

  datatype Sys = Sys(
    clock: int, db: Db, txns: map<Id, Txn>, issued: set<Id>, nextEvent: nat, results: map<Id, Outcome>)

  /** What the environment decides in one statement: a fresh uuid, and which due rows a SKIP LOCKED batch returns. */
  datatype Choice = Choice(freshId: Id, rows: set<Id>, keys: set<Key>, events: set<nat>)

  datatype Action =
    | Tick(ms: nat)
    | Begin(t: Id, venue: Id, cmd: Command)
    | Act(t: Id, choice: Choice)
    | Commit(t: Id)
    | Abort(t: Id)

  // ----- Reading -----

  /** The row version a transaction sees: its own, or else the committed one. */
  function View(db: Db, x: Txn, id: Id): Reservation
    requires id in db.res || id in x.writes
  {
    if id in x.writes then x.writes[id] else db.res[id]
  }

  predicate Visible(db: Db, x: Txn, id: Id) {
    id in db.res && db.res[id].venue == x.venue
  }

  function FirstPc(c: Command): PC {
    match c
    case Hold(_, _, _, _, _) => Claim
    case Confirm(_, _, _) => Peek
    case Cancel(_, _, _) => LockRows
    case Advance(_, _, _, _) => LockRows
    case Mint(_, _, _) => LockRows
    case ExpireDue(_) => Sweep
    case PurgeRetained(_, _) => PurgeDue
    case Admin(_, _) => LockVenue
  }

  function Opened(now: int, venue: Id, cmd: Command): Txn {
    Txn(now, venue, cmd, FirstPc(cmd), {}, None, {}, {}, [],
        if cmd.Confirm? || cmd.Cancel? || cmd.Advance? || cmd.Mint? then [cmd.id] else [],
        [], {}, None, map[], map[], None, None, {})
  }

  // ----- What a transaction waits for -----

  function Wants(db: Db, x: Txn): Option<Lock> {
    match x.pc
    case Claim => if x.cmd.Hold? then Some(KeyLock(x.cmd.key)) else None
    case LockVenue => Some(VenueLock(x.venue, if x.cmd.Admin? then Exclusive else Shared))
    case LockUnits => if x.todoUnits == [] then None else Some(UnitLock(x.todoUnits[0]))
    case LockRows => if x.todoRows == [] || !Visible(db, x, x.todoRows[0]) then None else Some(RowLock(x.todoRows[0]))
    case _ => None
  }

  /** Holding this, `x` keeps others from taking `l`. */
  predicate Excludes(x: Txn, l: Lock) {
    match l
    case KeyLock(k) => k in x.keys
    case VenueLock(v, m) => x.venueLock.Some? && x.venue == v && (m == Exclusive || x.venueLock.value == Exclusive)
    case UnitLock(u) => u in x.unitLocks
    case RowLock(r) => r in x.rowLocks
  }

  predicate Free(s: Sys, t: Id, l: Lock) {
    forall o :: o in s.txns && o != t ==> !Excludes(s.txns[o], l)
  }

  // ----- Row updates -----

  /** A status update: the version is bumped, the token goes with the held status, and the unit rows are released
      when the reservation stops occupying them. */
  function WithStatus(r: Reservation, st: Status): Reservation {
    r.(status := st, version := r.version + 1, token := if r.status == Held then None else r.token,
       active := r.active && Occupies(st))
  }

  function LiveHolds(db: Db, x: Txn, actor: Id): set<Id> {
    set id | id in db.res && db.res[id].venue == x.venue && db.res[id].createdBy == actor
             && db.res[id].status == Held && db.res[id].expiresAt > x.begin
  }

  /** Reservations with an active row on one of the units over the range. */
  function OverlapSet(db: Db, venue: Id, units: set<Id>, during: Range): set<Id> {
    set id | id in db.res && db.res[id].venue == venue && db.res[id].active && !(db.res[id].rows !! units)
             && Overlaps(db.res[id].during, during)
  }

  /** The exclusion constraint refuses the new rows: an active row in the transaction's view overlaps them. */
  predicate Excluded(db: Db, x: Txn, units: set<Id>, during: Range) {
    exists id :: id in db.res && View(db, x, id).active && !(View(db, x, id).rows !! units)
                 && Overlaps(View(db, x, id).during, during)
  }

  function Booking(db: Db, x: Txn): Reservation
    requires x.cmd.Hold?
  {
    var ttl := if x.venue in db.cfg.venues then db.cfg.venues[x.venue].holdTtl else 0;
    Reservation(x.venue, x.cmd.party, x.cmd.during, x.cmd.asg, x.begin + ttl, x.cmd.key.actor, Held, 1, None,
                x.unitLocks, true)
  }

  // ----- Admin edits -----

  function Or<T>(o: Option<T>, stored: T): T {
    match o case Some(v) => v case None => stored
  }

  /** Two to six distinct units of the venue. */
  predicate ProperMembers(cfg: Config, venue: Id, members: seq<Id>) {
    && COMBO_MIN <= |members| <= COMBO_MAX && |Elements(members)| == |members|
    && forall m :: m in Elements(members) ==> m in cfg.units && cfg.units[m].venue == venue
  }

  /** The row an edit would leave behind, or None when the command refuses it. */
  function ChangeOf(cfg: Config, venue: Id, e: Edit, freshId: Id): Option<Change> {
    match e
    case CreateUnit(lo, hi) =>
      if 1 <= lo <= hi then Some(PutUnit(freshId, Unit(venue, lo, hi, true))) else None
    case UpdateUnit(id, lo, hi, active) =>
      if id !in cfg.units || cfg.units[id].venue != venue then None else
      var cur := cfg.units[id];
      var next := Unit(venue, Or(lo, cur.capMin), Or(hi, cur.capMax), Or(active, cur.active));
      if 1 <= next.capMin <= next.capMax then Some(PutUnit(id, next)) else None
    case CreateCombo(members, lo, hi) =>
      if ProperMembers(cfg, venue, members) && 1 <= lo <= hi
      then Some(PutCombo(freshId, Combo(venue, InOrder(Elements(members)), lo, hi, true))) else None
    case UpdateCombo(id, active) =>
      if id !in cfg.combos || cfg.combos[id].venue != venue then None else
      Some(PutCombo(id, cfg.combos[id].(active := Or(active, cfg.combos[id].active))))
    case CreateBlackout(during, active) =>
      if during.start < during.end then Some(PutBlackout(freshId, Blackout(venue, during, active))) else None
    case UpdateBlackout(id, active) =>
      if id !in cfg.blackouts || cfg.blackouts[id].venue != venue then None else
      Some(PutBlackout(id, cfg.blackouts[id].(active := Or(active, cfg.blackouts[id].active))))
  }

  /** Why an edit without such a row is refused. */
  function EditFault(cfg: Config, venue: Id, e: Edit): Code {
    match e
    case UpdateUnit(id, _, _, _) =>
      if id !in cfg.units || cfg.units[id].venue != venue then NotFound else InvalidInput
    case CreateCombo(members, _, _) =>
      if ProperMembers(cfg, venue, members) then InvalidInput else AssignmentMismatch
    case UpdateCombo(_, _) => NotFound
    case UpdateBlackout(_, _) => NotFound
    case _ => InvalidInput
  }

  /** The live reservations a change would strand, as the admin command's query reads them. */
  function StrandedSet(db: Db, x: Txn, w: Change): set<Id> {
    set id | id in db.res && db.res[id].venue == x.venue && Live(db.res[id], x.begin) && Strands(db.cfg, w, db.res[id])
  }

  predicate Started(r: Reservation, now: int) {
    r.status == Seated || r.during.start <= now
  }

  /** The guard triggers of the write refuse it: a live reservation in the transaction's view is stranded. */
  predicate GuardRefuses(db: Db, x: Txn, w: Change) {
    exists id :: id in db.res && Live(View(db, x, id), x.begin) && Strands(db.cfg, w, View(db, x, id))
  }

  // ----- One statement -----

  datatype Move = Go(x: Txn) | End(outcome: Outcome)

  function Fail(c: Code): Move { End(Failed(c)) }

  function AfterVenue(c: Command): PC { if c.Admin? then Decide else LockUnits }
  function AfterUnits(c: Command): PC { if c.Hold? then CheckCap else if c.Admin? then Write else LockRows }
  function AfterRows(c: Command): PC { if c.Hold? then ClearDead else if c.Admin? then CancelRows else Update }

  function ClaimMove(db: Db, x: Txn): Move
    requires x.cmd.Hold?
  {
    if x.cmd.key in db.idem then Go(x.(pc := ReadExisting)) else Go(x.(pc := Resolve, keys := {x.cmd.key}))
  }

  /** The claim lost to a committed row, which is read by a statement of its own. */
  function ReadExistingMove(db: Db, x: Txn): Move
    requires x.cmd.Hold?
  {
    if x.cmd.key !in db.idem then Fail(SerializationConflict) else
    var row := db.idem[x.cmd.key];
    if row.hash != x.cmd.hash then Fail(IdempotencyMismatch)
    else if row.response.None? then Fail(SerializationConflict)
    else End(Answered(row.response.value, true))
  }

  /** Reads the assignment without a lock; a missing one is a stored outcome, an inactive one is not. */
  function ResolveMove(db: Db, x: Txn): Move
    requires x.cmd.Hold?
  {
    if !Found(db.cfg, x.venue, x.cmd.asg) then Go(Answer(x, PartyDoesNotFit))
    else if !FlaggedActive(db.cfg, x.cmd.asg) then Fail(AssignmentInactive)
    else Go(x.(pc := LockVenue, todoUnits := Members(db.cfg, x.cmd.asg)))
  }

  function LockVenueMove(x: Txn): Move {
    Go(x.(pc := AfterVenue(x.cmd), venueLock := Some(if x.cmd.Admin? then Exclusive else Shared)))
  }

  function LockUnitsMove(x: Txn): Move {
    if x.todoUnits == [] then Go(x.(pc := AfterUnits(x.cmd)))
    else Go(x.(unitLocks := x.unitLocks + {x.todoUnits[0]}, todoUnits := x.todoUnits[1..]))
  }

  function CheckCapMove(db: Db, x: Txn): Move
    requires x.cmd.Hold?
  {
    var cap := if x.venue in db.cfg.venues then db.cfg.venues[x.venue].maxLiveHolds else 0;
    if |LiveHolds(db, x, x.cmd.key.actor)| >= cap then Fail(TooManyLiveHolds) else Go(x.(pc := ReadOverlap))
  }

  function ReadOverlapMove(db: Db, x: Txn): Move
    requires x.cmd.Hold?
  {
    var found := OverlapSet(db, x.venue, x.unitLocks, x.cmd.during);
    if |found| > OVERLAP_SET then Fail(OverlapSetTooLarge) else Go(x.(pc := LockRows, todoRows := InOrder(found)))
  }

  /** Locks the next row; a hold notes on the locked version whether the row is a dead hold. */
  function LockRowsMove(db: Db, x: Txn): Move {
    if x.todoRows == [] then Go(x.(pc := AfterRows(x.cmd)))
    else if !Visible(db, x, x.todoRows[0]) then Fail(NotFound)
    else
      var id := x.todoRows[0];
      Go(x.(rowLocks := x.rowLocks + {id}, todoRows := x.todoRows[1..],
            toExpire := if x.cmd.Hold? && Dead(db.res[id], x.begin) then x.toExpire + [id] else x.toExpire))
  }

  function Written(x: Txn, id: Id, r: Reservation, eventId: nat): Txn {
    x.(writes := x.writes[id := r], events := x.events[id := Event(eventId, r.status, r.version)])
  }

  function Next(x: Txn): Txn
    requires x.toExpire != []
  {
    x.(toExpire := x.toExpire[1..])
  }

  function ClearDeadMove(db: Db, x: Txn, eventId: nat): Move {
    if x.toExpire == [] then Go(x.(pc := Insert))
    else
      var id := x.toExpire[0];
      if id in db.res && Dead(View(db, x, id), x.begin)
      then Go(Written(Next(x), id, WithStatus(View(db, x, id), Expired), eventId))
      else Go(Next(x))
  }

  /** What the guards, the range CHECK and the exclusion constraint say of the booking, in the order they run:
      triggers by name, then the CHECK, then the unit rows. */
  function Verdict(db: Db, x: Txn): Option<Code>
    requires x.cmd.Hold?
  {
    var r := Booking(db, x);
    if BlackedOut(db.cfg, r.venue, r.during) then Some(InBlackout)
    else if !Found(db.cfg, r.venue, r.asg) then Some(PartyDoesNotFit)
    else if !Usable(db.cfg, r.asg) then Some(AssignmentInactive)
    else if !Fits(db.cfg, r) then Some(PartyDoesNotFit)
    else if !(SHORTEST <= r.during.end - r.during.start <= LONGEST) then Some(DurationOutOfRange)
    else if Excluded(db, x, x.unitLocks, r.during) then Some(HoldConflict)
    else None
  }

  function Booked(db: Db, x: Txn, freshId: Id, eventId: nat): Txn
    requires x.cmd.Hold?
  {
    Written(x, freshId, Booking(db, x), eventId).(
      pc := Ready, response := Some(Granted(freshId)), made := Some(freshId), rowLocks := x.rowLocks + {freshId})
  }

  function Answer(x: Txn, c: Code): Txn {
    x.(pc := Ready, response := Some(Refused(c)))
  }

  /** The booking under its savepoint. A stored outcome keeps the dead holds cleared before the savepoint; any other
      error aborts the transaction. */
  function InsertMove(db: Db, x: Txn, freshId: Id, eventId: nat): Move
    requires x.cmd.Hold?
  {
    match Verdict(db, x)
    case None => Go(Booked(db, x, freshId, eventId))
    case Some(c) => if c in STORED_OUTCOMES then Go(Answer(x, c)) else Fail(c)
  }

  /** The unlocked read of a confirmation: which units to lock. */
  function PeekMove(db: Db, x: Txn): Move
    requires x.cmd.Confirm?
  {
    if !Visible(db, x, x.cmd.id) then Fail(NotFound)
    else if !Found(db.cfg, x.venue, db.res[x.cmd.id].asg) then Fail(AssignmentMismatch)
    else Go(x.(pc := LockVenue, todoUnits := Members(db.cfg, db.res[x.cmd.id].asg)))
  }

  predicate VersionMatches(expected: Option<int>, r: Reservation) {
    expected.None? || expected.value == r.version
  }

  /** The confirming update with its guards; the row is locked, so the version read is the one written. */
  function ConfirmMove(db: Db, x: Txn, eventId: nat): Move
    requires x.cmd.Confirm?
  {
    if x.cmd.id !in db.res then Fail(NotFound) else
    var r := db.res[x.cmd.id];
    if x.cmd.presented.Some? && r.token != x.cmd.presented then Fail(Forbidden)
    else if !VersionMatches(x.cmd.expected, r) then Fail(VersionConflict)
    else if r.status != Held then Fail(InvalidTransition)
    else if r.expiresAt <= x.begin then Fail(HoldExpired)
    else if BlackedOut(db.cfg, r.venue, r.during) then Fail(InBlackout)
    else if !Found(db.cfg, r.venue, r.asg) then Fail(PartyDoesNotFit)
    else if !Usable(db.cfg, r.asg) then Fail(AssignmentInactive)
    else if !Fits(db.cfg, r) then Fail(PartyDoesNotFit)
    else Go(Written(x, x.cmd.id, WithStatus(r, Confirmed), eventId).(pc := Ready))
  }

  function CancelMove(db: Db, x: Txn, eventId: nat): Move
    requires x.cmd.Cancel?
  {
    if x.cmd.id !in db.res then Fail(NotFound) else
    var r := db.res[x.cmd.id];
    if !VersionMatches(x.cmd.expected, r) then Fail(VersionConflict)
    else if r.status !in {Held, Confirmed, Seated} then Fail(InvalidTransition)
    else if !x.cmd.reasonGiven then Fail(InvalidTransition)
    else Go(Written(x, x.cmd.id, WithStatus(r, Cancelled), eventId).(pc := Ready))
  }

  function AdvanceMove(db: Db, x: Txn, eventId: nat): Move
    requires x.cmd.Advance?
  {
    if x.cmd.id !in db.res then Fail(NotFound) else
    var r := db.res[x.cmd.id];
    if !VersionMatches(x.cmd.expected, r) then Fail(VersionConflict)
    else if r.status != x.cmd.from then Fail(InvalidTransition)
    else Go(Written(x, x.cmd.id, WithStatus(r, x.cmd.to), eventId).(pc := Ready))
  }

  /** A row write outside the venue and unit locks that changes no status and enqueues nothing. */
  function MintMove(db: Db, x: Txn): Move
    requires x.cmd.Mint?
  {
    if x.cmd.id !in db.res then Fail(NotFound) else
    var r := db.res[x.cmd.id];
    if !VersionMatches(x.cmd.expected, r) then Fail(VersionConflict)
    else if r.token != Some(x.cmd.hash) && !(r.status == Held && r.expiresAt > x.begin) then Fail(TokenRequiresHeld)
    else Go(x.(pc := Ready, writes := x.writes[x.cmd.id := r.(version := r.version + 1, token := Some(x.cmd.hash))]))
  }

  function UpdateMove(db: Db, x: Txn, eventId: nat): Move {
    match x.cmd
    case Confirm(_, _, _) => ConfirmMove(db, x, eventId)
    case Cancel(_, _, _) => CancelMove(db, x, eventId)
    case Advance(_, _, _, _) => AdvanceMove(db, x, eventId)
    case Mint(_, _, _) => MintMove(db, x)
    case _ => Fail(Aborted)
  }

  /** The sweeper's batch update: the rows chosen are due and locked in the same statement. */
  function SweepMove(db: Db, x: Txn, due: set<Id>): Move {
    Go(x.(pc := Enqueue, rowLocks := due, todoEvents := due,
          writes := map id | id in due && id in db.res :: WithStatus(db.res[id], Expired)))
  }

  function PurgeMove(x: Txn, keys: set<Key>, events: set<nat>): Move {
    Go(x.(pc := Ready, keys := keys, purging := events))
  }

  /** Settles what the change strands: nothing, a refusal, or a list of rows to lock and cancel. */
  function DecideMove(db: Db, x: Txn, freshId: Id): Move
    requires x.cmd.Admin?
  {
    match ChangeOf(db.cfg, x.venue, x.cmd.edit, freshId)
    case None => Fail(EditFault(db.cfg, x.venue, x.cmd.edit))
    case Some(w) =>
      var stranded := StrandedSet(db, x, w);
      var x' := x.(change := Some(w), todoUnits := GuardLocks(db.cfg, w));
      if stranded == {} then Go(x'.(pc := LockUnits))
      else if !x.cmd.force || |stranded| > FORCE_CANCELLATIONS
              || exists id :: id in stranded && Started(db.res[id], x.begin)
      then Fail(Stranding)
      else Go(x'.(pc := LockRows, todoRows := InOrder(stranded)))
  }

  function CancelRowsMove(db: Db, x: Txn): Move {
    var live := set id | id in x.rowLocks && id in db.res && Live(db.res[id], x.begin);
    Go(x.(pc := Enqueue, todoEvents := live,
          writes := map id | id in live :: WithStatus(db.res[id], Cancelled)))
  }

  /** One outbox row of a batch. */
  function EnqueueMove(x: Txn, eventId: nat): Move {
    if x.todoEvents == {} then Go(x.(pc := if x.cmd.Admin? then LockUnits else Ready))
    else
      var id := InOrder(x.todoEvents)[0];
      if id !in x.writes then Fail(Aborted) else
      Go(x.(todoEvents := x.todoEvents - {id},
            events := x.events[id := Event(eventId, x.writes[id].status, x.writes[id].version)]))
  }

  /** The configuration write; its guards look at the transaction's view once more. */
  function WriteMove(db: Db, x: Txn): Move {
    if x.change.None? then Fail(Aborted)
    else if GuardRefuses(db, x, x.change.value) then Fail(Stranding)
    else Go(x.(pc := Ready))
  }

  function Step(db: Db, x: Txn, ch: Choice, eventId: nat): Move {
    match x.pc
    case Claim => if x.cmd.Hold? then ClaimMove(db, x) else Fail(Aborted)
    case ReadExisting => if x.cmd.Hold? then ReadExistingMove(db, x) else Fail(Aborted)
    case Resolve => if x.cmd.Hold? then ResolveMove(db, x) else Fail(Aborted)
    case LockVenue => LockVenueMove(x)
    case LockUnits => LockUnitsMove(x)
    case CheckCap => if x.cmd.Hold? then CheckCapMove(db, x) else Fail(Aborted)
    case ReadOverlap => if x.cmd.Hold? then ReadOverlapMove(db, x) else Fail(Aborted)
    case LockRows => LockRowsMove(db, x)
    case ClearDead => ClearDeadMove(db, x, eventId)
    case Insert => if x.cmd.Hold? then InsertMove(db, x, ch.freshId, eventId) else Fail(Aborted)
    case Peek => if x.cmd.Confirm? then PeekMove(db, x) else Fail(Aborted)
    case Update => UpdateMove(db, x, eventId)
    case Sweep => SweepMove(db, x, ch.rows)
    case PurgeDue => PurgeMove(x, ch.keys, ch.events)
    case Decide => if x.cmd.Admin? then DecideMove(db, x, ch.freshId) else Fail(Aborted)
    case CancelRows => CancelRowsMove(db, x)
    case Enqueue => EnqueueMove(x, eventId)
    case Write => WriteMove(db, x)
    case Ready => Fail(Aborted)
  }

  // ----- Batches that skip locked rows -----

  predicate SweepPick(s: Sys, t: Id, due: set<Id>)
    requires t in s.txns
  {
    var x := s.txns[t];
    && x.cmd.ExpireDue? && |due| <= x.cmd.limit
    && (forall id :: id in due ==> id in s.db.res && Dead(s.db.res[id], x.begin) && Free(s, t, RowLock(id)))
    && (forall id :: id in s.db.res && id !in due && Dead(s.db.res[id], x.begin) && Free(s, t, RowLock(id)) ==>
          |due| == x.cmd.limit && forall d :: d in due ==> s.db.res[d].expiresAt <= s.db.res[id].expiresAt)
  }

  predicate KeyDue(s: Sys, t: Id, k: Key)
    requires t in s.txns
  {
    k in s.db.idem && s.db.idem[k].purgeAt <= s.txns[t].begin && Free(s, t, KeyLock(k))
  }

  /** A published outbox row whose time has come and that no other batch is deleting. */
  predicate EventDue(s: Sys, t: Id, e: nat)
    requires t in s.txns && s.txns[t].cmd.PurgeRetained?
  {
    && e in s.txns[t].cmd.published && s.txns[t].cmd.published[e] <= s.txns[t].begin - RETENTION
    && e !in s.db.purged && forall o :: o in s.txns && o != t ==> e !in s.txns[o].purging
  }

  predicate PurgePick(s: Sys, t: Id, keys: set<Key>, events: set<nat>)
    requires t in s.txns
  {
    var x := s.txns[t];
    && x.cmd.PurgeRetained? && |keys| <= x.cmd.limit && |events| <= x.cmd.limit
    && (forall k :: k in keys ==> KeyDue(s, t, k))
    && (forall k :: k in s.db.idem && k !in keys && KeyDue(s, t, k) ==>
          |keys| == x.cmd.limit && forall d :: d in keys ==> s.db.idem[d].purgeAt <= s.db.idem[k].purgeAt)
    && (forall e :: e in events ==> EventDue(s, t, e))
    && (forall e :: e in x.cmd.published && e !in events && EventDue(s, t, e) ==>
          |events| == x.cmd.limit && forall d :: d in events ==> x.cmd.published[d] <= x.cmd.published[e])
  }

  // ----- Commit -----

  /** The deferred membership check: a new reservation's rows are exactly its assignment's members. */
  predicate MembershipOk(db: Db, x: Txn) {
    forall id :: id in x.writes && id !in db.res ==> x.writes[id].rows == Elements(Members(db.cfg, x.writes[id].asg))
  }

  function CommitDb(db: Db, x: Txn): Db {
    Db(if x.change.Some? then ApplyChange(db.cfg, x.change.value) else db.cfg,
       db.res + x.writes,
       if x.cmd.Hold? && x.cmd.key in x.keys then db.idem[x.cmd.key := IdemRow(x.cmd.hash, x.response,
           x.begin + 24 * HOUR)]
       else if x.cmd.PurgeRetained? then db.idem - x.keys
       else db.idem,
       map id | id in db.trail.Keys + x.events.Keys ::
         if id in x.events then TrailOf(db, id) + [x.events[id]] else TrailOf(db, id),
       db.purged + x.purging,
       if x.cmd.Hold? && x.made.Some? then db.booked[x.cmd.key := BookedUnder(db, x.cmd.key) + {x.made.value}]
       else if x.cmd.PurgeRetained? then db.booked - x.keys
       else db.booked,
       if x.cmd.PurgeRetained? then map k | k in db.epoch.Keys + x.keys ::
           if k in x.keys then EpochOf(db, k) + 1 else EpochOf(db, k)
       else db.epoch)
  }

  function CommitOutcome(x: Txn): Outcome {
    if x.cmd.Hold? && x.response.Some? then Answered(x.response.value, false) else Finished
  }

  // ----- Actions -----

  predicate Enabled(s: Sys, a: Action) {
    match a
    case Tick(_) => true
    case Begin(t, venue, cmd) =>
      t !in s.txns && t !in s.results && ProperCommand(cmd) && (cmd.Hold? ==> cmd.key.venue == venue)
    case Act(t, ch) =>
      && t in s.txns && s.txns[t].pc != Ready
      && ch.freshId !in s.issued
      && (Wants(s.db, s.txns[t]).Some? ==> Free(s, t, Wants(s.db, s.txns[t]).value))
      && (s.txns[t].pc == Sweep ==> SweepPick(s, t, ch.rows))
      && (s.txns[t].pc == PurgeDue ==> PurgePick(s, t, ch.keys, ch.events))
    case Commit(t) => t in s.txns && s.txns[t].pc == Ready && MembershipOk(s.db, s.txns[t])
    case Abort(t) => t in s.txns
  }

  /** The transaction is over; its locks and uncommitted versions go with it. */
  function Without(s: Sys, t: Id, o: Outcome): Sys {
    s.(txns := s.txns - {t}, results := s.results[t := o])
  }

  function Apply(s: Sys, a: Action): Sys
    requires Enabled(s, a)
  {
    match a
    case Tick(ms) => s.(clock := s.clock + ms)
    case Begin(t, venue, cmd) => s.(txns := s.txns[t := Opened(s.clock, venue, cmd)])
    case Act(t, ch) =>
      (match Step(s.db, s.txns[t], ch, s.nextEvent)
       case Go(x) => s.(txns := s.txns[t := x], issued := s.issued + {ch.freshId}, nextEvent := s.nextEvent + 1)
       case End(o) => Without(s, t, o))
    case Commit(t) => Without(s, t, CommitOutcome(s.txns[t])).(db := CommitDb(s.db, s.txns[t]))
    case Abort(t) => Without(s, t, Failed(Aborted))
  }

  /** An empty book over any well-formed configuration. */
  ghost predicate Init(s: Sys) {
    && WellFormed(s.db.cfg)
    && s.db.res == map[] && s.db.idem == map[] && s.db.trail == map[] && s.db.purged == {}
    && s.db.booked == map[] && s.db.epoch == map[]
    && s.txns == map[] && s.results == map[]
    && s.db.cfg.units.Keys + s.db.cfg.combos.Keys + s.db.cfg.blackouts.Keys <= s.issued
  }

  // ----- Runs -----

  ghost predicate Executable(s: Sys, acts: seq<Action>)
    decreases |acts|
  {
    acts == [] || (Enabled(s, acts[0]) && Executable(Apply(s, acts[0]), acts[1..]))
  }

  ghost function Run(s: Sys, acts: seq<Action>): Sys
    requires Executable(s, acts)
    decreases |acts|
  {
    if acts == [] then s else Run(Apply(s, acts[0]), acts[1..])
  }
}
