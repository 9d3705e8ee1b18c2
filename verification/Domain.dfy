/** Entities of the reservation engine and the rules its database guards judge them by.
    Instants are whole milliseconds and durations are milliseconds unless a name says minutes. */
module Domain {
  import opened Sorting

  datatype Option<+T> = None | Some(value: T)

  const MINUTE := 60_000
  const HOUR := 3_600_000
  const DAY := 24 * HOUR
  const SHORTEST := 5 * MINUTE
  const LONGEST := 12 * HOUR
  const OVERLAP_SET := 64
  const FORCE_CANCELLATIONS := 200
  const COMBO_MIN := 2
  const COMBO_MAX := 6

  /** A half-open range of instants. */
  datatype Range = Range(start: int, end: int)

  /** The `&&` operator of half-open ranges; an empty range overlaps nothing. */
  predicate Overlaps(a: Range, b: Range) {
    a.start < a.end && b.start < b.end && a.start < b.end && b.start < a.end
  }

  predicate Within(t: int, r: Range) {
    r.start <= t < r.end
  }

  /** Two ranges overlap exactly when they share an instant. */
  lemma OverlapsExactly(a: Range, b: Range)
    ensures Overlaps(a, b) <==> exists t :: Within(t, a) && Within(t, b)
  {
    if Overlaps(a, b) {
      var t := if a.start < b.start then b.start else a.start;
      assert Within(t, a) && Within(t, b);
    }
  }

  // ----- Statuses and the state table -----

  datatype Status = Held | Confirmed | Seated | Completed | Cancelled | Expired

  function Transitions(s: Status): set<Status> {
    match s
    case Held => {Confirmed, Cancelled, Expired}
    case Confirmed => {Seated, Cancelled}
    case Seated => {Completed, Cancelled}
    case Completed => {}
    case Cancelled => {}
    case Expired => {}
  }

  predicate CanTransition(a: Status, b: Status) {
    b in Transitions(a)
  }

  predicate IsTerminal(s: Status) {
    Transitions(s) == {}
  }

  /** The seven transitions of the state table. */
  lemma StateTable(a: Status, b: Status)
    ensures CanTransition(a, b) <==>
            || (a == Held && (b == Confirmed || b == Cancelled || b == Expired))
            || (a == Confirmed && (b == Seated || b == Cancelled))
            || (a == Seated && (b == Completed || b == Cancelled))
    ensures IsTerminal(a) <==> a == Completed || a == Cancelled || a == Expired
  {
    match a
    case Held => assert Confirmed in Transitions(a);
    case Confirmed => assert Seated in Transitions(a);
    case Seated => assert Completed in Transitions(a);
    case _ =>
  }

  /** A status that keeps the unit rows active. */
  predicate Occupies(s: Status) {
    s != Cancelled && s != Expired
  }

  // ----- Configuration -----

  datatype Assignment = UnitOf(id: Id) | ComboOf(id: Id)

  datatype Unit = Unit(venue: Id, capMin: int, capMax: int, active: bool)

  /** `members` is stored in sorted order, without repetition. */
  datatype Combo = Combo(venue: Id, members: seq<Id>, capMin: int, capMax: int, active: bool)

  datatype Blackout = Blackout(venue: Id, during: Range, active: bool)

  /** The venue's own settings, fixed in this model. */
  datatype Venue = Venue(holdTtl: int, maxLiveHolds: int)

  datatype Config = Config(
    venues: map<Id, Venue>, units: map<Id, Unit>, combos: map<Id, Combo>, blackouts: map<Id, Blackout>)

  /** Every combination has between two and six distinct member units of its own venue. */
  ghost predicate WellFormed(cfg: Config) {
    forall c :: c in cfg.combos ==>
      var combo := cfg.combos[c];
      && COMBO_MIN <= |combo.members| <= COMBO_MAX
      && StrictlySorted(combo.members)
      && forall m :: m in combo.members ==> m in cfg.units && cfg.units[m].venue == combo.venue
  }

  /** The assignment names a unit or a combination of the venue. */
  predicate Found(cfg: Config, venue: Id, a: Assignment) {
    match a
    case UnitOf(u) => u in cfg.units && cfg.units[u].venue == venue
    case ComboOf(c) => c in cfg.combos && cfg.combos[c].venue == venue
  }

  /** The assignment's own active flag, which is all the hold reads before it takes a lock. */
  predicate FlaggedActive(cfg: Config, a: Assignment) {
    match a
    case UnitOf(u) => u in cfg.units && cfg.units[u].active
    case ComboOf(c) => c in cfg.combos && cfg.combos[c].active
  }

  /** The units an assignment books, in lock order. */
  function Members(cfg: Config, a: Assignment): seq<Id> {
    match a
    case UnitOf(u) => [u]
    case ComboOf(c) => if c in cfg.combos then cfg.combos[c].members else []
  }

  // ----- Reservations -----

  /** A reservation with its unit rows. All rows of a reservation carry its range, and their active flags flip
      together, so `rows` is the set of units and `active` the common flag. */
  datatype Reservation = Reservation(
    venue: Id, party: int, during: Range, asg: Assignment, expiresAt: int, createdBy: Id,
    status: Status, version: int, token: Option<int>, rows: set<Id>, active: bool)

  /** The fields no statement updates. */
  predicate SameBooking(a: Reservation, b: Reservation) {
    && a.venue == b.venue && a.party == b.party && a.during == b.during && a.asg == b.asg
    && a.expiresAt == b.expiresAt && a.createdBy == b.createdBy && a.rows == b.rows
  }

  /** Live by effective status at `now`. */
  predicate Live(r: Reservation, now: int) {
    r.status == Confirmed || r.status == Seated || (r.status == Held && r.expiresAt > now)
  }

  /** A hold whose time has run out at `now` but which is still stored as held. */
  predicate Dead(r: Reservation, now: int) {
    r.status == Held && r.expiresAt <= now
  }

  // ----- The guards -----

  predicate Fits(cfg: Config, r: Reservation) {
    match r.asg
    case UnitOf(u) => u in cfg.units && cfg.units[u].capMin <= r.party <= cfg.units[u].capMax
    case ComboOf(c) => c in cfg.combos && cfg.combos[c].capMin <= r.party <= cfg.combos[c].capMax
  }

  /** The assignment is active, and so is every member unit. */
  predicate Usable(cfg: Config, a: Assignment) {
    match a
    case UnitOf(u) => u in cfg.units && cfg.units[u].active
    case ComboOf(c) =>
      && c in cfg.combos && cfg.combos[c].active
      && forall m :: m in cfg.combos[c].members ==>
        m in cfg.units && cfg.units[m].venue == cfg.combos[c].venue && cfg.units[m].active
  }

  predicate BlackedOut(cfg: Config, venue: Id, during: Range) {
    exists b :: b in cfg.blackouts && cfg.blackouts[b].venue == venue && cfg.blackouts[b].active
                && Overlaps(cfg.blackouts[b].during, during)
  }

  /** What a live reservation must satisfy: it fits, its assignment is usable, and no active blackout covers it. */
  predicate ConfigOk(cfg: Config, r: Reservation) {
    && Found(cfg, r.venue, r.asg)
    && Fits(cfg, r)
    && Usable(cfg, r.asg)
    && !BlackedOut(cfg, r.venue, r.during)
  }

  // ----- Configuration changes -----

  /** The row an admin write leaves behind. */
  datatype Change = PutUnit(id: Id, unit: Unit) | PutCombo(id: Id, combo: Combo) | PutBlackout(id: Id,
      blackout: Blackout)

  function ApplyChange(cfg: Config, w: Change): Config {
    match w
    case PutUnit(id, u) => cfg.(units := cfg.units[id := u])
    case PutCombo(id, c) => cfg.(combos := cfg.combos[id := c])
    case PutBlackout(id, b) => cfg.(blackouts := cfg.blackouts[id := b])
  }

  predicate CapacityChanged(cfg: Config, id: Id, u: Unit) {
    id in cfg.units && (cfg.units[id].capMin != u.capMin || cfg.units[id].capMax != u.capMax)
  }

  predicate Deactivates(cfg: Config, w: Change) {
    match w
    case PutUnit(id, u) => id in cfg.units && cfg.units[id].active && !u.active
    case PutCombo(id, c) => id in cfg.combos && cfg.combos[id].active && !c.active
    case PutBlackout(_, _) => false
  }

  /** Whether the change takes the ground from under a live reservation: the condition both the admin command's
      stranded query and the guard triggers use. */
  predicate Strands(cfg: Config, w: Change, r: Reservation) {
    match w
    case PutUnit(id, u) =>
      || (CapacityChanged(cfg, id, u) && r.asg == UnitOf(id) && !(u.capMin <= r.party <= u.capMax))
      || (Deactivates(cfg, w) && r.active && id in r.rows)
    case PutCombo(id, c) => Deactivates(cfg, w) && r.asg == ComboOf(id)
    case PutBlackout(id, b) =>
      && b.active && (id !in cfg.blackouts || !cfg.blackouts[id].active)
      && r.venue == b.venue && r.active && r.rows != {} && Overlaps(r.during, b.during)
  }

  /** The unit locks the guard triggers of the change take, in order. */
  function GuardLocks(cfg: Config, w: Change): seq<Id> {
    match w
    case PutUnit(id, u) => if CapacityChanged(cfg, id, u) || Deactivates(cfg, w) then [id] else []
    case PutCombo(id, c) => if Deactivates(cfg, w) then cfg.combos[id].members else []
    case PutBlackout(_, _) => []
  }

  /** The venue a change belongs to. */
  function VenueOf(w: Change): Id {
    match w
    case PutUnit(_, u) => u.venue
    case PutCombo(_, c) => c.venue
    case PutBlackout(_, b) => b.venue
  }

  /** The change keeps what no command may edit: the venue of a row, the members and capacities of a combination,
      the range of a blackout; and a new combination has members of its venue. */
  ghost predicate Admissible(cfg: Config, w: Change) {
    match w
    case PutUnit(id, u) => id in cfg.units ==> cfg.units[id].venue == u.venue
    case PutCombo(id, c) =>
      && COMBO_MIN <= |c.members| <= COMBO_MAX
      && StrictlySorted(c.members)
      && (forall m :: m in c.members ==> m in cfg.units && cfg.units[m].venue == c.venue)
      && (id in cfg.combos ==> c == cfg.combos[id].(active := c.active))
    case PutBlackout(id, b) => id in cfg.blackouts ==> b == cfg.blackouts[id].(active := b.active)
  }

  /** Two configurations show the same rows of one venue. */
  ghost predicate SameVenue(a: Config, b: Config, venue: Id) {
    && (forall u :: u in a.units && a.units[u].venue == venue ==> u in b.units && b.units[u] == a.units[u])
    && (forall c :: c in a.combos && a.combos[c].venue == venue ==> c in b.combos && b.combos[c] == a.combos[c])
    && (forall k :: k in b.blackouts && b.blackouts[k].venue == venue ==>
          k in a.blackouts && b.blackouts[k] == a.blackouts[k])
  }

  /** What every committed change preserves for everybody. */
  ghost predicate Grows(a: Config, b: Config) {
    && (forall u :: u in a.units ==> u in b.units && b.units[u].venue == a.units[u].venue)
    && (forall c :: c in a.combos ==>
          c in b.combos && b.combos[c].venue == a.combos[c].venue && b.combos[c].members == a.combos[c].members)
    && (forall k :: k in a.blackouts ==> k in b.blackouts && b.blackouts[k].venue == a.blackouts[k].venue)
  }

  // ----- Facts about configurations -----

  /** The guards read only rows of the reservation's own venue. */
  lemma ConfigOkIsLocal(a: Config, b: Config, r: Reservation)
    requires SameVenue(a, b, r.venue)
    requires ConfigOk(a, r)
    ensures ConfigOk(b, r)
  {
    match r.asg
    case UnitOf(_) =>
    case ComboOf(c) =>
      assert b.combos[c] == a.combos[c];
  }

  lemma ChangeIsLocal(cfg: Config, w: Change, venue: Id)
    requires Admissible(cfg, w)
    requires VenueOf(w) != venue
    ensures SameVenue(cfg, ApplyChange(cfg, w), venue)
  {
  }

  lemma ChangeGrows(cfg: Config, w: Change)
    requires WellFormed(cfg) && Admissible(cfg, w)
    ensures Grows(cfg, ApplyChange(cfg, w))
    ensures WellFormed(ApplyChange(cfg, w))
  {
  }

  /** A change that strands no reservation keeps every reservation it does not strand inside the rules: the guard's
      condition is exactly strong enough. */
  lemma UnstrandedStaysOk(cfg: Config, w: Change, r: Reservation)
    requires WellFormed(cfg) && Admissible(cfg, w)
    requires ConfigOk(cfg, r)
    requires r.active && r.rows == Elements(Members(cfg, r.asg)) && r.rows != {}
    requires !Strands(cfg, w, r)
    ensures ConfigOk(ApplyChange(cfg, w), r)
  {
    var cfg2 := ApplyChange(cfg, w);
    match w
    case PutUnit(id, u) =>
      match r.asg {
        case UnitOf(v) => if v == id { assert id in r.rows; }
        case ComboOf(c) =>
          forall m | m in cfg.combos[c].members
            ensures m in cfg2.units && cfg2.units[m].venue == cfg.combos[c].venue && cfg2.units[m].active
          {
            if m == id { assert id in r.rows; }
          }
      }
    case PutCombo(id, c) =>
    case PutBlackout(id, b) =>
  }

  /** Only reservations of the change's own venue can be stranded by it. */
  lemma StrandsOwnVenue(cfg: Config, w: Change, r: Reservation)
    requires WellFormed(cfg) && Admissible(cfg, w) && Found(cfg, r.venue, r.asg)
        && r.rows == Elements(Members(cfg, r.asg))
    requires Strands(cfg, w, r)
    ensures r.venue == VenueOf(w)
  {
    if w.PutUnit? && r.active && w.id in r.rows { assert w.id in Members(cfg, r.asg); }
  }

  /** Conversely, a stranded live reservation breaks the rules once the change is applied, so the guard refuses
      nothing it could allow. */
  lemma StrandedBreaks(cfg: Config, w: Change, r: Reservation)
    requires WellFormed(cfg) && Admissible(cfg, w)
    requires r.rows == Elements(Members(cfg, r.asg))
    requires Strands(cfg, w, r)
    ensures !ConfigOk(ApplyChange(cfg, w), r)
  {
    var cfg2 := ApplyChange(cfg, w);
    match w
    case PutUnit(id, u) =>
    case PutCombo(id, c) =>
    case PutBlackout(id, b) =>
      assert id in cfg2.blackouts && Overlaps(cfg2.blackouts[id].during, r.during);
  }
}
