# Dastar, modelled in Dafny

Dastar is a table-reservation engine: several clients hold, confirm and cancel bookings of units and combinations of
units while administrators change the floor plan and the calendar. This project models its parts that are hard to
get right and proves what they promise. `dafny verify dfyconfig.toml` checks everything.

## The parts

**The reservation protocol** (`Sorting`, `Domain`, `Protocol`, `Invariants`, `Steps`, `Interference`, `Commits`,
`Reachability`, `Deadlock`, `Progress`, `Guarantees`, `Justification`, `Effects`). Every command — hold, confirm,
cancel, seat, complete, token mint, sweeper, retention, admin writes — is a transaction with a program counter over
a shared database: reservations with their unit rows, units, combinations, blackouts, idempotency rows, outbox
events, a lock table and a clock. One action is one SQL statement of one transaction, a commit, a rollback, a new
transaction, or time passing; actions interleave freely. Statements that follow one another under locks already
taken, and only read what those protect and write rows of their own, are one action (the booking, the decision of an
admin write). A transaction's `now()` is fixed when it begins, so concurrent transactions judge expiry by different
clocks, and a hold reads the `active` flag of its assignment before it takes any lock. The triggers, the exclusion
constraint and the deferred membership check are modelled from the SQL migrations (`packages/db/migrations`): insert
and confirmation guards, deactivation and capacity guards, the release of unit rows on cancellation and expiry. Rows
a transaction wrote stay its own until it commits. The invariant is proved statement by statement (`Steps`), stable
under what others may commit (`Interference`), and kept by commits (`Commits`); `Guarantees`, `Deadlock` and
`Progress` state what follows for every reachable state and every run. A second invariant (`Justification`) says
that what a transaction has written is what its command asks of the committed rows; from it `Effects` states,
command by command, what a commit changes and what a command is refused for.

**One hold, and what was offered** (`HoldAlone`, `OfferedSlots`). The statements of a hold, with its loops over
units, rows and dead holds, run on the same machine with nobody else about; their effect is proved equal to a
declarative meaning of a hold, and so is that of the command with its retry. An offered slot is then shown to be one
such a hold books.

**Availability** (`Availability`, `AvailabilityEngine`, `AvailabilityScan`, `AvailabilityTheorems`, `OfferTerms`,
`AvailabilityCommand`, `SnapshotCaching`, `Periods`). Bookable starts are defined without loops, indexes or sorting;
the computation (grid, owning periods, a binary search over busy intervals, gap padding, ranking, limits) is proved
to return them. The fetched windows and the snapshot cache are proved invisible, and the generated service periods
complete in a zone of fixed offset; the command composes them. `OfferTerms` reads the terms of an offer off the
schedules and rows themselves.

**The connection contract** (`ConnectionContract`). Commands, deadlines, grace periods, rollback probes, cancel
requests and connection errors are events in any order over pooled connections, with the callbacks of the handle
updating its state in place.

**Migrations** (`Normalizer`, `NormalForm`, `GapReplacement`, `ConcurrentIndex`, `Migration`). The SQL normaliser is
a lexer with a normal form; the runner is a process that may be stopped after any statement and started again.

**Measurement** (`Stats`, `Timeline`). Percentiles of samples that may be lower bounds, the verdicts taken from
them, and the difference array and sweep line over a load run.

## Modelling choices

Instants are whole milliseconds, measured durations are reals. Ids are natural numbers standing for the rank of a
uuid in byte order, which is the order locks are taken in. A hash is the value itself. The unit rows of a
reservation carry one range and their active flags flip together, so they are a set of units and one flag. `trail`
groups the outbox rows ever committed by reservation; `purged`, `booked` and `epoch` are history. What the
environment decides — fresh ids, which due rows a batch that skips locked rows returns, how a statement ends — is
chosen freely, or is a parameter.

Where the code and its comments differ, the code is followed:

- The contract comment of the handle says a connection is released only after its command has settled; after the
  grace period it is released, destroyed, without waiting (`packages/db/src/handle.ts:286-289`).
- The comment on existing indexes speaks of "not valid"; the code asks for valid and ready
  (`packages/db/src/migrate.ts:229`).
- The timeline starts at second 0, not at the first arrival (`apps/harness/src/load.ts:231-233`).
- Three natural expectations are false of the normaliser, and each is given with an input and its exact condition.
  It is not idempotent, and a normal form need not be a fixpoint (`NormalForm.NotIdempotent`,
  `NormalForm.FixpointExactly`). And white space and comments may not always replace one another: a comment put
  right after a dash takes the dash (`GapReplacement.GluedCommentSwallows`), a line comment, or a block comment left
  open, runs on into what follows (`GapReplacement.CommentRunsOn`), and a line comment before the gap runs on where
  the new gap does not begin with a line feed (`GapReplacement.CommentNeedsItsLineFeed`). A replacement changes
  nothing at breaks that read apart at both ends (`NormalForm.JoinsExactly`, `NormalForm.GapsAreInterchangeable`);
  when it changes nothing in the other cases is `GapReplacement.ReplacementIsExact`.

Three assumptions come from outside the code. Equal config versions of a venue mean equal units and combinations
(the version triggers see to it), so the cache is given one snapshot per venue and version. An index the runner
built is printed by the database in the file's own spelling, which the file format asks for. And nobody but the
runner changes the objects its files are about, which its advisory lock is for.

## Model

| member | source | states |
|---|---|---|
| `Sorting.InOrder` | packages/core/src/units.ts:2-4 | The order every unit set and row set is locked in: strictly increasing, with exactly the elements of the set, each once. |
| `Domain.OverlapsExactly` | packages/db/migrations/0002_schema.sql:84 | Two ranges overlap exactly when they share an instant. |
| `Domain.StateTable` | packages/db/migrations/0004_triggers.sql:13-38 | The state table has its seven transitions and no other, and ends in completed, cancelled and expired. |
| `Domain.UnstrandedStaysOk` | packages/db/src/commands/admin-units.ts:83-98 | A change that strands no reservation, by the condition the stranded query and the guards share, leaves every reservation that was inside the rules inside them. |
| `Domain.StrandedBreaks` | packages/db/src/commands/admin-units.ts:83-98 | Conversely a stranded reservation is outside the rules once the change is applied: the condition refuses nothing it could allow. |
| `Domain.StrandsOwnVenue` | packages/db/src/commands/admin-calendar.ts:178-184 | A change can strand only reservations of its own venue, so a query bound to the venue sees them all. |
| `Steps.EditIsAdmissible` | packages/db/src/commands/admin-units.ts:111-131 | Every edit a command lets through keeps the venue of a row, the members and capacities of a combination and the range of a blackout; a new combination has two to six distinct members of its venue, stored in lock order. |
| `Interference.TxnStable` | packages/db/src/commands/admin.ts:41-46 | Whatever other transactions may commit while one holds its locks, everything that transaction has established at its current statement stays true. |
| `Commits.CommitKeepsDb` | packages/db/src/commands/hold.ts:168-177 | Every commit keeps the committed state whole: rows match their assignments, units are not double booked, live reservations obey the configuration, trails and stored outcomes agree with the rows. |
| `Reachability.ActionKeeps` | CORRECTNESS.md:50-59 | Every statement, commit, rollback, new transaction and passing of time keeps the invariant of the whole system. |
| `Reachability.RunKeeps` | CORRECTNESS.md:7-20 | So does every run, of any length and any interleaving. |
| `Deadlock.HoldsBefore` | packages/db/src/commands/hold.ts:69-120 | Whatever a command waits for comes later in the lock order (key, venue, units sorted, rows by id) than everything it holds, except an admin write at the unit locks of its triggers. |
| `Deadlock.AdminNeverWaitsForUnits` | packages/db/src/commands/admin.ts:113-114 | The one inversion is harmless: no other transaction holds or awaits a unit of a venue an admin write has locked. |
| `Deadlock.DeadlockFree` | CORRECTNESS.md:50-59 | In every reachable state, whatever the order in which waiting transactions queue, no set of transactions waits only for one another. |
| `Progress.SomeTransactionCanMove` | CORRECTNESS.md:50-59 | Whenever transactions are open in a reachable state, one of them can take its next statement or commit. |
| `Progress.EveryTransactionCanFinish` | CORRECTNESS.md:50-59 | From every reachable state all open transactions can be run to their ends by statements and commits alone: none has to be rolled back from outside, and each gets its result. |
| `Guarantees.ConfigurationSafety` | CORRECTNESS.md:12-20 | A confirmed, seated or unexpired held reservation fits its assignment, uses only active units and combinations, and overlaps no active blackout, although holds read the active flag before any lock and each transaction judges expiry by its own begin time. |
| `Guarantees.RowsMatchAssignment` | CORRECTNESS.md:16-17 | The unit rows of a reservation are exactly the members of its assignment, active exactly while its status occupies them, and no hold was expired before its time. |
| `Guarantees.NoDoubleBooking` | packages/db/migrations/0002_schema.sql:84 | At no instant is a unit occupied by two reservations. |
| `Guarantees.ObstaclesAreLocked` | packages/db/src/commands/hold.ts:111-121 | When a hold reaches its insert, every reservation with an active row in the way is one it has locked itself. |
| `Guarantees.InsertNeverWaits` | packages/db/src/commands/hold.ts:139-157 | So the insert never waits: no uncommitted row version of another transaction could make the exclusion constraint wait. |
| `Guarantees.BooksExactlyWhenFree` | packages/db/src/commands/hold.ts:139-166 | The booking goes through exactly when the configuration allows it, its duration is in bounds, and everything in the way is a dead hold by the transaction's clock. |
| `Guarantees.ConfirmsExactly` | packages/db/src/commands/confirm.ts:54-70 | Until a hold runs out, its confirmation goes through exactly when the row is still held and the presented token and expected version are its own: whatever admin writes came in between, no guard, missing row or deactivated unit turns it down. It becomes the same booking, confirmed, without its token, its units still occupied. |
| `Guarantees.RevalidationRefusesOnlyTheDead` | packages/db/src/commands/confirm.ts:13-20 | The guards of a confirmation turn down only a hold whose time ran out after the transaction began: nothing the configuration can become refuses a live one. |
| `Guarantees.GuardsNeverRefuse` | packages/db/src/commands/admin.ts:41-46 | The guard triggers never refuse an admin write that has settled what it strands. |
| `Guarantees.HarmfulWritesAreRefused` | packages/db/src/commands/admin.ts:99-105 | An unforced admin write that would put a live reservation outside the rules is refused. |
| `Guarantees.RefusedWritesAreHarmful` | packages/db/src/commands/admin.ts:99-105 | It is refused for nothing less: some reservation live by the transaction's clock would be outside the rules. |
| `Guarantees.ForceCancelsOnlyStranded` | packages/db/src/commands/admin.ts:106-122 | A forced write cancels live reservations its change would strand, and touches no other. |
| `Guarantees.MembershipNeverRefuses` | CORRECTNESS.md:17 | The deferred membership check passes for every transaction that has run its statements. |
| `Guarantees.AtMostOneBooking` | packages/db/src/commands/hold.ts:69-87 | A (venue, actor, key) has created at most one reservation since it was last purged, exactly the one its stored outcome names, and every committed key row has an outcome. |
| `Guarantees.ReplaysReturnTheOutcome` | packages/db/src/commands/hold.ts:76-87 | Until its key is purged, a stored outcome answers every later call with the same request hash, and a different hash is refused. |
| `Guarantees.ReplaysForADay` | CORRECTNESS.md:11 | The same for every call before the key's purge time, a day after its claim began: retention takes no key early. |
| `Guarantees.TrailAgreesWithStatus` | packages/core/src/reservation.ts:7-28 | A reservation's outbox events, purged ones included, are in the order of their ids a path of the state table from held, and replaying them gives the stored status. |
| `Guarantees.EventsNameReservations` | packages/db/src/commands/hold.ts:168-169 | No event belongs to a reservation that was never committed. |
| `Guarantees.HistoryOnlyGrows` | packages/core/src/reservation.ts:25-28 | Along every run trails only grow at their end, a reservation never changes what it books, and a terminal status is never left. |
| `Justification.ReachableIsJustified` | packages/db/src/commands/hold.ts:168-177 | In every reachable state, whatever others have committed, what each transaction has written is what its command asks of the rows as they are committed now. |
| `Effects.HoldTakesEffect` | packages/db/src/commands/hold.ts:139-182 | A committed hold has stored its outcome under its key for a day; it has booked exactly the reservation asked for, or nothing for one of the three stored refusals, and of the other rows it has expired only dead holds. |
| `Effects.CommitIsReported` | packages/db/src/commands/hold.ts:171-182 | The outcome of a commit is heard: a hold its stored response, every other command that it is done. |
| `Effects.ConfirmTakesEffect` | packages/db/src/commands/confirm.ts:47-76 | A committed confirmation was of a hold not expired when it began, with the presented token and expected version; it changes that row, confirmed, its token spent, with one event, and nothing else. |
| `Effects.ConfirmIsRefusedFor` | packages/db/src/commands/confirm.ts:54-70 | A confirmation is refused for a wrong token, a stale version, a status other than held, and a hold expired when it began, in that order; while the hold is live by the clock nothing else refuses it. |
| `Effects.NoExpiredHoldIsConfirmed` | packages/db/migrations/0004_triggers.sql:41-50 | Whatever transaction has confirmed a held row, committed or not, began before that hold expired. |
| `Effects.StatusChangesForCause` | packages/core/src/reservation.ts:7-28 | Whatever happens, a reservation changes its status only by a step of the table and for its cause: confirmed in time by a confirmation, expired when due by a sweep or a hold, cancelled with a reason or by force, seated and completed in turn. |
| `Effects.CancelTakesEffect` | packages/db/src/commands/cancel.ts:11-31 | A committed cancellation had a reason and the expected version; it cancels that row and frees its units, with one event, and changes nothing else. |
| `Effects.CancelIsRefusedFor` | packages/db/src/commands/cancel.ts:18-26 | It is refused for a stale version, for a status that has ended or a missing reason, and for nothing else. |
| `Effects.AdvanceTakesEffect` | packages/db/src/commands/seat.ts:18-50 | Seating and completing move a confirmed, then a seated reservation one step, at the expected version, with one event, its units still occupied. |
| `Effects.AdvanceIsRefusedFor` | packages/db/src/commands/seat.ts:29-40 | They are refused for a stale version or another status, and for nothing else. |
| `Effects.MintTakesEffect` | packages/db/src/commands/mint-token.ts:9-31 | The minted token becomes the one the reservation confirms by; only a live hold gets a new one, and no event tells of it. |
| `Effects.MintIsRefusedFor` | packages/db/migrations/0004_triggers.sql:154-165 | A mint is refused for a stale version or, unless it repeats the token, for anything but a live hold. |
| `Effects.UnknownRowsAreNotFound` | packages/db/src/commands/cancel.ts:15-16 | A command of one reservation is refused as not found exactly when its venue has no such reservation. |
| `Effects.SweepTakesTheDue` | packages/db/src/commands/expire.ts:17-26 | The sweep takes due holds nobody has locked, and leaves one out only when it has its limit of others at least as overdue. |
| `Effects.SweepTakesEffect` | packages/db/src/commands/expire.ts:17-28 | When it commits, every hold it took is expired, its token gone and its units free, and every other row is as it was. |
| `Effects.PurgeTakesTheDue` | packages/db/src/commands/retention.ts:25-43 | Retention takes keys past their purge time and rows published seven days ago, and leaves a free one out only when it has its limit of others at least as old. |
| `Effects.PurgeTakesEffect` | packages/db/src/commands/retention.ts:25-43 | When it commits, exactly what it took is gone, and no reservation or trail is touched. |
| `Effects.EditIsRefusedFor` | packages/db/src/commands/admin.ts:93-122 | An edit is refused for a row that is not there, for members or values that do not fit, and for the reservations it strands: any without force; with force one that has started, or more than 200. Otherwise it goes on with what was asked. |
| `Effects.AdminTakesEffect` | packages/db/src/commands/admin-units.ts:76-107 | A committed edit gives the row it names every field it asks for, keeps the fields it leaves out and every other row, and cancels exactly the live reservations it would strand, which takes force. |
| `Effects.GuardLocksAreHeld` | packages/db/migrations/0004_triggers.sql:88-107 | By its write an edit holds the lock of a unit whose capacity changes or that is deactivated, and of every member of a combination deactivated. |
| `HoldAlone.OverlapReadIsComplete` | packages/db/src/commands/hold.ts:33-36 | The overlap read, bound to the venue, finds every reservation in the way. |
| `HoldAlone.GuardsJudge` | packages/db/src/commands/hold.ts:139-166 | At the insert, triggers, CHECK and exclusion constraint together say what the declarative judgement of the request says. |
| `HoldAlone.Session.LockVenueAndUnits` | packages/db/src/commands/hold.ts:99-104 | The venue lock and then every unit of the assignment in order, by a loop that ends with all of them held. |
| `HoldAlone.Session.CheckLimits` | packages/db/src/commands/hold.ts:106-115 | The cap and the overlap bound end the hold exactly when they are exceeded; otherwise the rows in the way are listed to be locked. |
| `HoldAlone.Session.ExpireDead` | packages/db/src/commands/hold.ts:122-135 | The loop over dead holds expires dead obstacles and nothing else. |
| `HoldAlone.Session.Book` | packages/db/src/commands/hold.ts:139-177 | The booking and the commit leave the database as the request's judgement says. |
| `HoldAlone.Session.AttemptHold` | packages/db/src/commands/hold.ts:61-182 | A whole attempt with nobody else about, statement by statement: its answer and the database it leaves are exactly those of the declarative meaning of a hold, whether replayed, refused, failed or booked, with dead holds in the way expired. |
| `HoldAlone.Hold` | packages/db/src/commands/hold.ts:44-59 | The command with its one retry, run alone: wherever an attempt is rolled back, with whatever locks and row versions it has by then, nothing of it is left, and the call has the effect of exactly one hold; rolled back twice, it fails and leaves nothing. It never ends on an outcome not yet stored. |
| `OfferedSlots.CandidateIsUsable` | packages/core/src/availability.ts:48-68 | A candidate built from the venue's snapshot is an assignment the hold finds, flagged active, usable with all its members, and fitting the party. |
| `OfferedSlots.OfferedSlotIsBookable` | CORRECTNESS.md:34 | In the state and at the clock availability was read from, a fresh-key hold of an offered slot is judged bookable, if the actor is under the cap and the rows in the way are within the bound. |
| `OfferedSlots.ReturnedSlotsAreBookable` | packages/db/src/commands/availability.ts:27-31 | The same of every slot the computation returned on the rows fetched for the window. |
| `OfferedSlots.OfferedSlotIsInSchedule` | packages/db/src/commands/hold.ts:194-202 | A hold of an offered slot that enforces the schedule passes that check. |
| `OfferedSlots.TakeOffer` | packages/db/src/commands/hold.ts:101-166 | Run statement by statement, the hold of an offered slot books the offered assignment, expiring the dead holds in its way. |
| `Availability.SmallestEntryIsSmallest` | packages/core/src/availability.ts:28-37 | The duration taken is that of the smallest size at or above the party, and there is none exactly when every size is smaller. |
| `Availability.KeyOrderIsTotal` | packages/core/src/availability.ts:70-77 | The rank order is a strict total order: two keys that tie are equal. |
| `Availability.KeyOrderIsTransitive` | packages/core/src/availability.ts:70-77 | And it is transitive. |
| `AvailabilityEngine.ComputeDuration` | packages/core/src/availability.ts:29-37 | The loop over the entries finds the duration the definition names. |
| `AvailabilityEngine.SlotStarts` | packages/core/src/availability.ts:40-46 | The grid loop yields exactly the grid points whose booking ends by the close, in increasing order. |
| `AvailabilityEngine.UsableCombos` | packages/core/src/availability.ts:49-52 | Exactly the active combinations whose members all exist and are active. |
| `AvailabilityEngine.FittingCandidates` | packages/core/src/availability.ts:55-68 | Exactly the active units and usable combinations whose capacity range includes the party. |
| `AvailabilityEngine.IndexBusy` | packages/core/src/availability.ts:100-109 | The index holds exactly the busy rows, per unit, ordered by start and, the rows being disjoint, by end. |
| `AvailabilityEngine.UnitFree` | packages/core/src/availability.ts:111-120 | The binary search agrees with looking at every interval. |
| `AvailabilityEngine.IsFree` | packages/core/src/availability.ts:139-140 | A set of units is free exactly when no busy row of any of them meets the range. |
| `AvailabilityEngine.CountBroken` | packages/core/src/availability.ts:91 | The number of free combinations that booking a unit would break. |
| `AvailabilityEngine.Choose` | packages/core/src/availability.ts:86-96 | The choice is one of the free candidates and every other ranks behind it. |
| `AvailabilityScan.GatherStarts` | packages/core/src/availability.ts:142-153 | Starts gathered period by period are those some period admits inside the window, each with the first that does; a non-positive grid step fails exactly when a period has a duration for the party. |
| `AvailabilityScan.GatheredAreStarts` | packages/core/src/availability.ts:128-130 | The first admitter in order of opening and schedule id is the owning period. |
| `AvailabilityScan.TryStart` | packages/core/src/availability.ts:161-172 | One start gives a slot exactly when it is bookable, and then the slot the definition offers. |
| `AvailabilityScan.ComputeAvailability` | packages/core/src/availability.ts:134-175 | The whole computation returns the answer defined over the bookable starts: the first of them up to the limit, each with the preferred assignment, and the truncation flag. |
| `AvailabilityTheorems.SlotsAreBookable` | packages/core/src/availability.ts:128-133 | Slots are strictly increasing, each meets the declarative definition, and no bookable start before an offered one is passed over. |
| `AvailabilityTheorems.NothingIsMissing` | packages/core/src/availability.ts:128-133 | An answer that is not truncated has a slot for exactly the bookable starts. |
| `AvailabilityTheorems.TruncationIsHonest` | packages/core/src/availability.ts:131-132 | A truncated one stopped at the limit with a later bookable start left, or met more starts than the examined bound. |
| `AvailabilityTheorems.PreferredIsUnique` | packages/core/src/availability.ts:79-83 | The host's choice is the unique least candidate. |
| `AvailabilityTheorems.AnswerIsUnique` | packages/core/src/availability.ts:79-83 | The inputs determine the answer. |
| `AvailabilityTheorems.InputOrderDoesNotMatter` | packages/core/src/availability.ts:134-154 | Reordering units, combinations, periods, closures or busy rows changes neither the slots nor the flag. |
| `AvailabilityTheorems.WindowsAreEnough` | packages/db/src/commands/availability.ts:102-105 | Computing over only the periods, closures and busy rows near the window gives the same slots, assignments and flag as computing over all of them. |
| `OfferTerms.DurationExactly` | packages/core/src/availability.ts:28-37 | The duration is that of the first entry with the smallest size at or above the party. |
| `OfferTerms.BookableExactly` | packages/core/src/availability.ts:142-172 | A start is bookable exactly when a period grants it first, on its grid and inside its hours, no closure meets the booking, and some assignment that takes the party has every unit free from one gap before the booking to one gap after it. |
| `OfferTerms.OfferIsBest` | packages/core/src/availability.ts:79-96 | Of the assignments free on those terms the one offered has the least capacity, then is a unit before a combination, then breaks the fewest free combinations, then comes first by label and id. |
| `OfferTerms.AnswerOnTerms` | packages/core/src/availability.ts:134-175 | Every slot of an answer is the best on the terms of a period, and an answer not truncated has one for every start that has any. |
| `OfferTerms.OfferIsScheduled` | packages/db/src/commands/availability.ts:14-25 | An offered slot lies in the hours and on the grid of an active schedule of the local weekday, has the duration that schedule names for the party, and keeps its gap from every busy row of the units offered. |
| `AvailabilityCommand.LoadSnapshot` | packages/db/src/commands/availability.ts:91-101 | A cached snapshot and a fresh load cannot be told apart. |
| `AvailabilityCommand.GeneratePeriods` | packages/db/src/commands/availability.ts:14-25 | The loops over dates and schedules yield exactly the generated periods that meet the window. |
| `AvailabilityCommand.AvailabilityOf` | packages/db/src/commands/availability.ts:73-114 | The command, from schedules to slots, answers what the computation would answer over every occurrence and all rows of the venue, read afresh, with the limit clamped and the window bounded; each of its at most 500 slots is as an active schedule promises it, gap included. |
| `AvailabilityCommand.ClampExactly` | packages/db/src/commands/availability.ts:76-77 | The limit is the number asked for where it lies between 1 and 500, the nearer bound otherwise, and 100 if none is given. |
| `SnapshotCaching.SnapshotCache.Get` | packages/db/src/commands/availability.ts:51-57 | A hit is the last entry stored for a venue among the most recently used ones, at the version asked for, and is what that version holds; it counts as a use and evicts nobody. |
| `SnapshotCaching.SnapshotCache.Set` | packages/db/src/commands/availability.ts:58-62 | A store, however old its reader, keeps exactly the most recently used venues, at most the maximum, each with the last entry stored. |
| `SnapshotCaching.RecencyFollowsLastUse` | packages/db/src/commands/availability.ts:43-47 | The recency order the cache keeps is the order of last use. |
| `SnapshotCaching.TruncatedRecency` | packages/db/src/commands/availability.ts:43-47 | Evicting venues loses nothing a later use needs: the cache is always the tail of the full recency order. |
| `Periods.PeriodsAreComplete` | packages/db/src/commands/availability.ts:14-25 | The generated local dates yield exactly the occurrences of active schedules, overnight ones included, that meet the window. |
| `Periods.GeneratedExactly` | packages/db/src/commands/availability.ts:14-25 | The periods generated are exactly those an active schedule lays out on a date of its weekday that meet the window, each with the hours, durations and gap of that schedule. |
| `Periods.WeekdaysRun` | packages/db/src/commands/availability.ts:21 | 1970-01-01 is a Thursday, and weekdays follow one another from 1 to 7. |
| `Periods.PeriodsFollowHours` | packages/db/src/commands/availability.ts:9-13 | At every instant of the window a generated period is open exactly when the schedule's weekday and times of day say so. |
| `Periods.PeriodsAreDistinct` | packages/db/src/commands/availability.ts:14-25 | No two generated periods open together under one schedule id. |
| `Periods.ScheduleCheckIsExact` | packages/db/src/commands/hold.ts:194-202 | Looking only at periods over the booking, the schedule check refuses exactly the bookings no occurrence contains. |
| `ConnectionContract.NextKeeps` | packages/db/src/handle.ts:119-129 | Every event, in any state, keeps the connection contract. |
| `ConnectionContract.ReleasedExactlyOnce` | packages/db/src/handle.ts:259-263 | Over every order of events a connection taken from the pool is handed back exactly once, and not while it is in use. |
| `ConnectionContract.CleanExactlyWhenEarned` | packages/db/src/handle.ts:222-237 | It returns to the pool exactly when its command settled before the deadline, a failure was followed by a good rollback probe, and no connection error was recorded. |
| `ConnectionContract.CancelNeverHitsAnother` | packages/db/src/handle.ts:276-293 | A cancel request in flight never names a backend that is free or serves another command. |
| `ConnectionContract.HeldByOne` | packages/db/src/handle.ts:264-273 | No two checkouts hold one connection. |
| `ConnectionContract.CallerHearsTheEnd` | packages/db/src/handle.ts:274-296 | The caller hears how its command ended if it ended while the connection was held, and a timeout otherwise. |
| `ConnectionContract.TimersRelease` | packages/db/src/handle.ts:205-237 | No connection is held for ever: the checkout's own timers hand it back whatever else stalls. |
| `ConnectionContract.ArrivalHas` | packages/db/src/handle.ts:154-172 | A connection that arrives after the caller gave up goes back at once, counted once, with every other connection and checkout as it was; otherwise this caller, and nobody else, holds it: a command starts on it, or the cancel request it was borrowed for is sent, naming the backend of the overdue call. |
| `ConnectionContract.SettlingHas` | packages/db/src/handle.ts:274-295 | A settled command tells its caller the result; a success on time returns the connection unless an error was recorded, any result after the deadline closes it, and a failure on time keeps it, unreleased, for the probe. Nobody else is touched. |
| `ConnectionContract.DeadlineHas` | packages/db/src/handle.ts:276-281 | At the deadline the overdue command keeps its connection, unreleased. If its backend is known a request that names it goes out over the dedicated connection, or a connection is asked for to send it; if not, nothing does. |
| `ConnectionContract.OverdueIsCancelled` | packages/db/src/handle.ts:174-204 | An overdue command whose backend is known is cancelled: at its deadline, or, whatever happens in between, as soon as the connection borrowed for the request arrives. |
| `ConnectionContract.EndingHas` | packages/db/src/handle.ts:222-237 | Every ending hands the connection of its checkout back once, clean only without a failure or a recorded error, and changes no other checkout or connection. |
| `ConnectionContract.PoolHandle.HandleAll` | packages/db/src/handle.ts:119-129 | The callbacks of the class, called in any possible order of events, keep its contract and bring it to the state of that run. |
| `ConnectionContract.Canceller.Get` | packages/db/src/handle.ts:138-152 | Concurrent deadlines share one canceller connection; a new one is opened only when the last is broken. |
| `ConnectionContract.Canceller.Break` | packages/db/src/handle.ts:181-185 | A failure forgets only the connection it is about, so at most one is ever good. |
| `Normalizer.EndOfQuoted` | packages/db/src/migrate.ts:50-60 | The scan for a closing quote agrees with its definition. |
| `Normalizer.NormalizeSql` | packages/db/src/migrate.ts:68-98 | The loop computes the normal form defined over the lexemes of the text, and fails exactly on an unterminated quote. |
| `NormalForm.QuotedRunsAreQuoted` | packages/db/src/migrate.ts:49-60 | A quoted run is a quote, characters among which it occurs only doubled, and a closing quote that no further quote follows. |
| `NormalForm.QuotedRunIsRead` | packages/db/src/migrate.ts:49-60 | Conversely every such run is read whole. |
| `NormalForm.GapsAre` | packages/db/src/migrate.ts:79-90 | White space is a gap, and so are a line comment up to its line feed and a block comment up to its first end, whatever they say, and gaps that read apart in a row. |
| `NormalForm.QuotedRunsSurvive` | packages/db/src/migrate.ts:63-66 | The quoted runs of the output are exactly those of the input, in order. |
| `NormalForm.FixpointExactly` | packages/db/src/migrate.ts:97 | A normal form is its own normal form exactly when it does not end in a semicolon. |
| `NormalForm.NotIdempotent` | packages/db/src/migrate.ts:97 | Normalising is not idempotent: a text with two semicolons shows it. |
| `NormalForm.JoinsExactly` | packages/db/src/migrate.ts:73-95 | When a text may be read in two halves: exactly when the character after the break is one the last lexeme cannot absorb. |
| `NormalForm.GapsAreInterchangeable` | packages/db/src/migrate.ts:81-90 | Where the texts read apart at both ends of either gap, any white space and comments may replace any others without changing the result. |
| `GapReplacement.SameResultExactly` | packages/db/src/migrate.ts:63-66 | Two texts have the same result exactly when their tokens agree once gaps are collapsed and trimmed, letters lowered and one last semicolon dropped. |
| `GapReplacement.ReplacementInGeneral` | packages/db/src/migrate.ts:73-95 | For every gap and every replacement, comments that run on included: the result stays the same exactly when the tokens kept before the new gap and left after it agree, tidied, with those that were there. |
| `GapReplacement.ReplacementIsExact` | packages/db/src/migrate.ts:73-95 | Where a comment that runs on stops between two lexemes (or none does), the result stays the same exactly unless a dash before the new gap is lost to its comment, or what only one of the two texts still reads is more than white space, comments and one last semicolon that is dropped where no other is. Texts without a result (an unterminated quote) aside. |
| `GapReplacement.GluedCommentSwallows` | packages/db/src/migrate.ts:81-83 | Right after a dash, a line comment swallows the dash a space keeps. |
| `GapReplacement.CommentRunsOn` | packages/db/src/migrate.ts:81-83 | In place of a space before a word, a line comment takes the word. |
| `GapReplacement.CommentNeedsItsLineFeed` | packages/db/src/migrate.ts:81-83 | In place of the line feed that ends a comment, a space leaves the word after it in the comment. |
| `GapReplacement.ContentSurvives` | packages/db/src/migrate.ts:91-97 | Outside gaps the output is the input, token for token, but for capitals written small and one last semicolon. |
| `NormalForm.LetterCaseDoesNotMatter` | packages/db/src/migrate.ts:91-92 | A capital outside quotes may be written small, or the other way round, without changing the result. |
| `ConcurrentIndex.CreateExactly` | packages/db/src/migrate.ts:26 | A create is accepted exactly in the one spelling, and its parts are the ones spelled. |
| `ConcurrentIndex.DropExactly` | packages/db/src/migrate.ts:27 | So is a drop. |
| `ConcurrentIndex.AcceptedIsFixpoint` | packages/db/src/migrate.ts:105-117 | The normalised text of every accepted file is a fixpoint of the normaliser. |
| `ConcurrentIndex.ComparisonTextIsNormal` | packages/db/src/migrate.ts:108-111 | So is the text an accepted create is compared by. |
| `Migration.AttemptRecordsWhatIsInPlace` | packages/db/src/migrate.ts:216-247 | An attempt that records a create leaves the named index present, valid and of the file's definition; one that records a drop leaves it absent; success and record go together. |
| `Migration.AttemptTouchesItsOwn` | packages/db/src/migrate.ts:216-247 | An attempt changes nothing but the object of its statement's name and its own record. |
| `Migration.CreateTouchesOnlyLeftovers` | packages/db/src/migrate.ts:209-215 | A create never drops or replaces an index that is complete or of another definition, nor anything that is not an index. |
| `Migration.NoConflictArises` | packages/db/src/migrate.ts:209-215 | No failure leaves a conflict where there was none. |
| `Migration.UndisturbedAttempt` | packages/db/src/migrate.ts:216-247 | An attempt in which no statement fails records the file exactly when nothing conflicts, and otherwise changes nothing. |
| `Migration.RerunFinishes` | packages/db/src/migrate.ts:166-189 | After any number of attempts stopped after any statement, one that nothing disturbs records the file with its object in place. |
| `Migration.RecordedMeansInPlace` | packages/db/src/migrate.ts:144-156 | Over any number of runs stopped anywhere, a recorded file is in force, as long as no later file is about the same name, and its checksum is the recorded one. |
| `Migration.RecordedInOrder` | packages/db/src/migrate.ts:144-156 | Files are recorded in order, and a transactional file has taken effect exactly if it is recorded. |
| `Migration.UndisturbedRunFinishes` | packages/db/src/migrate.ts:119-162 | After any runs stopped anywhere, a run that nothing disturbs, but for lock timeouts that leave every file an attempt, records every file and leaves each in force; it stops short only at a file that is malformed, not allowed by the options or about a name something else has, with all files before it recorded and in force. |
| `Migration.RefusedFilesStayOut` | packages/db/src/migrate.ts:150-154 | Without permission no blocking file is recorded or applied, and a malformed one never is; the run ends there. |
| `Migration.OutcomesAreHeard` | packages/db/src/migrate.ts:180-187 | An attempt ends as one of its statements did, so it is retried for a lock timeout and for nothing else. |
| `Migration.LockTimeoutsAreOutlasted` | packages/db/src/migrate.ts:166-189 | If attempts time out on a lock and one is left, the next decides: undisturbed, it records the file with its object in place. |
| `Migration.EditedFileStops` | packages/db/src/migrate.ts:145-149 | A recorded file whose checksum changed stops the run before anything is done. |
| `Migration.Runner.ApplyConcurrent` | packages/db/src/migrate.ts:216-247 | The statements of one attempt, run in place, have the effect of the attempt's definition. |
| `Migration.Runner.ApplyWithRetry` | packages/db/src/migrate.ts:166-189 | The loop makes attempts, each on what the last left, until one does not time out on a lock or the limit is reached; it returns how many it made and the result of the last, so a timeout means that every attempt allowed has timed out. |
| `Migration.Runner.Migrate` | packages/db/src/migrate.ts:119-162 | The loop over the files has the effect of the run's definition. |
| `Stats.KthCounts` | apps/harness/src/stats.ts:34-43 | The value at index k of the sorted sample is at most v exactly when more than k samples are. |
| `Stats.KthMonotone` | apps/harness/src/stats.ts:36-38 | Raising samples raises every order statistic. |
| `Stats.BoundsAreSound` | apps/harness/src/stats.ts:17-23 | For every way the censored samples could have ended, the true order statistic lies between the bounds. |
| `Stats.LowerBoundIsReached` | apps/harness/src/stats.ts:17-23 | The lower bound is the statistic of one such ending. |
| `Stats.UpperBoundIsReached` | apps/harness/src/stats.ts:17-23 | So is the upper bound; and where there is none, endings exceed every number. |
| `Stats.ExactWithoutCensoring` | apps/harness/src/stats.ts:20 | Without censoring the bounds are equal. |
| `Stats.PercentileExactly` | apps/harness/src/stats.ts:39-43 | A percentile is given exactly when the share above it is worth three samples, and its index is the p hundredths of their number, rounded down. |
| `Stats.MaximumIsLast` | apps/harness/src/stats.ts:44-45 | The maximum's bounds are those of the last order statistic. |
| `Stats.StatusIsExact` | apps/harness/src/load.ts:371-375 | "met" says exactly that every ending keeps the limit, "missed" exactly that every ending breaks it. |
| `Stats.VerdictIsExact` | apps/harness/src/load.ts:396-402 | The run is "met" exactly when it is valid, offered the target workload and every observed target holds in every ending, and "missed" exactly when it is valid and some target is broken in every ending. |
| `Timeline.Buckets` | apps/harness/src/load.ts:230-251 | Each bucket holds the naive counts of its second, answered requests still waiting at its end included, and the last bucket has none waiting. |
| `Timeline.EveryRequestIsCounted` | apps/harness/src/load.ts:229-246 | Over all buckets arrivals total the requests, and answers and errors together do too. |
| `Timeline.PeakOutstanding` | apps/harness/src/load.ts:257-266 | The sweep finds the most requests waiting at one instant: no instant has more and, unless it is zero, one has as many. |
| `Timeline.PeakCoversBuckets` | apps/harness/src/load.ts:253-256 | It is at least every bucket's number outstanding. |

## Left out

- The HTTP layer, authentication, field-shape checks, the generated client, seeds, report writing and the runners
  that drive a live database: plumbing around the parts modelled.
- Hashing, token randomness, SQL text, row-level security and role privileges: a query is its effect on the state,
  and an application role's grants are taken as given.
- The audit log and the publication of outbox rows: which rows are published, and since when, is an input of the
  retention batch.
- Row locks that never conflict (foreign-key share locks, the venue row bumped by config versions) and admin writes
  made without the engine's commands.
- Schedule writes and listing commands: schedules are inputs of the period model, and no reservation depends on
  them.
- The schedule check of a hold inside the interleaved machine: there it is one of the reasons a transaction may
  abort. Its exactness is `Periods.ScheduleCheckIsExact`.
- HoldAlone.Hold: an attempt may be rolled back after any statement, but the attempts run with nobody else about;
  amid other transactions the retry is one more transaction under the same key, covered by the statements about all
  transactions.
- The cap on live holds is checked without a lock in the code, so no bound on concurrent holds of one actor is
  claimed.
- Which of several refusal codes a stranding admin write reports (`capacity_conflict`, `assignment_in_use`,
  `blackout_conflict`, `reservation_in_progress`, `force_too_large`): one code stands for them all.
- Guarantees.ForceCancelsOnlyStranded: a reservation seated between the stranded query and its row lock is cancelled
  with the others, as in the code; the model does not claim that a started reservation is never cancelled.
- Periods.PeriodsAreComplete: zones with daylight saving are not modelled, because the conversion is Postgres's.
- Instants of an availability window and of load records are not negative, and load records are whole milliseconds.
- Normalizer.NormalizeSql: lower-casing is modelled for ASCII letters; other letters are kept as they are.
- NormalForm.LetterCaseDoesNotMatter: states it for ASCII letters, for the same reason.
- GapReplacement.ReplacementIsExact: asks that a comment which runs on stops between two lexemes of what follows.
  Where it stops inside one, the condition is that of GapReplacement.ReplacementInGeneral, on the tokens of the
  rest.
- ConnectionContract.CancelNeverHitsAnother: a backend pid is identified with its connection, so the reuse of a pid
  by the operating system after a connection is gone is not modelled.
- Header lines of migration files are reduced to what they say: a file is transactional, concurrent or malformed,
  and blocking or not.
- Floating-point rounding of percentile ranks and of latencies.
