/** The migration runner: each file at most once, in order, and index builds outside a transaction that survive being
    stopped after any statement. */
module Migration {
  import opened Domain
  import opened Normalizer
  import opened ConcurrentIndex

  // ----- The database -----

  /** Whatever holds a name: an index with the definition the database prints for it, or something else. */
  datatype Relation = Index(table: string, definition: string, valid: bool, ready: bool) | Other

  /** `applied` are the transactional files whose statements have taken effect. */
  datatype Store = Store(catalog: map<Name, Relation>, recorded: map<nat, int>, applied: set<nat>)

  datatype Body = Transactional | Concurrent(statement: Statement) | Malformed

  datatype File = File(version: nat, checksum: int, blocking: bool, body: Body)

  // ----- What can become of a statement -----

  /** A concurrent build or drop that is cut short can leave its index behind, marked invalid. */
  datatype Effect = Nothing | Partial(ready: bool) | Whole

  datatype Report = Success | LockTimeout | Error | Stopped

  /** The effect a statement had and what the runner heard of it; `Stopped` ends the process. */
  datatype Fate = Fate(effect: Effect, report: Report)

  /** A statement reported as successful took its whole effect; of any other the runner knows nothing. */
  function EffectOf(f: Fate): Effect {
    if f.report == Success then Whole else f.effect
  }

  /** A statement that runs whole or not at all, and not at all when the server reports a lock timeout. */
  function TookEffect(f: Fate): bool {
    f.report == Success || (f.report != LockTimeout && f.effect == Whole)
  }

  datatype Fates = Fates(find: Report, leftover: Fate, main: Fate, record: Fate)

  datatype Outcome = Recorded | Conflict | TimedOut | Failed | Crashed | Refused | Mismatch

  datatype Result = Result(db: Store, outcome: Outcome)

  function Reported(r: Report): Outcome {
    match r
    case Success => Recorded
    case LockTimeout => TimedOut
    case Error => Failed
    case Stopped => Crashed
  }

  // ----- Statements -----

  function DropIndexEffect(db: Store, n: Name, e: Effect): Store {
    if n !in db.catalog || !db.catalog[n].Index? then db else
    match e
    case Nothing => db
    case Partial(ready) => db.(catalog := db.catalog[n := db.catalog[n].(valid := false, ready := ready)])
    case Whole => db.(catalog := db.catalog - {n})
  }

  function BuildEffect(db: Store, st: Statement, e: Effect): Store
    requires st.CreateIndex?
  {
    if st.name in db.catalog then db else
    match e
    case Nothing => db
    case Partial(ready) => db.(catalog := db.catalog[st.name := Index(st.table, st.definition, false, ready)])
    case Whole => db.(catalog := db.catalog[st.name := Index(st.table, st.definition, true, true)])
  }

  function RecordFile(db: Store, f: File, fate: Fate): Result {
    Result(if TookEffect(fate) then db.(recorded := db.recorded[f.version := f.checksum]) else db,
        Reported(fate.report))
  }

  // ----- One attempt -----

  predicate SameIndex(r: Relation, st: Statement)
    requires st.CreateIndex?
  {
    r.Index? && r.table == st.table && Normalize(r.definition) == Some(st.definition)
  }

  predicate Complete(r: Relation) {
    r.Index? && r.valid && r.ready
  }

  /** Something else has the name: never dropped, never built over. */
  predicate Conflicts(db: Store, st: Statement) {
    match st
    case CreateIndex(n, _, _) => n in db.catalog && !SameIndex(db.catalog[n], st)
    case DropIndex(n) => n in db.catalog && !db.catalog[n].Index?
  }

  function Build(db: Store, f: File, st: Statement, w: Fates): Result
    requires st.CreateIndex?
  {
    var db' := BuildEffect(db, st, EffectOf(w.main));
    if w.main.report == Success then RecordFile(db', f, w.record) else Result(db', Reported(w.main.report))
  }

  function AttemptConcurrent(db: Store, f: File, st: Statement, w: Fates): Result {
    if w.find != Success then Result(db, Reported(w.find))
    else if Conflicts(db, st) then Result(db, Conflict)
    else match st
      case CreateIndex(n, _, _) =>
        if n !in db.catalog then Build(db, f, st, w)
        else if Complete(db.catalog[n]) then RecordFile(db, f, w.record)
        else
          var db' := DropIndexEffect(db, n, EffectOf(w.leftover));
          if w.leftover.report == Success then Build(db', f, st, w) else Result(db', Reported(w.leftover.report))
      case DropIndex(n) =>
        if n !in db.catalog then RecordFile(db, f, w.record)
        else
          var db' := DropIndexEffect(db, n, EffectOf(w.main));
          if w.main.report == Success then RecordFile(db', f, w.record) else Result(db', Reported(w.main.report))
  }

  /** The file's statements and its record commit together or not at all. */
  function AttemptTransaction(db: Store, f: File, fate: Fate): Result {
    Result(if TookEffect(fate)
           then db.(applied := db.applied + {f.version}, recorded := db.recorded[f.version := f.checksum]) else db,
           Reported(fate.report))
  }

  function Attempt(db: Store, f: File, w: Fates): Result {
    match f.body
    case Transactional => AttemptTransaction(db, f, w.main)
    case Concurrent(st) => AttemptConcurrent(db, f, st, w)
    case Malformed => Result(db, Refused)
  }

  // ----- Retries and runs -----

  /** What befalls the statements of each file's attempts in one run. */
  type Weather = (nat, nat) -> Fates

  function WithRetry(db: Store, f: File, attempt: nat, maxAttempts: nat, weather: Weather): Result
    decreases maxAttempts - attempt
  {
    var r := Attempt(db, f, weather(f.version, attempt));
    if r.outcome == TimedOut && attempt < maxAttempts then WithRetry(r.db, f, attempt + 1, maxAttempts, weather) else r
  }

  datatype Options = Options(allowBlocking: bool, maxAttempts: nat)

  /** The files from the `k`-th on; the first that cannot be recorded ends the run. */
  function RunFrom(db: Store, files: seq<File>, k: nat, o: Options, weather: Weather): Result
    requires k <= |files|
    decreases |files| - k
  {
    if k == |files| then Result(db, Recorded) else
    var f := files[k];
    if f.version in db.recorded then
      if db.recorded[f.version] == f.checksum then RunFrom(db, files, k + 1, o, weather) else Result(db, Mismatch)
    else if f.body == Malformed || (f.blocking && !o.allowBlocking) then Result(db, Refused)
    else
      var r := WithRetry(db, f, 1, o.maxAttempts, weather);
      if r.outcome == Recorded then RunFrom(r.db, files, k + 1, o, weather) else r
  }

  // ----- What one attempt does -----

  /** The file is in force: a built index is there, valid, and of the file's definition; a dropped one is gone. */
  predicate InPlace(db: Store, st: Statement) {
    match st
    case CreateIndex(n, _, _) => n in db.catalog && SameIndex(db.catalog[n], st) && Complete(db.catalog[n])
    case DropIndex(n) => n !in db.catalog
  }

  /** A create's comparison text is a normal form, as the parser guarantees of every accepted file. */
  predicate ProperStatement(st: Statement) {
    st.CreateIndex? ==> Normalize(st.definition) == Some(st.definition)
  }

  lemma AttemptRecordsWhatIsInPlace(db: Store, f: File, st: Statement, w: Fates)
    requires ProperStatement(st) && f.version !in db.recorded
    ensures var r := AttemptConcurrent(db, f, st, w);
            && (f.version in r.db.recorded ==> r.db.recorded[f.version] == f.checksum && InPlace(r.db, st))
            && (r.outcome == Recorded ==> f.version in r.db.recorded)
            && (r.outcome == TimedOut ==> f.version !in r.db.recorded)
  {
    hide Normalize;
  }

  ghost predicate SameBut<K, V>(a: map<K, V>, b: map<K, V>, k: K) {
    && a.Keys - {k} == b.Keys - {k}
    && forall x :: x in a && x != k ==> x in b && b[x] == a[x]
  }

  /** Only the statement's own name and the file's own record change. */
  lemma AttemptTouchesItsOwn(db: Store, f: File, st: Statement, w: Fates)
    ensures var r := AttemptConcurrent(db, f, st, w);
            && r.db.applied == db.applied
            && SameBut(db.recorded, r.db.recorded, f.version)
            && SameBut(db.catalog, r.db.catalog, st.name)
  {
    hide Normalize, SameIndex, Complete, Conflicts;
    SameButSame(db.recorded, f.version);
    SameButSame(db.catalog, st.name);
  }

  lemma SameButAt<K, V>(a: map<K, V>, b: map<K, V>, k: K, x: K)
    requires SameBut(a, b, k) && x != k
    ensures (x in a <==> x in b) && (x in a ==> b[x] == a[x])
  {
    assert x in a.Keys - {k} <==> x in b.Keys - {k};
  }

  lemma SameButSame<K, V>(a: map<K, V>, k: K)
    ensures SameBut(a, a, k)
  {
  }

  /** A create never touches an index that is usable or of another definition, nor anything that is not an index. */
  lemma CreateTouchesOnlyLeftovers(db: Store, f: File, st: Statement, w: Fates)
    requires st.CreateIndex? && st.name in db.catalog
    requires Complete(db.catalog[st.name]) || !SameIndex(db.catalog[st.name], st)
    ensures AttemptConcurrent(db, f, st, w).db.catalog == db.catalog
  {
    hide Normalize;
  }

  /** Nothing that goes wrong makes a conflict where there was none. */
  lemma NoConflictArises(db: Store, f: File, st: Statement, w: Fates)
    requires ProperStatement(st) && !Conflicts(db, st)
    ensures !Conflicts(AttemptConcurrent(db, f, st, w).db, st)
  {
    hide Normalize;
  }

  predicate Undisturbed(w: Fates) {
    w.find == Success && w.leftover.report == Success && w.main.report == Success && w.record.report == Success
  }

  /** An attempt in which no statement fails records the file exactly when nothing conflicts, and otherwise changes
      nothing. */
  lemma UndisturbedAttempt(db: Store, f: File, st: Statement, w: Fates)
    requires Undisturbed(w)
    ensures var r := AttemptConcurrent(db, f, st, w);
            if Conflicts(db, st) then r == Result(db, Conflict) else r.outcome == Recorded && f.version in r.db.recorded
  {
    hide Normalize;
  }

  // ----- Crash recovery -----

  /** Attempt after attempt, each cut short in its own way, until the file is recorded. */
  ghost function Attempts(db: Store, f: File, st: Statement, ws: seq<Fates>): Store
    decreases |ws|
  {
    if ws == [] || f.version in db.recorded then db
    else Attempts(AttemptConcurrent(db, f, st, ws[0]).db, f, st, ws[1..])
  }

  /** However many attempts were stopped, and wherever, one that nothing disturbs finishes the file: it is recorded,
      and what it records is in place. */
  lemma {:induction false} RerunFinishes(db: Store, f: File, st: Statement, ws: seq<Fates>, w: Fates)
    requires ProperStatement(st) && f.version !in db.recorded && !Conflicts(db, st) && Undisturbed(w)
    ensures var before := Attempts(db, f, st, ws);
            var after := Attempts(before, f, st, [w]);
            f.version in after.recorded && InPlace(after, st)
    decreases |ws|
  {
    if ws == [] {
      UndisturbedAttempt(db, f, st, w);
      AttemptRecordsWhatIsInPlace(db, f, st, w);
      assert [w][1..] == [];
    } else {
      var next := AttemptConcurrent(db, f, st, ws[0]).db;
      AttemptRecordsWhatIsInPlace(db, f, st, ws[0]);
      NoConflictArises(db, f, st, ws[0]);
      hide AttemptConcurrent, InPlace, Conflicts, ProperStatement;
      if f.version !in next.recorded { RerunFinishes(next, f, st, ws[1..], w); }
    }
  }

  // ----- Runs -----

  /** Files are in order of their versions. */
  ghost predicate InVersionOrder(files: seq<File>) {
    forall i, j :: 0 <= i < j < |files| ==> files[i].version < files[j].version
  }

  ghost predicate ProperFiles(files: seq<File>) {
    && InVersionOrder(files)
    && forall i :: 0 <= i < |files| && files[i].body.Concurrent? ==> ProperStatement(files[i].body.statement)
  }

  /** No later file is about the same name. */
  ghost predicate LastWord(files: seq<File>, i: nat)
    requires i < |files| && files[i].body.Concurrent?
  {
    forall j :: i < j < |files| && files[j].body.Concurrent? ==>
          files[j].body.statement.name != files[i].body.statement.name
  }

  /** What a record vouches for. */
  ghost predicate Vouched(db: Store, files: seq<File>, i: nat)
    requires i < |files|
  {
    match files[i].body
    case Transactional => files[i].version in db.applied
    case Concurrent(st) => LastWord(files, i) ==> InPlace(db, st)
    case Malformed => false
  }

  ghost predicate RecordedIsTrue(db: Store, files: seq<File>) {
    forall i {:trigger Vouched(db, files, i)} :: 0 <= i < |files| && files[i].version in db.recorded ==>
      db.recorded[files[i].version] == files[i].checksum && Vouched(db, files, i)
  }

  /** The files recorded are the first so many, and only their transactions have taken effect. */
  ghost predicate Prefix(db: Store, files: seq<File>, n: nat) {
    && n <= |files|
    && (forall i :: 0 <= i < |files| ==> (files[i].version in db.recorded <==> i < n))
    && (forall i :: n <= i < |files| ==> files[i].version !in db.applied)
  }

  ghost predicate SoundTo(db: Store, files: seq<File>, n: nat) {
    RecordedIsTrue(db, files) && Prefix(db, files, n)
  }

  ghost predicate Sound(db: Store, files: seq<File>) {
    exists n :: SoundTo(db, files, n)
  }

  /** One more attempt at the first file not yet recorded. */
  lemma AttemptKeepsSound(db: Store, files: seq<File>, n: nat, w: Fates)
    requires ProperFiles(files) && SoundTo(db, files, n) && n < |files|
    ensures var r := Attempt(db, files[n], w);
            && SoundTo(r.db, files, if files[n].version in r.db.recorded then n + 1 else n)
            && (r.outcome == Recorded ==> files[n].version in r.db.recorded)
            && (r.outcome == TimedOut ==> files[n].version !in r.db.recorded)
  {
    match files[n].body
    case Transactional => TransactionKeepsSound(db, files, n, w.main);
    case Concurrent(st) => ConcurrentKeepsSound(db, files, n, st, w);
    case Malformed =>
  }

  lemma TransactionKeepsSound(db: Store, files: seq<File>, n: nat, fate: Fate)
    requires ProperFiles(files) && SoundTo(db, files, n) && n < |files| && files[n].body == Transactional
    ensures var r := AttemptTransaction(db, files[n], fate);
            SoundTo(r.db, files, if files[n].version in r.db.recorded then n + 1 else n)
  {
    var f, r := files[n], AttemptTransaction(db, files[n], fate);
    hide InPlace, ProperStatement;
    forall i | 0 <= i < |files| && files[i].version in r.db.recorded
      ensures r.db.recorded[files[i].version] == files[i].checksum && Vouched(r.db, files, i)
    {
      if i != n {
        assert files[i].version != f.version;
        assert Vouched(db, files, i);
      }
    }
  }

  /** What other files' records vouch for is not touched. */
  lemma VouchedStays(db: Store, files: seq<File>, n: nat, st: Statement, w: Fates, i: nat)
    requires n < |files| && i < n && files[n].body == Concurrent(st) && Vouched(db, files, i)
    ensures Vouched(AttemptConcurrent(db, files[n], st, w).db, files, i)
  {
    AttemptTouchesItsOwn(db, files[n], st, w);
    hide AttemptConcurrent, Normalize;
  }

  lemma ConcurrentKeepsSound(db: Store, files: seq<File>, n: nat, st: Statement, w: Fates)
    requires ProperFiles(files) && SoundTo(db, files, n) && n < |files| && files[n].body == Concurrent(st)
    ensures var r := AttemptConcurrent(db, files[n], st, w);
            SoundTo(r.db, files, if files[n].version in r.db.recorded then n + 1 else n)
  {
    var f, r := files[n], AttemptConcurrent(db, files[n], st, w);
    AttemptRecordsWhatIsInPlace(db, f, st, w);
    AttemptTouchesItsOwn(db, f, st, w);
    hide AttemptConcurrent, InPlace, ProperStatement, SameBut, LastWord;
    forall i | 0 <= i < |files| && i != n
      ensures files[i].version in r.db.recorded <==> i < n
      ensures i < n ==> r.db.recorded[files[i].version] == db.recorded[files[i].version]
    {
      SameButAt(db.recorded, r.db.recorded, f.version, files[i].version);
    }
    forall i | 0 <= i < |files| && files[i].version in r.db.recorded
      ensures r.db.recorded[files[i].version] == files[i].checksum && Vouched(r.db, files, i)
    {
      if i != n {
        assert Vouched(db, files, i);
        VouchedStays(db, files, n, st, w, i);
      }
    }
  }

  lemma {:induction false} RetryKeepsSound(db: Store, files: seq<File>, n: nat, attempt: nat, maxAttempts: nat,
      weather: Weather)
    requires ProperFiles(files) && SoundTo(db, files, n) && n < |files|
    ensures var r := WithRetry(db, files[n], attempt, maxAttempts, weather);
            && SoundTo(r.db, files, if files[n].version in r.db.recorded then n + 1 else n)
            && (r.outcome == Recorded ==> files[n].version in r.db.recorded)
    decreases maxAttempts - attempt
  {
    hide SoundTo, Attempt;
    var w := weather(files[n].version, attempt);
    AttemptKeepsSound(db, files, n, w);
    var r := Attempt(db, files[n], w);
    if r.outcome == TimedOut && attempt < maxAttempts {
      RetryKeepsSound(r.db, files, n, attempt + 1, maxAttempts, weather);
    }
  }

  lemma {:induction false} RunFromKeepsSound(db: Store, files: seq<File>, n: nat, k: nat, o: Options, weather: Weather)
    requires ProperFiles(files) && SoundTo(db, files, n) && k <= n
    ensures Sound(RunFrom(db, files, k, o, weather).db, files)
    decreases |files| - k
  {
    hide WithRetry, RecordedIsTrue;
    if k < |files| {
      var f := files[k];
      if f.version in db.recorded {
        RunFromKeepsSound(db, files, n, k + 1, o, weather);
      } else if f.body != Malformed && (!f.blocking || o.allowBlocking) {
        RetryKeepsSound(db, files, n, 1, o.maxAttempts, weather);
        var r := WithRetry(db, f, 1, o.maxAttempts, weather);
        if r.outcome == Recorded { RunFromKeepsSound(r.db, files, n + 1, k + 1, o, weather); }
      }
    }
  }

  datatype RunOf = RunOf(options: Options, weather: Weather)

  /** Any number of runs, each ending where it ends. */
  ghost function Runs(db: Store, files: seq<File>, rs: seq<RunOf>): Store
    decreases |rs|
  {
    if rs == [] then db else Runs(RunFrom(db, files, 0, rs[0].options, rs[0].weather).db, files, rs[1..])
  }

  lemma {:induction false} RunsKeepSound(db: Store, files: seq<File>, rs: seq<RunOf>)
    requires ProperFiles(files) && Sound(db, files)
    ensures Sound(Runs(db, files, rs), files)
    decreases |rs|
  {
    if rs != [] {
      var n :| SoundTo(db, files, n);
      hide SoundTo, RunFrom;
      RunFromKeepsSound(db, files, n, 0, rs[0].options, rs[0].weather);
      RunsKeepSound(RunFrom(db, files, 0, rs[0].options, rs[0].weather).db, files, rs[1..]);
    }
  }

  ghost predicate Unmigrated(db: Store) {
    db.recorded == map[] && db.applied == {}
  }

  /** Over any number of runs, stopped anywhere: a recorded create's index is present, valid and of the file's
      definition, and a recorded drop's is absent, as long as no later file is about the same name. */
  lemma RecordedMeansInPlace(db: Store, files: seq<File>, rs: seq<RunOf>, i: nat)
    requires ProperFiles(files) && Unmigrated(db) && i < |files|
    requires files[i].version in Runs(db, files, rs).recorded
    ensures Runs(db, files, rs).recorded[files[i].version] == files[i].checksum
    ensures files[i].body.Concurrent? && LastWord(files, i) ==> InPlace(Runs(db, files, rs), files[i].body.statement)
    ensures files[i].body.Transactional? ==> files[i].version in Runs(db, files, rs).applied
  {
    assert SoundTo(db, files, 0);
    RunsKeepSound(db, files, rs);
    var after := Runs(db, files, rs);
    var n :| SoundTo(after, files, n);
    assert Vouched(after, files, i);
  }

  /** Files are recorded in order, and a transactional file has taken effect exactly if it is recorded. */
  lemma RecordedInOrder(db: Store, files: seq<File>, rs: seq<RunOf>, i: nat, j: nat)
    requires ProperFiles(files) && Unmigrated(db) && i < j < |files|
    ensures var after := Runs(db, files, rs);
            && (files[j].version in after.recorded ==> files[i].version in after.recorded)
            && (files[i].body.Transactional? ==>
                (files[i].version in after.applied <==> files[i].version in after.recorded))
  {
    assert SoundTo(db, files, 0);
    RunsKeepSound(db, files, rs);
    var after := Runs(db, files, rs);
    var n :| SoundTo(after, files, n);
    if files[i].version in after.recorded { assert Vouched(after, files, i); }
  }

  /** An edited file stops the run before anything is done. */
  lemma {:induction false} EditedFileStops(db: Store, files: seq<File>, k: nat, j: nat, o: Options, weather: Weather)
    requires k <= j < |files| && files[j].version in db.recorded && db.recorded[files[j].version] != files[j].checksum
    requires forall i :: k <= i < j ==>
          files[i].version in db.recorded && db.recorded[files[i].version] == files[i].checksum
    ensures RunFrom(db, files, k, o, weather) == Result(db, Mismatch)
    decreases j - k
  {
    if k < j { EditedFileStops(db, files, k + 1, j, o, weather); }
  }

  /** Without permission no blocking file is applied, and a malformed one never is. */
  lemma {:induction false} RefusedFilesStayOut(db: Store, files: seq<File>, k: nat, o: Options, weather: Weather,
      i: nat)
    requires InVersionOrder(files) && k <= |files| && i < |files| && files[i].version !in db.recorded
    requires files[i].body == Malformed || (files[i].blocking && !o.allowBlocking)
    ensures var r := RunFrom(db, files, k, o, weather);
            && files[i].version !in r.db.recorded
            && (files[i].version in r.db.applied <==> files[i].version in db.applied)
            && (k <= i ==> r.outcome != Recorded)
    decreases |files| - k
  {
    hide WithRetry;
    if k < |files| {
      var f := files[k];
      if f.version in db.recorded {
        RefusedFilesStayOut(db, files, k + 1, o, weather, i);
      } else if f.body != Malformed && (!f.blocking || o.allowBlocking) {
        RetryTouchesItsOwn(db, f, 1, o.maxAttempts, weather, files[i].version);
        var r := WithRetry(db, f, 1, o.maxAttempts, weather);
        if r.outcome == Recorded { RefusedFilesStayOut(r.db, files, k + 1, o, weather, i); }
      }
    }
  }

  lemma {:induction false} RetryTouchesItsOwn(db: Store, f: File, attempt: nat, maxAttempts: nat, weather: Weather,
      other: nat)
    requires other != f.version
    ensures var r := WithRetry(db, f, attempt, maxAttempts, weather);
            && (other in r.db.recorded <==> other in db.recorded) && (other in r.db.applied <==> other in db.applied)
    decreases maxAttempts - attempt
  {
    var w := weather(f.version, attempt);
    AttemptLeavesOthers(db, f, w, other);
    var r := Attempt(db, f, w);
    hide Attempt;
    if r.outcome == TimedOut && attempt < maxAttempts {
      RetryTouchesItsOwn(r.db, f, attempt + 1, maxAttempts, weather, other);
    }
  }

  lemma AttemptLeavesOthers(db: Store, f: File, w: Fates, other: nat)
    requires other != f.version
    ensures var r := Attempt(db, f, w);
            && (other in r.db.recorded <==> other in db.recorded) && (other in r.db.applied <==> other in db.applied)
  {
    if f.body.Concurrent? {
      AttemptTouchesItsOwn(db, f, f.body.statement, w);
      var r := AttemptConcurrent(db, f, f.body.statement, w);
      SameButAt(db.recorded, r.db.recorded, f.version, other);
      hide AttemptConcurrent;
    }
  }

  // ----- Retries -----

  predicate Hears(w: Fates, r: Report) {
    w.find == r || w.leftover.report == r || w.main.report == r || w.record.report == r
  }

  /** An attempt ends as one of its statements did: it is retried for a lock timeout and for nothing else. */
  lemma OutcomesAreHeard(db: Store, f: File, w: Fates)
    ensures var o := Attempt(db, f, w).outcome;
            && (o == TimedOut ==> Hears(w, LockTimeout)) && (o == Failed ==> Hears(w, Error))
            && (o == Crashed ==> Hears(w, Stopped)) && (o == Refused <==> f.body == Malformed) && o != Mismatch
  {
    hide Conflicts, Complete;
  }

  /** The `a`-th attempt, each on the database the one before it left. */
  function Tried(db: Store, f: File, weather: Weather, a: nat): Result
    requires a >= 1
  {
    Attempt(if a == 1 then db else Tried(db, f, weather, a - 1).db, f, weather(f.version, a))
  }

  /** Every attempt before the `n`-th timed out on a lock with attempts left, and the `n`-th did not, or was the
      last. */
  predicate LastAttempt(db: Store, f: File, maxAttempts: nat, weather: Weather, n: nat) {
    && 1 <= n
    && (forall a :: 1 <= a < n ==> a < maxAttempts && Tried(db, f, weather, a).outcome == TimedOut)
    && (Tried(db, f, weather, n).outcome != TimedOut || n >= maxAttempts)
  }

  lemma {:induction false} RetryIsLast(db: Store, f: File, maxAttempts: nat, weather: Weather, a: nat, n: nat)
    requires LastAttempt(db, f, maxAttempts, weather, n) && 1 <= a <= n
    ensures WithRetry(if a == 1 then db else Tried(db, f, weather, a - 1).db, f, a, maxAttempts, weather)
            == Tried(db, f, weather, n)
    decreases n - a
  {
    hide Attempt;
    if a < n {
      RetryIsLast(db, f, maxAttempts, weather, a + 1, n);
      assert Tried(db, f, weather, a).outcome == TimedOut;
    }
  }

  /** If every attempt up to the `n`-th times out on a lock and attempts are left, the next decides; one that nothing
      disturbs records the file, with its object in place. */
  lemma LockTimeoutsAreOutlasted(db: Store, f: File, n: nat, maxAttempts: nat, weather: Weather)
    requires f.body != Malformed && f.version !in db.recorded && (n == 0 || n < maxAttempts)
    requires f.body.Concurrent? ==> ProperStatement(f.body.statement) && !Conflicts(db, f.body.statement)
    requires forall a :: 1 <= a <= n ==> Tried(db, f, weather, a).outcome == TimedOut
    requires Undisturbed(weather(f.version, n + 1))
    ensures var r := Tried(db, f, weather, n + 1);
            && LastAttempt(db, f, maxAttempts, weather, n + 1) && r.outcome == Recorded
            && f.version in r.db.recorded && r.db.recorded[f.version] == f.checksum
            && (if f.body.Transactional? then f.version in r.db.applied else InPlace(r.db, f.body.statement))
  {
    var before := if n == 0 then db else Tried(db, f, weather, n).db;
    StillUnrecorded(db, f, weather, n);
    if f.body.Concurrent? {
      UndisturbedAttempt(before, f, f.body.statement, weather(f.version, n + 1));
      AttemptRecordsWhatIsInPlace(before, f, f.body.statement, weather(f.version, n + 1));
    }
    hide AttemptConcurrent, Conflicts, ProperStatement, InPlace;
  }

  lemma {:induction false} StillUnrecorded(db: Store, f: File, weather: Weather, n: nat)
    requires f.version !in db.recorded
    requires f.body.Concurrent? ==> ProperStatement(f.body.statement) && !Conflicts(db, f.body.statement)
    requires forall a :: 1 <= a <= n ==> Tried(db, f, weather, a).outcome == TimedOut
    ensures var before := if n == 0 then db else Tried(db, f, weather, n).db;
            && f.version !in before.recorded && (f.body.Concurrent? ==> !Conflicts(before, f.body.statement))
  {
    if n > 0 {
      StillUnrecorded(db, f, weather, n - 1);
      var before := if n == 1 then db else Tried(db, f, weather, n - 1).db;
      assert Tried(db, f, weather, n).outcome == TimedOut;
      if f.body.Concurrent? {
        AttemptRecordsWhatIsInPlace(before, f, f.body.statement, weather(f.version, n));
        NoConflictArises(before, f, f.body.statement, weather(f.version, n));
      }
      hide AttemptConcurrent, Conflicts, ProperStatement;
    }
  }

  // ----- Completion -----

  predicate OnlyLockTimeouts(w: Fates) {
    !Hears(w, Error) && !Hears(w, Stopped)
  }

  /** Nothing but lock timeouts befalls the first attempts at a file, and one within the limit is undisturbed. */
  ghost predicate ClearsUp(weather: Weather, v: nat, from: nat, n: nat, maxAttempts: nat) {
    && from <= n && (n <= maxAttempts || n == from)
    && Undisturbed(weather(v, n)) && forall a :: from <= a < n ==> OnlyLockTimeouts(weather(v, a))
  }

  ghost predicate FileClearsUp(weather: Weather, v: nat, maxAttempts: nat) {
    exists n :: ClearsUp(weather, v, 1, n, maxAttempts)
  }

  /** No statement of the run fails but for lock timeouts, which every file outlasts. */
  ghost predicate Calm(weather: Weather, maxAttempts: nat) {
    forall v :: FileClearsUp(weather, v, maxAttempts)
  }

  /** Why a run may rightly stop at a file: it is malformed, needs a maintenance window that was not granted, or is
      about a name something else has. */
  predicate CannotApply(db: Store, f: File, o: Options) {
    || f.body == Malformed
    || (f.blocking && !o.allowBlocking)
    || (f.body.Concurrent? && Conflicts(db, f.body.statement))
  }

  lemma TimeoutsOnly(db: Store, f: File, w: Fates)
    requires OnlyLockTimeouts(w) && f.body != Malformed
    ensures var r := Attempt(db, f, w);
            if f.body.Concurrent? && Conflicts(db, f.body.statement)
            then r == Result(db, Conflict) || r == Result(db, TimedOut)
            else r.outcome in {Recorded, TimedOut}
  {
    hide SameIndex, Complete;
  }

  lemma {:induction false} CalmAttempt(db: Store, f: File, o: Options, from: nat, n: nat, maxAttempts: nat,
      weather: Weather)
    requires ClearsUp(weather, f.version, from, n, maxAttempts) && f.body != Malformed
    requires f.blocking ==> o.allowBlocking
    requires f.body.Concurrent? ==> ProperStatement(f.body.statement)
    ensures var r := WithRetry(db, f, from, maxAttempts, weather);
            if CannotApply(db, f, o) then r == Result(db, Conflict) else r.outcome == Recorded
    decreases n - from
  {
    var w := weather(f.version, from);
    if from == n {
      if f.body.Concurrent? { UndisturbedAttempt(db, f, f.body.statement, w); }
      hide AttemptConcurrent, Conflicts;
    } else {
      TimeoutsOnly(db, f, w);
      if f.body.Concurrent? && !Conflicts(db, f.body.statement) { NoConflictArises(db, f, f.body.statement, w); }
      hide AttemptConcurrent, AttemptTransaction, Conflicts, OnlyLockTimeouts, Undisturbed, ProperStatement;
      var r := Attempt(db, f, w);
      if r.outcome == TimedOut {
        assert ClearsUp(weather, f.version, from + 1, n, maxAttempts);
        CalmAttempt(r.db, f, o, from + 1, n, maxAttempts, weather);
      }
    }
  }

  lemma CalmFile(db: Store, f: File, o: Options, weather: Weather)
    requires Calm(weather, o.maxAttempts) && f.body != Malformed && (f.blocking ==> o.allowBlocking)
    requires f.body.Concurrent? ==> ProperStatement(f.body.statement)
    ensures var r := WithRetry(db, f, 1, o.maxAttempts, weather);
            if CannotApply(db, f, o) then r == Result(db, Conflict) else r.outcome == Recorded
  {
    assert FileClearsUp(weather, f.version, o.maxAttempts);
    var n :| ClearsUp(weather, f.version, 1, n, o.maxAttempts);
    CalmAttempt(db, f, o, 1, n, o.maxAttempts, weather);
  }

  lemma {:induction false} CalmRun(db: Store, files: seq<File>, n: nat, k: nat, o: Options, weather: Weather)
    requires ProperFiles(files) && SoundTo(db, files, n) && k <= n && Calm(weather, o.maxAttempts)
    ensures var r := RunFrom(db, files, k, o, weather);
            || (r.outcome == Recorded && SoundTo(r.db, files, |files|))
            || (r.outcome != Recorded && exists j :: 0 <= j < |files| && StopsAt(r.db, files, j, o))
    decreases |files| - k
  {
    hide WithRetry, Calm, CannotApply, Vouched, ProperStatement;
    if k < |files| {
      var f := files[k];
      if f.version in db.recorded {
        assert Vouched(db, files, k);
        CalmRun(db, files, n, k + 1, o, weather);
      } else if f.body != Malformed && (f.blocking ==> o.allowBlocking) {
        CalmFile(db, f, o, weather);
        RetryKeepsSound(db, files, k, 1, o.maxAttempts, weather);
        var r := WithRetry(db, f, 1, o.maxAttempts, weather);
        if CannotApply(db, f, o) {
          assert StopsAt(r.db, files, k, o);
        } else {
          CalmRun(r.db, files, k + 1, k + 1, o, weather);
        }
      } else {
        assert StopsAt(db, files, k, o) by { assert CannotApply(db, f, o) by { CannotApplyThen(db, f, o); } }
      }
    }
  }

  lemma CannotApplyThen(db: Store, f: File, o: Options)
    requires f.body == Malformed || (f.blocking && !o.allowBlocking)
    ensures CannotApply(db, f, o)
  {
  }

  /** The files before the `j`-th are recorded and in force, and the `j`-th cannot be applied. */
  ghost predicate StopsAt(db: Store, files: seq<File>, j: nat, o: Options)
    requires j < |files|
  {
    SoundTo(db, files, j) && CannotApply(db, files[j], o)
  }

  /** After any number of runs stopped anywhere, a run that nothing disturbs, but for lock timeouts that leave every
      file an attempt, records every file and leaves each in force; it stops short only at a file that cannot be
      applied, with all the files before it recorded and in force. */
  lemma UndisturbedRunFinishes(db: Store, files: seq<File>, rs: seq<RunOf>, o: Options, weather: Weather)
    requires ProperFiles(files) && Unmigrated(db) && Calm(weather, o.maxAttempts)
    ensures var r := RunFrom(Runs(db, files, rs), files, 0, o, weather);
            if r.outcome == Recorded then
              forall i :: 0 <= i < |files| ==> files[i].version in r.db.recorded && Vouched(r.db, files, i)
            else
              exists j :: 0 <= j < |files| && StopsAt(r.db, files, j, o)
  {
    assert SoundTo(db, files, 0);
    RunsKeepSound(db, files, rs);
    var before := Runs(db, files, rs);
    var n :| SoundTo(before, files, n);
    CalmRun(before, files, n, 0, o, weather);
    var r := RunFrom(before, files, 0, o, weather);
    hide Vouched, Runs, RunFrom, CannotApply;
  }

  // ----- The runner -----

  /** The connection's view of the database, changed statement by statement. */
  class Runner {
    var db: Store

    constructor (db: Store)
      ensures this.db == db
    {
      this.db := db;
    }

    method Record(f: File, fate: Fate) returns (o: Outcome)
      modifies this
      ensures Result(db, o) == RecordFile(old(db), f, fate)
    {
      if TookEffect(fate) { db := db.(recorded := db.recorded[f.version := f.checksum]); }
      o := Reported(fate.report);
    }

    method ApplyConcurrent(f: File, st: Statement, w: Fates) returns (o: Outcome)
      modifies this
      ensures Result(db, o) == AttemptConcurrent(old(db), f, st, w)
    {
      if w.find != Success { return Reported(w.find); }
      match st {
        case CreateIndex(n, table, definition) =>
          if n in db.catalog {
            if !SameIndex(db.catalog[n], st) { return Conflict; }
            if Complete(db.catalog[n]) {
              o := Record(f, w.record);
              return;
            }
            db := DropIndexEffect(db, n, EffectOf(w.leftover));
            if w.leftover.report != Success { return Reported(w.leftover.report); }
          }
          db := BuildEffect(db, st, EffectOf(w.main));
        case DropIndex(n) =>
          if n !in db.catalog {
            o := Record(f, w.record);
            return;
          }
          if !db.catalog[n].Index? { return Conflict; }
          db := DropIndexEffect(db, n, EffectOf(w.main));
      }
      if w.main.report != Success { return Reported(w.main.report); }
      o := Record(f, w.record);
    }

    /** Attempts until one does not time out on a lock, or the limit is reached; `attempts` is how many there were. */
    method ApplyWithRetry(f: File, maxAttempts: nat, weather: Weather) returns (o: Outcome, attempts: nat)
      modifies this
      ensures LastAttempt(old(db), f, maxAttempts, weather, attempts)
      ensures Result(db, o) == Tried(old(db), f, weather, attempts)
      ensures Result(db, o) == WithRetry(old(db), f, 1, maxAttempts, weather)
    {
      hide AttemptConcurrent, WithRetry;
      attempts := 1;
      while true
        invariant 1 <= attempts && (attempts <= maxAttempts || attempts == 1)
        invariant forall a :: 1 <= a < attempts ==>
                    a < maxAttempts && Tried(old(db), f, weather, a).outcome == TimedOut
        invariant db == if attempts == 1 then old(db) else Tried(old(db), f, weather, attempts - 1).db
        decreases maxAttempts - attempts
      {
        var w := weather(f.version, attempts);
        match f.body {
          case Malformed => o := Refused;
          case Transactional =>
            if TookEffect(w.main) {
              db := db.(applied := db.applied + {f.version}, recorded := db.recorded[f.version := f.checksum]);
            }
            o := Reported(w.main.report);
          case Concurrent(st) => o := ApplyConcurrent(f, st, w);
        }
        assert Result(db, o) == Tried(old(db), f, weather, attempts);
        if o != TimedOut || attempts >= maxAttempts {
          RetryIsLast(old(db), f, maxAttempts, weather, 1, attempts);
          return;
        }
        attempts := attempts + 1;
      }
    }

    method Migrate(files: seq<File>, o: Options, weather: Weather) returns (outcome: Outcome)
      modifies this
      ensures Result(db, outcome) == RunFrom(old(db), files, 0, o, weather)
    {
      var k := 0;
      while k < |files|
        invariant k <= |files| && RunFrom(old(db), files, 0, o, weather) == RunFrom(db, files, k, o, weather)
      {
        var f := files[k];
        if f.version in db.recorded {
          if db.recorded[f.version] != f.checksum { return Mismatch; }
        } else {
          if f.body == Malformed || (f.blocking && !o.allowBlocking) { return Refused; }
          var applied, _ := ApplyWithRetry(f, o.maxAttempts, weather);
          if applied != Recorded { return applied; }
        }
        k := k + 1;
      }
      outcome := Recorded;
    }
  }
}
