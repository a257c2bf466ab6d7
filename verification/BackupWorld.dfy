/** What the backup coordinator talks to: a container daemon, a database and an object store
    whose commands may succeed, fail with unknown effect, or be interrupted. */
module BackupWorld {

  import opened Wrappers

  /** Everything that may write to the database or the object store. */
  datatype Actor = Api | Scheduler | Worker | Maintenance | Reaper | RecoveryJob | Attestor

  const SERVICES: seq<Actor> := [Api, Scheduler]                  // paused in this order
  const RESUMED_SERVICES: seq<Actor> := [Scheduler, Api]          // unpaused in this order
  const WORKERS: seq<Actor> := [Worker, Maintenance, Reaper]
  const WRITERS: set<Actor> := {Api, Scheduler, Worker, Maintenance, Reaper}

  type Database = map<string, seq<int>>                  // table name to rows
  type Objects = map<string, seq<int>>                   // object key to bytes
  type Inventory = map<string, (nat, int)>               // object key to size and digest
  type Digest = seq<int> -> int

  /** `live` may write now.  A command that did not report success leaves its actors
      `unsettled`: the daemon may apply it at any later moment, or never. */
  datatype World = World(live: set<Actor>, unsettled: set<Actor>, db: Database, objects: Objects)

  datatype Command =
    | Pause(actor: Actor)
    | Unpause(actor: Actor)
    | FailClosedStop(actor: Actor)
    | Identify(actor: Actor)
    | StopWorker(actor: Actor)
    | KillWorker(actor: Actor)
    | StartWorker(actor: Actor)
    | AwaitHealth(actor: Actor)
    | RunRecovery
    | RefreshPrepare
    | RefreshSignal
    | RefreshWait
    | InventoryObjects
    | CountRows
    | DumpDatabase
    | StopStorage
    | ArchiveVolume
    | StartStorage
    | ProbeStorage
    | WriteManifest

  /** `Failed` is a `BackupError`; `Interrupted` is any other exception. */
  datatype Outcome = Ok | Failed | Interrupted

  datatype Event = Event(command: Command, outcome: Outcome)

  /** What a reading command hands back when it succeeds. */
  datatype Sight =
    | Nothing
    | SawContainer(id: nat)
    | SawInventory(inventory: Inventory)
    | SawCounts(counts: map<string, nat>)
    | SawDatabase(dump: Database)
    | SawVolume(archive: Objects)

  /** The commands issued so far, latest last, and the worlds they led through. */
  datatype Log = Empty | Then(prior: Log, last: Event)

  datatype Run = Begin(world: World) | Next(prior: Run, event: Event, world: World)

  function InventoryOf(objects: Objects, digest: Digest): Inventory {
    map key | key in objects :: (|objects[key]|, digest(objects[key]))
  }

  function RowCountsOf(db: Database): map<string, nat> {
    map table | table in db :: |db[table]|
  }

  function Starts(c: Command): set<Actor> {
    if c.Unpause? || c.StartWorker? then {c.actor} else {}
  }

  function Stops(c: Command): set<Actor> {
    if c.Pause? || c.FailClosedStop? || c.StopWorker? || c.KillWorker? then {c.actor}
    else if c.RunRecovery? then {RecoveryJob}
    else {}
  }

  predicate Inert(c: Command) {
    Starts(c) == {} && Stops(c) == {}
  }

  predicate Silent(w: World) {
    w.live == {} && w.unsettled == {}
  }

  /** Success means the effect took place; anything else leaves the effect unknown. */
  predicate Settles(w: World, e: Event, w': World) {
    var touched := Starts(e.command) + Stops(e.command);
    && w'.unsettled == (if e.outcome.Ok? then w.unsettled else w.unsettled + touched)
    && forall a: Actor :: a !in w'.unsettled ==>
         (a in w'.live <==>
          if e.outcome.Ok? && a in touched then a in Starts(e.command) else a in w.live)
  }

  /** One command, with everything the environment may do before it returns.  Data change only
      at the hands of an active actor, except that stopping the object store may flush or lose
      objects. */
  predicate Step(w: World, e: Event, w': World) {
    && Settles(w, e, w')
    && (Silent(w) && Inert(e.command) ==>
          && w'.db == w.db
          && (!e.command.StopStorage? ==> w'.objects == w.objects))
  }

  /** A successful read reports the data it found, provided nothing could write meanwhile. */
  predicate Sees(w: World, c: Command, seen: Sight, digest: Digest) {
    match c
    case Identify(_) => seen.SawContainer?
    case InventoryObjects =>
      seen.SawInventory? && (Silent(w) ==> seen.inventory == InventoryOf(w.objects, digest))
    case CountRows => seen.SawCounts? && (Silent(w) ==> seen.counts == RowCountsOf(w.db))
    case DumpDatabase => seen.SawDatabase? && (Silent(w) ==> seen.dump == w.db)
    case ArchiveVolume => seen.SawVolume? && (Silent(w) ==> seen.archive == w.objects)
    case _ => true
  }

  /** Every step is one the daemon may take, and nothing was in flight at the start. */
  predicate IsRun(run: Run) {
    match run
    case Begin(w) => w.unsettled == {}
    case Next(prior, e, w) => IsRun(prior) && Step(prior.world, e, w)
  }

  function LogOf(run: Run): Log {
    match run
    case Begin(_) => Empty
    case Next(prior, e, _) => Then(LogOf(prior), e)
  }

  /** `run` continues `earlier`. */
  predicate Continues(run: Run, earlier: Run) {
    run == earlier || (run.Next? && Continues(run.prior, earlier))
  }

  function Done(log: Log, c: Command): Log {
    Then(log, Event(c, Ok))
  }

  // ----- the commands of a clean call, phase by phase

  function Paused(log: Log, n: nat): Log
    requires n <= |SERVICES|
  {
    if n == 0 then log else Done(Paused(log, n - 1), Pause(SERVICES[n - 1]))
  }

  function Drained(log: Log, n: nat): Log
    requires n <= |WORKERS|
  {
    if n == 0 then log
    else Done(Done(Drained(log, n - 1), Identify(WORKERS[n - 1])), StopWorker(WORKERS[n - 1]))
  }

  function Quiesced(): Log {
    Drained(Paused(Empty, |SERVICES|), |WORKERS|)
  }

  function Refreshed(log: Log): Log {
    Done(Done(Done(log, RefreshPrepare), RefreshSignal), RefreshWait)
  }

  /** From quiescence to the capture. */
  function Gated(log: Log): Log {
    Done(Refreshed(Done(log, RunRecovery)), Pause(Attestor))
  }

  /** The gate: everything that must succeed before anything is captured. */
  function Gate(): Log {
    Gated(Quiesced())
  }

  function DatabaseCaptured(log: Log): Log {
    Done(Done(Done(log, InventoryObjects), CountRows), DumpDatabase)
  }

  function VolumeCaptured(log: Log): Log {
    Done(Done(log, StopStorage), ArchiveVolume)
  }

  function Restarted(log: Log): Log {
    Done(Done(Done(log, StartStorage), ProbeStorage), InventoryObjects)
  }

  function Captured(log: Log): Log {
    Restarted(VolumeCaptured(DatabaseCaptured(log)))
  }

  /** A clean recovery up to the point where writers may resume. */
  function Reattested(log: Log): Log {
    Refreshed(Done(if StorageStopped(log) then Done(Done(log, StartStorage), ProbeStorage) else log,
                   Unpause(Attestor)))
  }

  function Started(log: Log, n: nat): Log
    requires n <= |WORKERS|
  {
    if n == 0 then log
    else
      var worker := WORKERS[n - 1];
      Done(Done(Done(Started(log, n - 1), Identify(worker)), StartWorker(worker)), AwaitHealth(worker))
  }

  function Unpaused(log: Log, n: nat): Log
    requires n <= |RESUMED_SERVICES|
  {
    if n == 0 then log else Done(Unpaused(log, n - 1), Unpause(RESUMED_SERVICES[n - 1]))
  }

  function Resumed(log: Log): Log {
    Unpaused(Started(log, 3), 2)
  }

  // ----- what happened since some earlier point

  predicate Since(log: Log, earlier: Log) {
    log == earlier || (log.Then? && Since(log.prior, earlier))
  }

  /** Since `earlier`, nothing was started or stopped. */
  predicate InertSince(log: Log, earlier: Log) {
    log == earlier || (log.Then? && Inert(log.last.command) && InertSince(log.prior, earlier))
  }

  /** Since `earlier`, every command succeeded. */
  predicate CleanSince(log: Log, earlier: Log) {
    log == earlier || (log.Then? && log.last.outcome.Ok? && CleanSince(log.prior, earlier))
  }

  /** The last command was cut short by something other than a `BackupError`. */
  predicate Broke(log: Log) {
    log.Then? && log.last.outcome.Interrupted?
  }

  predicate BrokeAfter(log: Log, earlier: Log) {
    Broke(log) && Since(log.prior, earlier)
  }

  /** On the way from `earlier` to the log `clean`, everything succeeded until the last command, and
      nothing was sent after it. */
  predicate FellShort(log: Log, earlier: Log, clean: Log) {
    && log.Then? && !log.last.outcome.Ok?
    && Since(log.prior, earlier)
    && Since(clean, Done(log.prior, log.last.command))
  }

  predicate Happened(log: Log, e: Event) {
    log.Then? && (log.last == e || Happened(log.prior, e))
  }

  /** The commands that did not succeed, in order. */
  function Failures(log: Log): seq<Event> {
    if log.Empty? then []
    else Failures(log.prior) + if log.last.outcome.Ok? then [] else [log.last]
  }

  // ----- quiescing, whatever fails

  /** A failed pause is followed by stopping the service. */
  predicate PauseTried(log: Log, before: Log, service: Actor) {
    || log == Done(before, Pause(service))
    || (&& log.Then? && log.last.command == FailClosedStop(service) && !log.last.outcome.Interrupted?
        && log.prior == Then(before, Event(Pause(service), Failed)))
  }

  /** A failed stop is followed by killing the worker. */
  predicate StopTried(log: Log, before: Log, worker: Actor) {
    || log == Done(before, StopWorker(worker))
    || (&& log.Then? && log.last.command == KillWorker(worker) && !log.last.outcome.Interrupted?
        && log.prior == Then(before, Event(StopWorker(worker), Failed)))
  }

  /** What must be sent next while quiescing, given what happened so far: each service is paused, or
      stopped if its pause failed; then each worker is identified and, identified or not, stopped,
      or killed if the stop failed; then nothing. */
  function NextQuiescing(log: Log): Option<Command> {
    if log.Empty? then Some(Pause(Api))
    else
      var failed := log.last.outcome.Failed?;
      match log.last.command
      case Pause(service) => if failed then Some(FailClosedStop(service)) else AfterService(service)
      case FailClosedStop(service) => AfterService(service)
      case Identify(worker) => Some(StopWorker(worker))
      case StopWorker(worker) => if failed then Some(KillWorker(worker)) else AfterWorker(worker)
      case KillWorker(worker) => AfterWorker(worker)
      case _ => None
  }

  function AfterService(service: Actor): Option<Command> {
    Some(if service == Api then Pause(Scheduler) else Identify(Worker))
  }

  function AfterWorker(worker: Actor): Option<Command> {
    match worker
    case Worker => Some(Identify(Maintenance))
    case Maintenance => Some(Identify(Reaper))
    case _ => None
  }

  /** Quiescence went no other way so far, and nothing was sent after an interruption. */
  predicate Quiescing(log: Log) {
    log.Then? ==>
      && Quiescing(log.prior)
      && !Broke(log.prior)
      && NextQuiescing(log.prior) == Some(log.last.command)
  }

  /** All five writers have been attempted. */
  predicate QuiescenceTried(log: Log) {
    Quiescing(log) && !Broke(log) && NextQuiescing(log) == None
  }

  // ----- recovering, whatever fails

  /** The object store was told to stop and no inventory has succeeded since. */
  predicate StorageStopped(log: Log) {
    log.Then? && (log.last.command.StopStorage? ||
                  (StorageStopped(log.prior) && log.last != Event(InventoryObjects, Ok)))
  }

  /** A store that may be down is started and probed, the probe even after a failed start. */
  predicate StorageRetried(log: Log, before: Log) {
    if StorageStopped(before) then
      && log.Then? && log.last.command == ProbeStorage && !log.last.outcome.Interrupted?
      && log.prior.Then? && log.prior.last.command == StartStorage && !log.prior.last.outcome.Interrupted?
      && log.prior.prior == before
    else log == before
  }

  predicate StorageAnswers(restored: Log, before: Log) {
    StorageStopped(before) ==> restored.Then? && restored.last.outcome.Ok?
  }

  /** The capacity refresh, after the attestor's release if its pause had been attempted. */
  function RefreshAfter(restored: Log, before: Log): Log {
    Refreshed(if Happened(before, Event(RefreshWait, Ok)) then Done(restored, Unpause(Attestor)) else restored)
  }

  /** What recovery sends before it decides on the writers: the storage retry and then, if the store
      answers and the recovery job had completed, a refresh up to its first failure. */
  ghost predicate Reattesting(log: Log, before: Log) {
    exists restored :: StorageRetried(restored, before) && Refreshing(log, restored, before)
  }

  predicate Refreshing(log: Log, restored: Log, before: Log) {
    if StorageAnswers(restored, before) && Happened(before, Event(RunRecovery, Ok))
    then log == RefreshAfter(restored, before) || FellShort(log, restored, RefreshAfter(restored, before))
    else log == restored
  }

  // ----- what recovery reports

  datatype RecoveryError =
    | StorageRestartFailed
    | StorageNotReady
    | CapacityRefreshFailed
    | WriterRestartFailed
    | RollbackFailed(actor: Actor)
    | WritersHeld(reason: HoldReason)
    | WritersReturned

  datatype HoldReason = RecoveryIncomplete | GateNotPassed | StorageUnavailable | CapacityStale | RecoveryTrouble

  /** The error a failed command of the recovery stands for. */
  function ErrorOf(c: Command): RecoveryError {
    match c
    case StartStorage => StorageRestartFailed
    case ProbeStorage => StorageNotReady
    case Pause(actor) => RollbackFailed(actor)
    case StopWorker(actor) => RollbackFailed(actor)
    case _ => CapacityRefreshFailed
  }

  /** One error for each command that failed since `earlier`, in order. */
  function ErrorsSince(log: Log, earlier: Log): seq<RecoveryError> {
    if log == earlier || log.Empty? then []
    else ErrorsSince(log.prior, earlier) + if log.last.outcome.Failed? then [ErrorOf(log.last.command)] else []
  }

  /** Why the writers are held back: the first of the conditions that is not met. */
  function ReasonFor(before: Log, troubles: seq<RecoveryError>): HoldReason {
    if !Happened(before, Event(RunRecovery, Ok)) then RecoveryIncomplete
    else if !Happened(before, Event(Pause(Attestor), Ok)) then GateNotPassed
    else if StorageNotReady in troubles then StorageUnavailable
    else if CapacityRefreshFailed in troubles then CapacityStale
    else RecoveryTrouble
  }

  function HeldErrors(log: Log, before: Log): seq<RecoveryError> {
    ErrorsSince(log, before) + [WritersHeld(ReasonFor(before, ErrorsSince(log, before)))]
  }

  function RolledBackErrors(log: Log, short: Log): seq<RecoveryError> {
    [WriterRestartFailed] + ErrorsSince(log, short) + [WritersReturned]
  }

  // ----- when a writer may be resumed

  /** A command that lets an application writer run again. */
  predicate Resumes(c: Command) {
    c.StartWorker? || (c.Unpause? && c.actor in WRITERS)
  }

  predicate NoResume(log: Log) {
    log.Then? ==> !Resumes(log.last.command) && NoResume(log.prior)
  }

  /** The object store was never stopped, or a readiness probe succeeded after the last stop. */
  predicate StorageProven(log: Log) {
    match log
    case Empty => true
    case Then(prior, e) =>
      e == Event(ProbeStorage, Ok) || (!e.command.StopStorage? && StorageProven(prior))
  }

  predicate Captures(c: Command) {
    c.InventoryObjects? || c.CountRows? || c.DumpDatabase? || c.StopStorage? || c.ArchiveVolume?
  }

  /** The whole gate was passed, later the object store was proven available, and then a fresh
      capacity refresh succeeded after which nothing was captured. */
  predicate ResumeJustified(log: Log) {
    || FreshlyAttested(log)
    || (log.Then? && !Captures(log.last.command) && ResumeJustified(log.prior))
  }

  predicate FreshlyAttested(log: Log) {
    && log.Then? && log.prior.Then? && log.prior.prior.Then? && log.prior.prior.prior.Then?
    && var before := log.prior.prior.prior.prior;
       && log == Refreshed(Done(before, Unpause(Attestor)))
       && StorageProven(before)
       && Since(before, Gate())
  }

  /** No writer is ever resumed without that justification in the log before it. */
  predicate WriterSafe(log: Log) {
    log.Then? ==> WriterSafe(log.prior) && (Resumes(log.last.command) ==> ResumeJustified(log.prior))
  }

  /** The three workers are healthy again, and nothing is in doubt. */
  predicate WorkersBack(log: Log, w: World) {
    && Happened(log, Event(AwaitHealth(Worker), Ok))
    && Happened(log, Event(AwaitHealth(Maintenance), Ok))
    && Happened(log, Event(AwaitHealth(Reaper), Ok))
    && Worker in w.live && Maintenance in w.live && Reaper in w.live && w.unsettled == {}
  }

  /** The scheduler is let run only behind the workers, and the api only behind all of them. */
  predicate ItsTurn(c: Command, log: Log, w: World) {
    && (c == Unpause(Scheduler) ==> WorkersBack(log, w))
    && (c == Unpause(Api) ==>
          WorkersBack(log, w) && Happened(log, Event(Unpause(Scheduler), Ok)) && Scheduler in w.live)
  }

  /** Every command of the run was sent in its turn. */
  predicate InTurn(run: Run) {
    run.Next? ==> InTurn(run.prior) && ItsTurn(run.event.command, LogOf(run.prior), run.prior.world)
  }

  /** A possible run, its log, never a resume without its justification or out of turn. */
  predicate Conducted(run: Run, log: Log) {
    match run
    case Begin(w) => w.unsettled == {} && log.Empty?
    case Next(prior, e, w) =>
      && log.Then? && log.last == e
      && (Resumes(e.command) ==> ResumeJustified(log.prior))
      && (e.command.Unpause? ==> ItsTurn(e.command, log.prior, prior.world))
      && Step(prior.world, e, w)
      && Conducted(prior, log.prior)
  }

  lemma {:induction false} ConductedMeans(run: Run, log: Log)
    requires Conducted(run, log)
    ensures IsRun(run) && LogOf(run) == log && WriterSafe(log) && InTurn(run)
  {
    if run.Next? {
      ConductedMeans(run.prior, log.prior);
    }
  }

  // ----- undoing a resume that failed

  /** The resume stopped short at worker `started` or, with all workers up, at service `resumed`
      (both counted from 1): everything before it succeeded and nothing was sent after it. */
  predicate StoppedShort(log: Log, before: Log, started: nat, resumed: nat) {
    if resumed > 0 then
      && resumed <= |RESUMED_SERVICES| && started == |WORKERS|
      && log == Then(Unpaused(Started(before, 3), resumed - 1),
                     Event(Unpause(RESUMED_SERVICES[resumed - 1]), Failed))
    else
      && 0 < started <= |WORKERS|
      && StartFailed(log, Started(before, started - 1), WORKERS[started - 1])
  }

  /** The ways one exact start can fail; the second is a changed container identity. */
  predicate StartFailed(log: Log, before: Log, worker: Actor) {
    || log == Then(before, Event(Identify(worker), Failed))
    || log == Done(before, Identify(worker))
    || log == Then(Done(before, Identify(worker)), Event(StartWorker(worker), Failed))
    || log == Then(Done(Done(before, Identify(worker)), StartWorker(worker)),
                   Event(AwaitHealth(worker), Failed))
  }

  /** Since `before`, exactly one pause for each of the first `n` resumed services from number `i`
      on, last resumed first, whatever fails; nothing is sent after an interruption. */
  predicate Repaused(log: Log, before: Log, i: nat, n: nat)
    requires i <= n <= |RESUMED_SERVICES|
    decreases n - i
  {
    if i == n then log == before
    else
      && log.Then? && log.last.command == Pause(RESUMED_SERVICES[i]) && !log.last.outcome.Interrupted?
      && Repaused(log.prior, before, i + 1, n)
  }

  predicate Restopped(log: Log, before: Log, i: nat, n: nat)
    requires i <= n <= |WORKERS|
    decreases n - i
  {
    if i == n then log == before
    else
      && log.Then? && log.last.command == StopWorker(WORKERS[i]) && !log.last.outcome.Interrupted?
      && Restopped(log.prior, before, i + 1, n)
  }

  /** From a point where nothing had been resumed, a resume stopped short and then every attempted
      service, and nothing else, was put back, last attempt first within each group. */
  ghost predicate RolledBack(log: Log, short: Log, before: Log, started: nat, resumed: nat) {
    && started <= |WORKERS| && resumed <= |RESUMED_SERVICES|
    && NoResume(before)
    && StoppedShort(short, before, started, resumed)
    && exists repaused :: Repaused(repaused, short, 0, resumed) && Restopped(log, repaused, 0, started)
  }

  // ----- what a run implies about the world

  /** Every command that starts or stops an actor succeeded. */
  predicate Sure(log: Log) {
    log.Then? ==> (log.last.outcome.Ok? || Inert(log.last.command)) && Sure(log.prior)
  }

  /** The last command that touched the actor stopped it. */
  predicate LeftStopped(log: Log, a: Actor) {
    match log
    case Empty => false
    case Then(prior, e) =>
      a in Stops(e.command) || (a !in Starts(e.command) && LeftStopped(prior, a))
  }

  predicate LeftRunning(log: Log, a: Actor) {
    match log
    case Empty => false
    case Then(prior, e) =>
      a in Starts(e.command) || (a !in Stops(e.command) && LeftRunning(prior, a))
  }

  /** While every start and stop succeeds nothing is in doubt, and each touched actor is as the
      last command on it left it. */
  lemma {:induction false} SureWorld(run: Run, a: Actor)
    requires IsRun(run) && Sure(LogOf(run))
    ensures run.world.unsettled == {}
    ensures LeftStopped(LogOf(run), a) ==> a !in run.world.live
    ensures LeftRunning(LogOf(run), a) ==> a in run.world.live
  {
    match run {
      case Begin(_) =>
      case Next(prior, e, w) =>
        SureWorld(prior, a);
        assert a !in w.unsettled;
    }
  }

  lemma GateStopsAll(a: Actor)
    ensures LeftStopped(Gate(), a) && Sure(Gate()) && NoResume(Gate()) && StorageProven(Gate())
  {
    assert Gate() == Gated(Drained(Paused(Empty, 2), 3));
    assert Sure(Gated(Drained(Paused(Empty, 2), 3)));
    assert NoResume(Gated(Drained(Paused(Empty, 2), 3)));
    assert StorageProven(Gated(Drained(Paused(Empty, 2), 3)));
    match a {
      case Api => assert LeftStopped(Gated(Drained(Paused(Empty, 2), 3)), Api);
      case Scheduler => assert LeftStopped(Gated(Drained(Paused(Empty, 2), 3)), Scheduler);
      case Worker => assert LeftStopped(Gated(Drained(Paused(Empty, 2), 3)), Worker);
      case Maintenance => assert LeftStopped(Gated(Drained(Paused(Empty, 2), 3)), Maintenance);
      case Reaper => assert LeftStopped(Gated(Drained(Paused(Empty, 2), 3)), Reaper);
      case RecoveryJob => assert LeftStopped(Gated(Drained(Paused(Empty, 2), 3)), RecoveryJob);
      case Attestor => assert LeftStopped(Gated(Drained(Paused(Empty, 2), 3)), Attestor);
    }
  }

  /** Passing the whole gate leaves nothing that can write: every actor is stopped for certain. */
  lemma GateSilences(run: Run)
    requires IsRun(run) && LogOf(run) == Gate()
    ensures Silent(run.world)
  {
    forall a: Actor
      ensures a !in run.world.live && run.world.unsettled == {}
    {
      GateStopsAll(a);
      SureWorld(run, a);
    }
    assert run.world.unsettled == {} by { GateStopsAll(Api); SureWorld(run, Api); }
  }

  /** Whenever a resume is justified, the run went through a world in which nothing could write. */
  lemma {:induction false} ResumeFollowsSilence(run: Run) returns (cut: Run)
    requires IsRun(run) && ResumeJustified(LogOf(run))
    ensures Continues(run, cut) && LogOf(cut) == Gate() && Silent(cut.world)
  {
    var log := LogOf(run);
    if FreshlyAttested(log) {
      assert run.prior.Next? && IsRun(run.prior) && LogOf(run.prior) == log.prior;
      var second := run.prior.prior;
      assert second.Next? && IsRun(second) && LogOf(second) == log.prior.prior;
      assert second.prior.Next? && IsRun(second.prior) && LogOf(second.prior) == log.prior.prior.prior;
      assert IsRun(second.prior.prior);
      cut := FindCut(second.prior.prior);
      assert Continues(second.prior, cut);
      assert Continues(second, cut);
      assert Continues(run.prior, cut);
    } else {
      cut := ResumeFollowsSilence(run.prior);
    }
  }

  lemma {:induction false} FindCut(run: Run) returns (cut: Run)
    requires IsRun(run) && Since(LogOf(run), Gate())
    ensures Continues(run, cut) && LogOf(cut) == Gate() && Silent(cut.world)
  {
    if LogOf(run) == Gate() {
      cut := run;
      GateSilences(run);
    } else {
      cut := FindCut(run.prior);
    }
  }

  /** A command that starts and stops nothing leaves a silent world silent. */
  lemma QuietStep(w: World, e: Event, w': World)
    requires Step(w, e, w') && Silent(w) && Inert(e.command)
    ensures Silent(w') && w'.db == w.db
    ensures !e.command.StopStorage? ==> w'.objects == w.objects
  {
    assert forall a: Actor :: a !in w'.live;
  }

  /** From a silent world, inert commands leave the database as it is whatever their outcomes, for
      as long as they go on. */
  lemma {:induction false} FrozenDatabase(run: Run, cut: Run)
    requires IsRun(run) && Continues(run, cut)
    requires Silent(cut.world)
    requires InertSince(LogOf(run), LogOf(cut))
    ensures Silent(run.world) && run.world.db == cut.world.db
  {
    if run != cut {
      LogGrows(run.prior, cut);
      FrozenDatabase(run.prior, cut);
      QuietStep(run.prior.world, run.event, run.world);
    }
  }

  function Length(log: Log): nat {
    if log.Empty? then 0 else 1 + Length(log.prior)
  }

  lemma {:induction false} LogGrows(run: Run, earlier: Run)
    requires Continues(run, earlier)
    ensures Length(LogOf(run)) >= Length(LogOf(earlier))
  {
    if run != earlier {
      LogGrows(run.prior, earlier);
    }
  }

  lemma {:induction false} InertStaysSure(log: Log, earlier: Log)
    requires InertSince(log, earlier)
    ensures Sure(earlier) ==> Sure(log)
    ensures NoResume(earlier) ==> NoResume(log)
    ensures Since(log, earlier)
  {
    if log != earlier {
      InertStaysSure(log.prior, earlier);
    }
  }

  /** Starting workers leaves them running and disturbs no other actor. */
  lemma {:induction false} StartedLeavesRunning(log: Log, n: nat, a: Actor)
    requires n <= |WORKERS| && Sure(log)
    ensures Sure(Started(log, n))
    ensures a in WORKERS[..n] || LeftRunning(log, a) ==> LeftRunning(Started(log, n), a)
  {
    if n > 0 {
      StartedLeavesRunning(log, n - 1, a);
      var found := Done(Started(log, n - 1), Identify(WORKERS[n - 1]));
      assert Sure(found) && (LeftRunning(Started(log, n - 1), a) ==> LeftRunning(found, a));
      var up := Done(found, StartWorker(WORKERS[n - 1]));
      assert Sure(up) && (a == WORKERS[n - 1] || LeftRunning(found, a) ==> LeftRunning(up, a));
      assert Started(log, n) == Done(up, AwaitHealth(WORKERS[n - 1]));
    }
  }

  lemma ResumeLeavesRunning(log: Log, a: Actor)
    requires Sure(log)
    ensures Sure(Resumed(log))
    ensures a in WRITERS ==> LeftRunning(Resumed(log), a)
  {
    StartedLeavesRunning(log, 3, a);
    var scheduled := Done(Started(log, 3), Unpause(Scheduler));
    assert Unpaused(Started(log, 3), 1) == scheduled;
    assert Sure(scheduled) && (a in WORKERS || a == Scheduler ==> LeftRunning(scheduled, a));
    assert Resumed(log) == Done(scheduled, Unpause(Api));
  }

  lemma ReattestStaysSure(log: Log)
    requires Sure(log)
    ensures Sure(Reattested(log))
  {
    var started := Done(log, StartStorage);
    assert Sure(started);
    assert Sure(Done(started, ProbeStorage));
    var ready := Done(if StorageStopped(log) then Done(started, ProbeStorage) else log, Unpause(Attestor));
    assert Sure(ready);
    assert Sure(Done(ready, RefreshPrepare));
    assert Sure(Done(Done(ready, RefreshPrepare), RefreshSignal));
  }

  /** After a call whose starts and stops all succeeded, a clean recovery has every writer running
      and nothing in doubt, whatever went wrong with the capture. */
  lemma WritersRestored(run: Run, before: Log)
    requires IsRun(run) && Sure(before)
    requires LogOf(run) == Resumed(Reattested(before))
    ensures WRITERS <= run.world.live && run.world.unsettled == {}
  {
    var ready := Reattested(before);
    ReattestStaysSure(before);
    forall a: Actor
      ensures a in WRITERS ==> a in run.world.live
    {
      ResumeLeavesRunning(ready, a);
      SureWorld(run, a);
    }
    ResumeLeavesRunning(ready, Api);
    SureWorld(run, Api);
  }

  lemma {:induction false} InertTransitive(log: Log, middle: Log, earlier: Log)
    requires InertSince(log, middle) && InertSince(middle, earlier)
    ensures InertSince(log, earlier)
  {
    if log != middle {
      InertTransitive(log.prior, middle, earlier);
    }
  }

  /** An inert command in a settled world changes no actor. */
  lemma StillRunning(w: World, e: Event, w': World)
    requires Step(w, e, w') && Inert(e.command) && w.unsettled == {}
    ensures w'.live == w.live && w'.unsettled == {}
  {
    forall a: Actor
      ensures a in w'.live <==> a in w.live
    {
      assert a !in w'.unsettled;
    }
  }
}
