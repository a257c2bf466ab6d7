/** The coordinated backup of scripts/compose_backup.py: quiesce every writer, pass the storage
    gate, capture, restart storage, attest capacity afresh, and only then let writers resume. */
module BackupProtocol {
  import opened BackupFailClosed
  import opened BackupLogs
  import opened BackupWorld
  import opened Wrappers

  /** One answer of the daemon: what the coordinator learns and the world it leaves behind. */
  datatype Reaction = Reaction(outcome: Outcome, seen: Sight, next: World)

  /** The adversary.  It sees everything that happened so far. */
  type Daemon = (Log, World, Command) -> Reaction

  datatype Failure =
    | QuiescenceFailed(errors: seq<Event>)
    | CommandFailed(event: Event)
    | InventoryChanged

  datatype Backup = Backup(inventory: Inventory, counts: map<string, nat>, dump: Database, archive: Objects)

  datatype Exit =
    | Returned(backup: Backup)
    | Raised(failure: Failure)
    | RecoveryRaised(errors: seq<RecoveryError>, original: Option<Failure>)
    | ManifestRaised                           // failed after the writers were resumed
    | Aborted                                  // interrupted while recovering

  /** The error that ended the protected part, given the log at that point.  After quiescence it is
      the first command that did not succeed on the way to a complete capture.  Quiescence itself
      goes on to the last writer and then reports every failure, unless it is interrupted. */
  predicate Explains(failure: Failure, log: Log) {
    match failure
    case CommandFailed(event) =>
      && log.Then? && log.last == event
      && (FellShort(log, Quiesced(), Captured(Gate())) || (event.outcome.Interrupted? && Quiescing(log)))
    case QuiescenceFailed(errors) => errors != [] && errors == Failures(log) && QuiescenceTried(log)
    case InventoryChanged => log == Captured(Gate())
  }

  /** The four captures, though taken by separate commands, describe the one state `w`: the dump is
      its database, the counts are that database's, and the inventory and the archive are those of
      its objects. */
  predicate ConsistentCut(b: Backup, w: World, digest: Digest) {
    && b.dump == w.db
    && b.counts == RowCountsOf(w.db)
    && b.inventory == InventoryOf(w.objects, digest)
    && InventoryOf(b.archive, digest) == InventoryOf(w.objects, digest)
  }

  function SetOf(actors: seq<Actor>): set<Actor> {
    set a | a in actors
  }

  class BackupRun {
    const daemon: Daemon
    const digest: Digest
    var world: World
    var log: Log
    ghost var run: Run
    ghost var cut: Run                         // the run when the capture began
    ghost var ended: Run                       // the run when the protected part ended
    ghost var reported: map<Actor, nat>        // the container each worker was last found in

    var pauseAttempted: seq<Actor>
    var stopAttempted: seq<Actor>
    var workerIds: map<Actor, nat>
    var attestorPauseAttempted: bool
    var storageRecoveryCompleted: bool
    var preCaptureVerified: bool
    var captureStarted: bool
    var gateFailed: bool
    var objectStopped: bool
    var inventory: Option<Inventory>
    var counts: Option<map<string, nat>>
    var dump: Database
    var archive: Objects

    ghost predicate Valid()
      reads this
    {
      && Conducted(run, log)
      && run.world == world
      && Continues(run, ended)
      && (captureStarted ==> Continues(run, cut))
    }

    /** What the gate leaves behind in the coordinator. */
    ghost predicate PastGate()
      reads this
    {
      && LogOf(cut) == Gate()
      && pauseAttempted == SERVICES
      && stopAttempted == WORKERS
      && workerIds.Keys == SetOf(WORKERS)
      && storageRecoveryCompleted && preCaptureVerified && attestorPauseAttempted
    }

    /** What was captured is one state of the database and one of the object store, both those of
        world `w`. */
    ghost predicate CapturedAt(w: World)
      reads this
    {
      && inventory == Some(InventoryOf(w.objects, digest))
      && counts == Some(RowCountsOf(w.db))
      && dump == w.db
      && InventoryOf(archive, digest) == InventoryOf(w.objects, digest)
    }

    /** What the coordinator remembers is what its log says. */
    ghost predicate FlagsMatch(log: Log)
      reads this
    {
      && (objectStopped <==> StorageStopped(log))
      && (storageRecoveryCompleted <==> Happened(log, Event(RunRecovery, Ok)))
      && (preCaptureVerified <==> Happened(log, Event(RefreshWait, Ok)))
      && (attestorPauseAttempted <==> Happened(log, Event(RefreshWait, Ok)))
      && (captureStarted <==> Happened(log, Event(Pause(Attestor), Ok)))
    }

    /** Some worker was found in another container than the one recorded before it was stopped. */
    ghost predicate Replaced()
      reads this
    {
      exists w :: w in WORKERS && w in workerIds && w in reported && reported[w] != workerIds[w]
    }

    ghost predicate Fresh()
      reads this
    {
      && log == Empty && run == ended
      && pauseAttempted == [] && stopAttempted == [] && workerIds == map[]
      && !attestorPauseAttempted && !storageRecoveryCompleted && !preCaptureVerified
      && !captureStarted && !gateFailed && !objectStopped && reported == map[]
    }

    /** No command of an earlier call is still in flight when a call begins. */
    constructor (daemon: Daemon, digest: Digest, live: set<Actor>, db: Database, objects: Objects)
      ensures Valid() && Fresh() && this.daemon == daemon && this.digest == digest
      ensures world == World(live, {}, db, objects)
    {
      this.daemon, this.digest := daemon, digest;
      world, log := World(live, {}, db, objects), Empty;
      run, ended := Begin(World(live, {}, db, objects)), Begin(World(live, {}, db, objects));
      pauseAttempted, stopAttempted, workerIds := [], [], map[];
      attestorPauseAttempted, storageRecoveryCompleted, preCaptureVerified := false, false, false;
      captureStarted, gateFailed, objectStopped, reported := false, false, false, map[];
    }

    /** Issue one command; the daemon decides what happens, within `Step` and `Sees`. */
    method Issue(c: Command) returns (o: Outcome, seen: Sight)
      requires Valid()
      requires (Resumes(c) ==> ResumeJustified(log)) && ItsTurn(c, log, world)
      modifies this`world, this`log, this`run
      ensures Valid()
      ensures log == Then(old(log), Event(c, o))
      ensures run == Next(old(run), Event(c, o), world)
      ensures o.Ok? ==> Sees(world, c, seen, digest)
    {
      var reaction := daemon(log, world, c);
      var next := reaction.next;
      o, seen := reaction.outcome, reaction.seen;
      if !Step(world, Event(c, o), next) || (o.Ok? && !Sees(next, c, seen, digest)) {
        o, seen := Failed, Nothing;
        next := world.(unsettled := world.unsettled + (Starts(c) + Stops(c)));
      }
      log := Then(log, Event(c, o));
      run := Next(run, Event(c, o), next);
      world := next;
    }

    /** A command whose output is not used. */
    method Send(c: Command) returns (o: Outcome)
      requires Valid()
      requires (Resumes(c) ==> ResumeJustified(log)) && ItsTurn(c, log, world)
      modifies this`world, this`log, this`run
      ensures Valid()
      ensures log == Then(old(log), Event(c, o))
      ensures run == Next(old(run), Event(c, o), world)
    {
      var sent, _ := Issue(c);
      o := sent;
    }

    // ----- quiescence

    /** Pause one service; when the pause fails, stop it instead.  The attempt is recorded first. */
    method PauseService(service: Actor) returns (o: Outcome, errors: seq<Event>)
      requires Valid() && Quiescing(log) && !Broke(log) && NextQuiescing(log) == Some(Pause(service))
      modifies this`world, this`log, this`run, this`pauseAttempted
      ensures Valid() && Quiescing(log) && (Broke(log) <==> o.Interrupted?)
      ensures pauseAttempted == old(pauseAttempted) + [service]
      ensures !o.Interrupted? ==>
                && PauseTried(log, old(log), service)
                && NextQuiescing(log) == AfterService(service)
                && Failures(log) == Failures(old(log)) + errors && (o.Ok? <==> errors == [])
    {
      pauseAttempted := pauseAttempted + [service];
      errors := [];
      o := Send(Pause(service));
      if o.Failed? {
        errors := [Event(Pause(service), Failed)];
        ghost var failures := Failures(log);
        var stopped := Send(FailClosedStop(service));
        if stopped.Interrupted? { return Interrupted, errors; }
        if stopped.Failed? { errors := errors + [Event(FailClosedStop(service), Failed)]; }
        assert failures == Failures(old(log)) + [Event(Pause(service), Failed)];
      }
    }

    /** A worker that cannot be stopped is killed. */
    method StopOrKill(worker: Actor) returns (o: Outcome, errors: seq<Event>)
      requires Valid() && Quiescing(log) && !Broke(log) && NextQuiescing(log) == Some(StopWorker(worker))
      modifies this`world, this`log, this`run
      ensures Valid() && Quiescing(log) && (Broke(log) <==> o.Interrupted?)
      ensures !o.Interrupted? ==>
                && StopTried(log, old(log), worker)
                && NextQuiescing(log) == AfterWorker(worker)
                && Failures(log) == Failures(old(log)) + errors && (o.Ok? <==> errors == [])
    {
      errors := [];
      o := Send(StopWorker(worker));
      if o.Failed? {
        errors := [Event(StopWorker(worker), Failed)];
        ghost var failures := Failures(log);
        var killed := Send(KillWorker(worker));
        if killed.Interrupted? { return Interrupted, errors; }
        if killed.Failed? { errors := errors + [Event(KillWorker(worker), Failed)]; }
        assert failures == Failures(old(log)) + [Event(StopWorker(worker), Failed)];
      }
    }

    /** Record the container a worker runs in. */
    method RecordContainer(worker: Actor) returns (o: Outcome, errors: seq<Event>)
      requires Valid() && Quiescing(log) && !Broke(log) && NextQuiescing(log) == Some(Identify(worker))
      modifies this`world, this`log, this`run, this`workerIds, this`reported
      ensures Valid() && Quiescing(log) && (Broke(log) <==> o.Interrupted?)
      ensures NextQuiescing(log) == Some(StopWorker(worker))
      ensures !o.Interrupted? ==> Failures(log) == Failures(old(log)) + errors && (o.Ok? <==> errors == [])
      ensures o.Ok? ==>
                && worker in reported
                && reported == old(reported)[worker := reported[worker]]
                && workerIds == old(workerIds)[worker := reported[worker]]
    {
      var seen;
      o, seen := Issue(Identify(worker));
      errors := [];
      if o.Ok? {
        workerIds := workerIds[worker := seen.id];
        reported := reported[worker := seen.id];
      } else {
        errors := [Event(Identify(worker), Failed)];
      }
    }

    /** Record one worker's container, then stop it, identified or not. */
    method DrainWorker(worker: Actor) returns (o: Outcome, errors: seq<Event>)
      requires Valid() && Quiescing(log) && !Broke(log) && NextQuiescing(log) == Some(Identify(worker))
      modifies this`world, this`log, this`run, this`stopAttempted, this`workerIds, this`reported
      ensures Valid() && Quiescing(log) && (Broke(log) <==> o.Interrupted?)
      ensures stopAttempted == old(stopAttempted) + [worker]
      ensures !o.Interrupted? ==>
                && NextQuiescing(log) == AfterWorker(worker)
                && Failures(log) == Failures(old(log)) + errors && (o.Ok? <==> errors == [])
      ensures o.Ok? ==>
                && worker in reported
                && reported == old(reported)[worker := reported[worker]]
                && workerIds == old(workerIds)[worker := reported[worker]]
    {
      stopAttempted := stopAttempted + [worker];
      o, errors := RecordContainer(worker);
      if o.Interrupted? { return; }
      var stopped, more := StopOrKill(worker);
      if stopped.Interrupted? { return Interrupted, errors; }
      AppendTwice(Failures(old(log)), errors, more);
      errors := errors + more;
      if stopped.Failed? { o := Failed; }
    }

    /** Pause the request and schedule writers.  Errors are collected and both are attempted. */
    method PauseServices() returns (o: Outcome, errors: seq<Event>)
      requires Valid() && Fresh()
      modifies this`world, this`log, this`run, this`pauseAttempted
      ensures Valid() && Quiescing(log) && (Broke(log) <==> o.Interrupted?)
      ensures !o.Interrupted? ==>
                && pauseAttempted == SERVICES && NextQuiescing(log) == Some(Identify(Worker))
                && errors == Failures(log)
    {
      errors := [];
      for i := 0 to |SERVICES|
        invariant Valid() && Quiescing(log) && !Broke(log)
        invariant NextQuiescing(log) == Some(if i < |SERVICES| then Pause(SERVICES[i]) else Identify(Worker))
        invariant pauseAttempted == SERVICES[..i] && errors == Failures(log)
      {
        var paused, troubles := PauseService(SERVICES[i]);
        errors := errors + troubles;
        if paused.Interrupted? { return Interrupted, errors; }
      }
      o := if errors == [] then Ok else Failed;
    }

    /** Drain and stop the workers.  Errors are collected and all three are attempted. */
    method DrainWorkers() returns (o: Outcome, errors: seq<Event>)
      requires Valid() && Quiescing(log) && !Broke(log) && NextQuiescing(log) == Some(Identify(Worker))
      requires stopAttempted == [] && workerIds == map[] && reported == map[]
      modifies this`world, this`log, this`run, this`stopAttempted, this`workerIds, this`reported
      ensures Valid() && Quiescing(log) && (Broke(log) <==> o.Interrupted?)
      ensures !o.Interrupted? ==>
                && stopAttempted == WORKERS && NextQuiescing(log) == None
                && Failures(log) == Failures(old(log)) + errors && (o.Ok? <==> errors == [])
      ensures o.Ok? ==> workerIds.Keys == SetOf(WORKERS) && workerIds == reported
    {
      errors := [];
      for i := 0 to |WORKERS|
        invariant Valid() && Quiescing(log) && !Broke(log)
        invariant NextQuiescing(log) == if i < |WORKERS| then Some(Identify(WORKERS[i])) else None
        invariant stopAttempted == WORKERS[..i] && Failures(log) == Failures(old(log)) + errors
        invariant errors == [] ==> workerIds.Keys == SetOf(WORKERS[..i]) && workerIds == reported
      {
        var drained, troubles := DrainWorker(WORKERS[i]);
        errors := errors + troubles;
        if drained.Interrupted? { return Interrupted, errors; }
      }
      assert WORKERS[..3] == WORKERS;
      o := if errors == [] then Ok else Failed;
    }

    /** Quiesce every writer.  Unless it is interrupted, each of them has been attempted fail-closed
        before any failure is reported, and all failures are. */
    method Quiesce() returns (o: Outcome, failure: Failure)
      requires Valid() && Fresh()
      modifies this`world, this`log, this`run, this`pauseAttempted, this`stopAttempted, this`workerIds,
               this`reported
      ensures Valid() && Quiescing(log) && (Broke(log) <==> o.Interrupted?)
      ensures !o.Ok? ==> Explains(failure, log) && !failure.InventoryChanged?
      ensures !o.Interrupted? ==>
                && QuiescenceTried(log) && pauseAttempted == SERVICES && stopAttempted == WORKERS
                && (o.Ok? <==> Failures(log) == [])
      ensures o.Ok? ==>
                log == Quiesced() && workerIds.Keys == SetOf(WORKERS) && workerIds == reported
    {
      var errors;
      o, errors := PauseServices();
      if o.Interrupted? { return o, CommandFailed(log.last); }
      var drained, more := DrainWorkers();
      if drained.Interrupted? { return drained, CommandFailed(log.last); }
      errors := errors + more;
      failure := QuiescenceFailed(errors);
      o := if errors == [] then Ok else Failed;
      if o.Ok? { UnfailingIsClean(log); }
    }

    // ----- the storage gate

    /** Require a heartbeat bound to new evidence; stop at the first command that fails. */
    method RefreshNow() returns (o: Outcome)
      requires Valid() && NoResume(log) && StorageProven(log)
      modifies this`world, this`log, this`run
      ensures Valid() && NoResume(log) && StorageProven(log)
      ensures log.Then? && log.last.outcome == o
      ensures if o.Ok? then log == Refreshed(old(log)) else FellShort(log, old(log), Refreshed(old(log)))
    {
      SinceThree(log, RefreshPrepare, RefreshSignal, RefreshWait);
      o := Send(RefreshPrepare);
      if !o.Ok? { return; }
      ghost var prepared := log;
      o := Send(RefreshSignal);
      if !o.Ok? { return; }
      assert NoResume(prepared) && StorageProven(prepared);
      o := Send(RefreshWait);
    }

    /** The same, after releasing the attestor if it may be paused. */
    method RefreshCapacity(resume: bool) returns (o: Outcome)
      requires Valid() && NoResume(log) && StorageProven(log)
      modifies this`world, this`log, this`run
      ensures Valid() && NoResume(log) && StorageProven(log)
      ensures log.Then? && log.last.outcome == o
      ensures var clean := Refreshed(if resume then Done(old(log), Unpause(Attestor)) else old(log));
              if o.Ok? then log == clean else FellShort(log, old(log), clean)
    {
      if resume {
        ghost var released := Done(log, Unpause(Attestor));
        SinceThree(released, RefreshPrepare, RefreshSignal, RefreshWait);
        assert Since(released, old(log));
        o := Send(Unpause(Attestor));
        if !o.Ok? { return; }
      }
      ghost var ready := log;
      o := RefreshNow();
      if !o.Ok? { ShortOfMore(log, ready, Refreshed(ready), old(log), Refreshed(ready)); }
    }

    /** The recovery job, run to its end. */
    method RecoverStorage() returns (o: Outcome)
      requires Valid() && Quiescing(log) && FlagsMatch(log)
      modifies this`world, this`log, this`run, this`storageRecoveryCompleted
      ensures Valid() && NoResume(log) && StorageProven(log) && FlagsMatch(log)
      ensures log == Then(old(log), Event(RunRecovery, o))
    {
      QuiescingOnly(log);
      o := Send(RunRecovery);
      if o.Ok? { storageRecoveryCompleted := true; }
    }

    /** The first refresh, once the recovery job has completed. */
    method VerifyCapacity() returns (o: Outcome)
      requires Valid() && NoResume(log) && StorageProven(log) && FlagsMatch(log)
      modifies this`world, this`log, this`run, this`preCaptureVerified, this`attestorPauseAttempted
      ensures Valid() && NoResume(log) && StorageProven(log) && FlagsMatch(log)
      ensures log.Then? && log.last.outcome == o
      ensures if o.Ok? then log == Refreshed(old(log)) else FellShort(log, old(log), Refreshed(old(log)))
      ensures o.Ok? ==> preCaptureVerified && attestorPauseAttempted
    {
      NothingElseInRefresh(log);
      o := RefreshCapacity(false);
      if !o.Ok? { RefreshCutShort(log, old(log)); return; }
      preCaptureVerified := true;
      attestorPauseAttempted := true;
    }

    /** From quiescence to capture: the recovery job, a capacity refresh, the attestor's pause. */
    method PassGate() returns (o: Outcome)
      requires Valid() && Quiescing(log) && FlagsMatch(log)
      modifies this`world, this`log, this`run,
               this`storageRecoveryCompleted, this`preCaptureVerified, this`attestorPauseAttempted
      ensures Valid() && NoResume(log) && StorageProven(log)
      ensures !o.Ok? ==> FlagsMatch(log)
      ensures log.Then? && log.last.outcome == o
      ensures if o.Ok? then log == Gated(old(log)) else FellShort(log, old(log), Gated(old(log)))
      ensures o.Ok? ==> storageRecoveryCompleted && preCaptureVerified && attestorPauseAttempted
      ensures o.Ok? ==> (objectStopped <==> StorageStopped(log))
    {
      GatedStages(log);
      o := RecoverStorage();
      if !o.Ok? { return; }
      ghost var recovered := log;
      o := VerifyCapacity();
      if !o.Ok? {
        ShortOfMore(log, recovered, Refreshed(recovered), old(log), Gated(old(log)));
        return;
      }
      o := Send(Pause(Attestor));
    }

    // ----- the capture

    /** A command sent while nothing can write. */
    method QuietIssue(c: Command) returns (o: Outcome, seen: Sight)
      requires Valid() && Silent(world) && Inert(c)
      modifies this`world, this`log, this`run
      ensures Valid() && Silent(world)
      ensures log == Then(old(log), Event(c, o))
      ensures world.db == old(world.db)
      ensures !c.StopStorage? ==> world.objects == old(world.objects)
      ensures o.Ok? ==> Sees(world, c, seen, digest)
    {
      o, seen := Issue(c);
      QuietStep(old(world), Event(c, o), world);
    }

    method QuietSend(c: Command) returns (o: Outcome)
      requires Valid() && Silent(world) && Inert(c)
      modifies this`world, this`log, this`run
      ensures Valid() && Silent(world)
      ensures log == Then(old(log), Event(c, o))
      ensures world.db == old(world.db)
      ensures !c.StopStorage? ==> world.objects == old(world.objects)
    {
      var sent, _ := QuietIssue(c);
      o := sent;
    }

    /** Inventory the objects and count the rows while nothing can write. */
    method CaptureSnapshot() returns (o: Outcome)
      requires Valid() && Silent(world) && StorageProven(log) && !StorageStopped(log)
      modifies this`world, this`log, this`run, this`inventory, this`counts
      ensures Valid() && Silent(world) && StorageProven(log) && !StorageStopped(log) && InertSince(log, old(log))
      ensures world.db == old(world.db) && world.objects == old(world.objects)
      ensures log.Then? && log.last.outcome == o
      ensures !o.Ok? ==> FellShort(log, old(log), Done(Done(old(log), InventoryObjects), CountRows))
      ensures o.Ok? ==>
                && log == Done(Done(old(log), InventoryObjects), CountRows)
                && inventory == Some(InventoryOf(world.objects, digest))
                && counts == Some(RowCountsOf(world.db))
    {
      var seen;
      o, seen := QuietIssue(InventoryObjects);
      if !o.Ok? { return; }
      inventory := Some(seen.inventory);
      assert InertSince(log, old(log));
      o, seen := QuietIssue(CountRows);
      if !o.Ok? { return; }
      counts := Some(seen.counts);
    }

    /** Then dump the database. */
    method CaptureDatabase() returns (o: Outcome)
      requires Valid() && Silent(world) && StorageProven(log) && !StorageStopped(log)
      modifies this`world, this`log, this`run, this`inventory, this`counts, this`dump
      ensures Valid() && Silent(world) && StorageProven(log) && !StorageStopped(log) && InertSince(log, old(log))
      ensures world.db == old(world.db) && world.objects == old(world.objects)
      ensures log.Then? && log.last.outcome == o
      ensures !o.Ok? ==> FellShort(log, old(log), DatabaseCaptured(old(log)))
      ensures o.Ok? ==>
                && log == DatabaseCaptured(old(log))
                && inventory == Some(InventoryOf(world.objects, digest))
                && counts == Some(RowCountsOf(world.db))
                && dump == world.db
    {
      o := CaptureSnapshot();
      SinceThree(old(log), InventoryObjects, CountRows, DumpDatabase);
      if !o.Ok? {
        ShortOfMore(log, old(log), Done(Done(old(log), InventoryObjects), CountRows),
                    old(log), DatabaseCaptured(old(log)));
        return;
      }
      var seen;
      o, seen := QuietIssue(DumpDatabase);
      if !o.Ok? { return; }
      dump := seen.dump;
    }

    /** Stop the object store and archive its volume. */
    method ArchiveStoppedVolume() returns (o: Outcome)
      requires Valid() && Silent(world)
      modifies this`world, this`log, this`run, this`objectStopped, this`archive
      ensures Valid() && Silent(world) && objectStopped && StorageStopped(log) && InertSince(log, old(log))
      ensures log.Then? && log.last.outcome == o
      ensures !o.Ok? ==> FellShort(log, old(log), VolumeCaptured(old(log)))
      ensures o.Ok? ==> log == VolumeCaptured(old(log)) && archive == world.objects
    {
      objectStopped := true;
      o := QuietSend(StopStorage);
      if !o.Ok? { return; }
      var seen;
      o, seen := QuietIssue(ArchiveVolume);
      if !o.Ok? { return; }
      archive := seen.archive;
    }

    /** Start the object store again, wait until it answers and take a second inventory. */
    method RestartStorage() returns (o: Outcome, restarted: Inventory)
      requires Valid() && Silent(world) && objectStopped && StorageStopped(log)
      modifies this`world, this`log, this`run, this`objectStopped
      ensures Valid() && InertSince(log, old(log))
      ensures log.Then? && log.last.outcome == o && (objectStopped <==> StorageStopped(log))
      ensures !objectStopped ==> StorageProven(log)
      ensures !o.Ok? ==> FellShort(log, old(log), Restarted(old(log)))
      ensures o.Ok? ==>
                && log == Restarted(old(log))
                && !objectStopped && restarted == InventoryOf(old(world.objects), digest)
      ensures world.objects == old(world.objects)
    {
      restarted := map[];
      SinceThree(log, StartStorage, ProbeStorage, InventoryObjects);
      o := QuietSend(StartStorage);
      if !o.Ok? { return; }
      assert InertSince(log, old(log)) && StorageStopped(log);
      o := QuietSend(ProbeStorage);
      assert InertSince(log, old(log)) && StorageStopped(log);
      if !o.Ok? { return; }
      var seen;
      o, seen := QuietIssue(InventoryObjects);
      if !o.Ok? { return; }
      restarted := seen.inventory;
      objectStopped := false;
    }

    /** Everything that is captured. */
    method CaptureStores() returns (o: Outcome)
      requires Valid() && Silent(world) && !objectStopped && !StorageStopped(log) && StorageProven(log)
      modifies this`world, this`log, this`run, this`objectStopped,
               this`inventory, this`counts, this`dump, this`archive
      ensures Valid() && Silent(world) && InertSince(log, old(log))
      ensures !objectStopped ==> StorageProven(log)
      ensures objectStopped <==> StorageStopped(log)
      ensures log.Then? && log.last.outcome == o
      ensures !o.Ok? ==> FellShort(log, old(log), VolumeCaptured(DatabaseCaptured(old(log))))
      ensures o.Ok? ==>
                && log == VolumeCaptured(DatabaseCaptured(old(log))) && objectStopped
                && inventory == Some(InventoryOf(old(world.objects), digest))
                && counts == Some(RowCountsOf(old(world.db)))
                && dump == old(world.db) && archive == world.objects
    {
      o := CaptureDatabase();
      ghost var dumped := log;
      SinceThree(DatabaseCaptured(old(log)), StopStorage, ArchiveVolume, StartStorage);
      if !o.Ok? {
        ShortOfMore(log, old(log), DatabaseCaptured(old(log)), old(log), VolumeCaptured(DatabaseCaptured(old(log))));
        return;
      }
      o := ArchiveStoppedVolume();
      InertTransitive(log, dumped, old(log));
      if !o.Ok? {
        InertStaysSure(dumped, old(log));
        ShortOfMore(log, dumped, VolumeCaptured(dumped), old(log), VolumeCaptured(dumped));
      }
    }

    /** And the check that the restarted object store still holds what was inventoried before it was
        stopped. */
    method Capture() returns (o: Outcome, failure: Failure)
      requires Valid() && Silent(world) && !objectStopped && !StorageStopped(log) && StorageProven(log)
      modifies this`world, this`log, this`run, this`objectStopped,
               this`inventory, this`counts, this`dump, this`archive
      ensures Valid() && InertSince(log, old(log))
      ensures !objectStopped ==> StorageProven(log)
      ensures objectStopped <==> StorageStopped(log)
      ensures !o.Ok? ==>
                match failure
                case CommandFailed(event) => FellShort(log, old(log), Captured(old(log))) && event == log.last
                case InventoryChanged =>
                  && log == Captured(old(log))
                  && InventoryOf(world.objects, digest) != InventoryOf(old(world.objects), digest)
                case _ => false
      ensures o.Ok? ==> log == Captured(old(log)) && !objectStopped && CapturedAt(old(world))
    {
      CaptureStages(log);
      o := CaptureStores();
      failure := CommandFailed(log.last);
      ghost var archived := log;
      if !o.Ok? {
        ShortOfMore(log, old(log), VolumeCaptured(DatabaseCaptured(old(log))), old(log), Captured(old(log)));
        return;
      }
      var restarted;
      o, restarted := RestartStorage();
      InertTransitive(log, archived, old(log));
      failure := CommandFailed(log.last);
      if !o.Ok? {
        ShortOfMore(log, archived, Restarted(archived), old(log), Captured(old(log)));
        return;
      }
      if restarted != inventory.value {
        return Failed, InventoryChanged;
      }
    }

    /** The gate has been passed and nothing can write. */
    method BeginCapture()
      requires Valid() && log == Gate()
      requires pauseAttempted == SERVICES && stopAttempted == WORKERS && workerIds.Keys == SetOf(WORKERS)
      requires storageRecoveryCompleted && preCaptureVerified && attestorPauseAttempted
      requires objectStopped <==> StorageStopped(log)
      modifies this`captureStarted, this`cut
      ensures Valid() && captureStarted && PastGate() && FlagsMatch(log)
      ensures Silent(world) && cut.world == world
    {
      StillPastGate(log);
      ConductedMeans(run, log);
      GateSilences(run);
      captureStarted, cut := true, run;
    }

    /** Up to the moment the capture may start; the whole gate has then been passed. */
    method PassWholeGate() returns (o: Outcome, failure: Failure)
      requires Valid() && Fresh()
      modifies this
      ensures Valid() && NoResume(log) && !objectStopped && StorageProven(log) && FlagsMatch(log)
      ensures (captureStarted <==> o.Ok?) && !gateFailed
      ensures !o.Ok? ==> Explains(failure, log) && !failure.InventoryChanged?
      ensures o.Ok? ==>
                && log == Gate() && PastGate() && workerIds == reported
                && Silent(world) && cut.world == world
    {
      o, failure := Quiesce();
      QuiescingOnly(log);
      if !o.Ok? { return; }
      o := PassGate();
      failure := CommandFailed(log.last);
      if o.Ok? { BeginCapture(); } else { ShortOfCapture(log); }
    }

    /** The capture, once the gate has been passed. */
    method CapturePastGate() returns (o: Outcome, failure: Failure)
      requires Valid() && Silent(world) && StorageProven(log) && !StorageStopped(log)
      requires log == Gate() && !objectStopped
      modifies this`world, this`log, this`run, this`objectStopped,
               this`inventory, this`counts, this`dump, this`archive
      ensures Valid() && InertSince(log, Gate()) && (objectStopped <==> StorageStopped(log))
      ensures !objectStopped ==> StorageProven(log)
      ensures !o.Ok? ==> Explains(failure, log)
      ensures !o.Ok? && failure.InventoryChanged? ==>
                InventoryOf(world.objects, digest) != InventoryOf(old(world.objects), digest)
      ensures o.Ok? ==> log == Captured(Gate()) && CapturedAt(old(world))
    {
      o, failure := Capture();
      if !o.Ok? && failure.CommandFailed? { ShortOfCapture(log); }
    }

    /** The protected part of the call.  `captureStarted` records that the whole gate was passed. */
    method Attempt() returns (o: Outcome, failure: Failure)
      requires Valid() && Fresh()
      modifies this
      ensures Valid() && NoResume(log) && FlagsMatch(log) && !gateFailed
      ensures !objectStopped ==> StorageProven(log)
      ensures captureStarted ==> PastGate() && workerIds == reported && Sure(log) && InertSince(log, Gate())
      ensures !o.Ok? ==> Explains(failure, log)
      ensures !o.Ok? && failure.InventoryChanged? ==>
                && captureStarted
                && InventoryOf(world.objects, digest) != InventoryOf(cut.world.objects, digest)
      ensures o.Ok? ==> captureStarted && log == Captured(Gate()) && CapturedAt(cut.world)
    {
      o, failure := PassWholeGate();
      if o.Ok? {
        o, failure := CapturePastGate();
        CaptureIsInert(log);
        assert FlagsMatch(log);
      }
    }

    // ----- recovery

    /** Recovery held the writers back: what it sent, and the errors it found and gives as reason. */
    ghost predicate Held(before: Log, errors: seq<RecoveryError>)
      reads this
    {
      NoResume(log) && Reattesting(log, before) && errors == HeldErrors(log, before)
    }

    /** Recovery tried to resume, stopped short at `short` and put back what it had attempted. */
    ghost predicate PutBack(before: Log, errors: seq<RecoveryError>, short: Log, started: nat, resumed: nat)
      reads this
    {
      && RolledBack(log, short, Reattested(before), started, resumed)
      && errors == RolledBackErrors(log, short)
    }

    /** What recovery finds when the protected part has ended. */
    ghost predicate Recoverable()
      reads this
    {
      && Valid() && NoResume(log) && FlagsMatch(log)
      && (!objectStopped ==> StorageProven(log))
      && (captureStarted ==> PastGate() && InertSince(log, Gate()) && Sure(log))
      && gateFailed == !captureStarted
    }

    /** Bring the object store back if it may be down.  It is probed even after a failed start, which
        remains an error when the bucket answers. */
    method RestoreStorage() returns (o: Outcome, available: bool, errors: seq<RecoveryError>)
      requires Recoverable()
      modifies this`world, this`log, this`run
      ensures Valid() && NoResume(log) && Since(log, old(log))
      ensures o.Ok? || o.Interrupted?
      ensures o.Interrupted? ==> BrokeAfter(log, old(log))
      ensures o.Ok? ==>
                && StorageRetried(log, old(log)) && (available <==> StorageAnswers(log, old(log)))
                && (errors == [] <==> CleanSince(log, old(log)))
                && errors == ErrorsSince(log, old(log)) && (available <==> StorageNotReady !in errors)
                && CapacityRefreshFailed !in errors
      ensures o.Ok? ==> if available then StorageProven(log) else errors != []
      ensures o.Ok? && errors == [] ==>
                log == if objectStopped then Done(Done(old(log), StartStorage), ProbeStorage) else old(log)
    {
      o, available, errors := Ok, !objectStopped, [];
      if objectStopped {
        var started := Send(StartStorage);
        if started.Interrupted? { o := Interrupted; return; }
        if started.Failed? { errors := [StorageRestartFailed]; }
        ghost var tried := log;
        assert Since(tried, old(log)) && (errors == [] ==> CleanSince(tried, old(log)));
        assert Length(tried) == Length(old(log)) + 1 && errors == ErrorsSince(tried, old(log));
        assert errors != [] ==> !CleanSince(tried, old(log)) by {
          if errors != [] { FailedIsUnclean(tried, old(log)); }
        }
        var answered := Send(ProbeStorage);
        if answered.Interrupted? { o := Interrupted; return; }
        if errors != [] { UncleanStays(log, tried, old(log)); }
        if answered.Ok? {
          available := true;
        } else {
          errors := errors + [StorageNotReady];
          FailedIsUnclean(log, old(log));
        }
      }
    }

    /** The capacity refresh of the recovery, if storage allows one. */
    method RefreshAgain(storageAvailable: bool, ghost before: Log) returns (o: Outcome, errors: seq<RecoveryError>)
      requires Valid() && NoResume(log) && FlagsMatch(before) && Since(log, before)
      requires storageAvailable ==> StorageProven(log)
      requires storageAvailable == StorageAnswers(log, before)
      modifies this`world, this`log, this`run
      ensures Valid() && NoResume(log) && Since(log, old(log))
      ensures o.Interrupted? ==> BrokeAfter(log, old(log))
      ensures !o.Interrupted? ==> Refreshing(log, old(log), before)
      ensures o.Ok? <==> storageAvailable && storageRecoveryCompleted && log == RefreshAfter(old(log), before)
      ensures o.Failed? && storageAvailable && storageRecoveryCompleted ==> !CleanSince(log, old(log))
      ensures !o.Interrupted? ==>
                && errors == ErrorsSince(log, old(log))
                && errors == (if o.Failed? && storageAvailable && storageRecoveryCompleted
                              then [CapacityRefreshFailed] else [])
    {
      errors := [];
      if !storageAvailable || !storageRecoveryCompleted { return Failed, []; }
      ghost var ready := if attestorPauseAttempted then Done(log, Unpause(Attestor)) else log;
      SinceThree(ready, RefreshPrepare, RefreshSignal, RefreshWait);
      assert Since(ready, old(log));
      SinceTransitive(Refreshed(ready), ready, old(log));
      o := RefreshCapacity(attestorPauseAttempted);
      if !o.Ok? { FailedIsUnclean(log, old(log)); }
      if o.Failed? { errors := [CapacityRefreshFailed]; }
      RefreshErrors(log, old(log), before);
    }

    /** Storage first, then fresh capacity evidence. */
    method Renew() returns (o: Outcome, storageAvailable: bool, capacityAvailable: bool, errors: seq<RecoveryError>)
      requires Recoverable()
      modifies this`world, this`log, this`run
      ensures Valid() && NoResume(log)
      ensures o.Ok? || o.Interrupted?
      ensures o.Interrupted? ==> BrokeAfter(log, old(log))
      ensures o.Ok? ==>
                && Reattesting(log, old(log))
                && errors == ErrorsSince(log, old(log)) && (storageAvailable <==> StorageNotReady !in errors)
                && (storageAvailable && storageRecoveryCompleted ==>
                      (capacityAvailable <==> CapacityRefreshFailed !in errors))
      ensures o.Ok? && captureStarted ==>
                && (errors == [] <==> CleanSince(log, old(log)))
                && (errors == [] ==> storageAvailable && capacityAvailable && log == Reattested(old(log)))
    {
      capacityAvailable := false;
      o, storageAvailable, errors := RestoreStorage();
      if o.Interrupted? { return; }
      ghost var restored := log;
      var refreshed, troubles := RefreshAgain(storageAvailable, old(log));
      if refreshed.Interrupted? {
        SinceTransitive(log.prior, restored, old(log));
        o := Interrupted;
        return;
      }
      assert Reattesting(log, old(log));
      if captureStarted {
        InertIsSince(old(log), Gate());
        if errors != [] || troubles != [] {
          HeldIsUnclean(log, restored, old(log));
        } else {
          ReattestedIsClean(old(log));
        }
      }
      ErrorsJoin(log, restored, old(log));
      errors := errors + troubles;
      capacityAvailable := refreshed.Ok?;
    }

    /** Says whether writers may resume: after a capture, exactly when no command of the recovery so
        far failed. */
    method Reattest() returns (o: Outcome, mayResume: bool, errors: seq<RecoveryError>)
      requires Recoverable()
      modifies this`world, this`log, this`run
      ensures Valid() && NoResume(log)
      ensures o.Ok? || o.Interrupted?
      ensures o.Interrupted? ==> BrokeAfter(log, old(log))
      ensures o.Ok? ==>
                && Reattesting(log, old(log))
                && (mayResume <==> captureStarted && CleanSince(log, old(log)))
                && errors == if mayResume then [] else HeldErrors(log, old(log))
      ensures o.Ok? && mayResume ==> log == Reattested(old(log))
    {
      mayResume := false;
      var storageAvailable, capacityAvailable;
      o, storageAvailable, capacityAvailable, errors := Renew();
      if o.Interrupted? { return; }
      mayResume :=
        && storageAvailable
        && storageRecoveryCompleted
        && preCaptureVerified
        && capacityAvailable
        && !gateFailed
        && errors == [];
      if !mayResume {
        var reason :=
          if !storageRecoveryCompleted then RecoveryIncomplete
          else if gateFailed || !preCaptureVerified then GateNotPassed
          else if !storageAvailable then StorageUnavailable
          else if !capacityAvailable then CapacityStale
          else RecoveryTrouble;
        errors := errors + [WritersHeld(reason)];
      }
    }

    /** Start the very container that was stopped and wait until it is healthy. */
    method StartExactWorker(worker: Actor, expected: nat) returns (o: Outcome)
      requires Valid() && ResumeJustified(log)
      modifies this`world, this`log, this`run, this`reported
      ensures Valid() && ResumeJustified(log) && Since(log, old(log))
      ensures o.Ok? ==>
                && log == Done(Done(Done(old(log), Identify(worker)), StartWorker(worker)), AwaitHealth(worker))
                && reported == old(reported)[worker := expected]
      ensures o.Failed? ==> StartFailed(log, old(log), worker) && Since(log.prior, old(log))
      ensures o.Failed? && log.last.outcome.Ok? ==> worker in reported && reported[worker] != expected
      ensures o.Interrupted? ==> BrokeAfter(log, old(log))
    {
      var seen;
      o, seen := Issue(Identify(worker));
      if !o.Ok? { return; }
      reported := reported[worker := seen.id];
      assert ResumeJustified(log) && Since(log, old(log));
      if seen.id != expected { return Failed; }
      o := StartAndAwait(worker);
    }

    method StartAndAwait(worker: Actor) returns (o: Outcome)
      requires Valid() && ResumeJustified(log)
      modifies this`world, this`log, this`run
      ensures Valid() && ResumeJustified(log) && Since(log, old(log))
      ensures o.Ok? ==> log == Done(Done(old(log), StartWorker(worker)), AwaitHealth(worker))
      ensures !o.Ok? ==>
                || log == Then(old(log), Event(StartWorker(worker), o))
                || log == Then(Done(old(log), StartWorker(worker)), Event(AwaitHealth(worker), o))
    {
      o := Send(StartWorker(worker));
      assert ResumeJustified(log) && Since(log, old(log));
      if !o.Ok? { return; }
      o := Send(AwaitHealth(worker));
    }

    /** Start the workers in the order they were stopped.  An attempt is recorded before it is
        made; `started` counts the attempts. */
    method StartWorkers() returns (o: Outcome, started: seq<Actor>)
      requires Valid() && ResumeJustified(log) && PastGate()
      modifies this`world, this`log, this`run, this`reported
      ensures Valid() && ResumeJustified(log)
      ensures started <= WORKERS
      ensures o.Ok? ==> log == Started(old(log), 3) && started == WORKERS && !Replaced()
      ensures o.Failed? ==>
                && StoppedShort(log, old(log), |started|, 0)
                && Since(log.prior, old(log)) && (log.last.outcome.Ok? ==> Replaced())
      ensures o.Interrupted? ==> BrokeAfter(log, old(log))
    {
      started := [];
      for i := 0 to |stopAttempted|
        invariant Valid() && ResumeJustified(log) && Since(log, old(log))
        invariant started == WORKERS[..i] && log == Started(old(log), i)
        invariant forall w :: w in WORKERS[..i] ==> w in reported && reported[w] == workerIds[w]
      {
        var worker := stopAttempted[i];
        started := started + [worker];
        if worker !in workerIds {
          assert false;                        // the gate recorded every container
        }
        ghost var before := log;
        o := StartExactWorker(worker, workerIds[worker]);
        if !o.Ok? {
          SinceTransitive(log.prior, before, old(log));
          return;
        }
        SinceTransitive(log, before, old(log));
      }
      assert WORKERS[..3] == WORKERS;
      o := Ok;
    }

    /** Let the request and schedule writers run again, the scheduler first. */
    method UnpauseServices(ghost ready: Log) returns (o: Outcome, resumed: seq<Actor>)
      requires Valid() && ResumeJustified(log) && PastGate()
      requires log == Started(ready, 3) && Sure(ready)
      modifies this`world, this`log, this`run
      ensures Valid()
      ensures resumed <= RESUMED_SERVICES
      ensures o.Ok? ==> log == Unpaused(old(log), 2)
      ensures o.Failed? ==>
                && resumed != [] && log.Then? && Since(log.prior, old(log))
                && log == Then(Unpaused(old(log), |resumed| - 1),
                               Event(Unpause(RESUMED_SERVICES[|resumed| - 1]), Failed))
      ensures o.Interrupted? ==> BrokeAfter(log, old(log))
    {
      resumed := [];
      for i := 0 to |RESUMED_SERVICES|
        invariant Valid() && ResumeJustified(log) && Since(log, old(log))
        invariant resumed == RESUMED_SERVICES[..i] && log == Unpaused(old(log), i)
      {
        var service := RESUMED_SERVICES[i];
        if service !in pauseAttempted { continue; }
        resumed := resumed + [service];
        TurnComes(run, log, ready, i);
        o := Send(Unpause(service));
        if !o.Ok? { return; }
      }
      o := Ok;
    }

    /** Pause again every service whose unpause was attempted, last first, whatever fails. */
    method Repause(resumed: seq<Actor>) returns (o: Outcome, errors: seq<RecoveryError>)
      requires Valid() && resumed <= RESUMED_SERVICES
      modifies this`world, this`log, this`run
      ensures Valid()
      ensures o.Ok? || o.Interrupted?
      ensures o.Ok? ==> Repaused(log, old(log), 0, |resumed|) && errors == ErrorsSince(log, old(log))
      ensures o.Interrupted? ==> BrokeAfter(log, old(log))
    {
      errors := [];
      for i := |resumed| downto 0
        invariant Valid() && Repaused(log, old(log), i, |resumed|) && Since(log, old(log))
        invariant errors == ErrorsSince(log, old(log))
      {
        SinceGrows(log, old(log));
        o := Send(Pause(resumed[i]));
        if o.Interrupted? { return; }
        if o.Failed? { errors := errors + [RollbackFailed(resumed[i])]; }
      }
      o := Ok;
    }

    /** Stop again every worker whose start was attempted, last first, whatever fails. */
    method Restop(started: seq<Actor>) returns (o: Outcome, errors: seq<RecoveryError>)
      requires Valid() && started <= WORKERS
      modifies this`world, this`log, this`run
      ensures Valid()
      ensures o.Ok? || o.Interrupted?
      ensures o.Ok? ==> Restopped(log, old(log), 0, |started|) && errors == ErrorsSince(log, old(log))
      ensures o.Interrupted? ==> BrokeAfter(log, old(log))
    {
      errors := [];
      for i := |started| downto 0
        invariant Valid() && Restopped(log, old(log), i, |started|) && Since(log, old(log))
        invariant errors == ErrorsSince(log, old(log))
      {
        SinceGrows(log, old(log));
        o := Send(StopWorker(started[i]));
        if o.Interrupted? { return; }
        if o.Failed? { errors := errors + [RollbackFailed(started[i])]; }
      }
      o := Ok;
    }

    /** Put back exactly what was attempted, the services first. */
    method RollBack(started: seq<Actor>, resumed: seq<Actor>, ghost before: Log)
        returns (o: Outcome, errors: seq<RecoveryError>)
      requires Valid() && started <= WORKERS && resumed <= RESUMED_SERVICES && NoResume(before)
      requires StoppedShort(log, before, |started|, |resumed|)
      modifies this`world, this`log, this`run
      ensures Valid()
      ensures o.Ok? || o.Interrupted?
      ensures o.Ok? ==>
                && RolledBack(log, old(log), before, |started|, |resumed|) && Since(log, old(log))
                && errors == ErrorsSince(log, old(log))
      ensures o.Interrupted? ==> BrokeAfter(log, old(log))
    {
      o, errors := Repause(resumed);
      if o.Interrupted? { return; }
      ghost var repaused := log;
      var troubles;
      o, troubles := Restop(started);
      errors := errors + troubles;
      RepausedSince(repaused, old(log), 0, |resumed|);
      if o.Interrupted? { SinceTransitive(log.prior, repaused, old(log)); return; }
      RestoppedSince(log, repaused, 0, |started|);
      SinceTransitive(log, repaused, old(log));
      ErrorsJoin(log, repaused, old(log));
      assert Repaused(repaused, old(log), 0, |resumed|);
    }

    /** The attempt to resume every writer. */
    method TryResume() returns (o: Outcome, started: seq<Actor>, resumed: seq<Actor>)
      requires Valid() && ResumeJustified(log) && PastGate() && Sure(log)
      modifies this`world, this`log, this`run, this`reported
      ensures Valid() && started <= WORKERS && resumed <= RESUMED_SERVICES
      ensures o.Ok? ==> log == Resumed(old(log)) && !Replaced()
      ensures o.Failed? ==>
                && StoppedShort(log, old(log), |started|, |resumed|)
                && Since(log.prior, old(log)) && (log.last.outcome.Ok? ==> Replaced())
      ensures o.Interrupted? ==> BrokeAfter(log, old(log))
    {
      resumed := [];
      o, started := StartWorkers();
      if !o.Ok? { return; }
      ghost var up := log;
      assert Since(old(log), old(log)) && CleanSince(old(log), old(log));
      StartedIsClean(old(log), 3, old(log));
      o, resumed := UnpauseServices(old(log));
      if !o.Ok? { SinceTransitive(log.prior, up, old(log)); }
    }

    /** Resume every writer, or put back exactly what was attempted. */
    method ResumeWriters()
        returns (o: Outcome, errors: seq<RecoveryError>, ghost short: Log, started: seq<Actor>, resumed: seq<Actor>)
      requires Valid() && ResumeJustified(log) && PastGate() && NoResume(log) && Sure(log)
      modifies this`world, this`log, this`run, this`reported
      ensures Valid()
      ensures o.Ok? ==> errors == [] && log == Resumed(old(log)) && !Replaced()
      ensures o.Failed? ==>
                && errors == [WriterRestartFailed] + ErrorsSince(log, short) && Since(log, old(log))
                && RolledBack(log, short, old(log), |started|, |resumed|)
                && (!CleanSince(log, old(log)) || Replaced())
      ensures o.Interrupted? ==> BrokeAfter(log, old(log))
    {
      errors := [];
      o, started, resumed := TryResume();
      short := log;
      if !o.Failed? { return; }
      errors := [WriterRestartFailed];
      var undone, troubles := RollBack(started, resumed, old(log));
      errors := errors + troubles;
      assert Since(short, old(log));
      if undone.Interrupted? {
        SinceTransitive(log.prior, short, old(log));
        o := Interrupted;
        return;
      }
      SinceTransitive(log, short, old(log));
      if !short.last.outcome.Ok? {
        FailedIsUnclean(short, old(log));
        UncleanStays(log, short, old(log));
      }
    }

    /** The attempt to resume after a clean reattestation. */
    method ResumeReattested(ghost before: Log)
        returns (o: Outcome, errors: seq<RecoveryError>, ghost short: Log, ghost started: nat, ghost resumed: nat)
      requires Valid() && PastGate() && NoResume(log)
      requires log == Reattested(before) && (StorageStopped(before) || StorageProven(before))
      requires InertSince(before, Gate()) && Sure(before)
      modifies this`world, this`log, this`run, this`reported
      ensures Valid()
      ensures !o.Interrupted? ==> (o.Ok? <==> CleanSince(log, before) && !Replaced())
      ensures o.Ok? ==> errors == [] && log == Resumed(old(log))
      ensures o.Failed? ==>
                RolledBack(log, short, old(log), started, resumed) && errors == RolledBackErrors(log, short)
      ensures o.Interrupted? ==> BrokeAfter(log, before)
    {
      ghost var ready := log;
      InertIsSince(before, Gate());
      ReattestedIsClean(before);
      ReattestedJustifies(before);
      ReattestStaysSure(before);
      var tried, retried;
      o, errors, short, tried, retried := ResumeWriters();
      started, resumed := |tried|, |retried|;
      if o.Failed? {
        errors := errors + [WritersReturned];
        if !Replaced() { UncleanAfterClean(log, ready, before); }
      } else if o.Ok? {
        ResumedIsClean(ready, before);
      } else {
        SinceTransitive(log.prior, ready, before);
      }
    }

    /** What happens whatever the protected part did: storage, capacity, then the writers.  It
        resumes them exactly when the capture had begun, none of its own commands failed and every
        worker was found in the container that was stopped. */
    method Recover()
        returns (o: Outcome, errors: seq<RecoveryError>, ghost short: Log, ghost started: nat, ghost resumed: nat)
      requires Recoverable()
      modifies this`world, this`log, this`run, this`reported
      ensures Valid()
      ensures !o.Interrupted? ==> (o.Ok? <==> captureStarted && CleanSince(log, old(log)) && !Replaced())
      ensures o.Ok? ==> errors == [] && log == Resumed(Reattested(old(log)))
      ensures o.Failed? ==> Held(old(log), errors) || PutBack(old(log), errors, short, started, resumed)
      ensures o.Interrupted? ==> BrokeAfter(log, old(log))
    {
      short, started, resumed := log, 0, 0;
      var mayResume;
      o, mayResume, errors := Reattest();
      if o.Interrupted? { return; }
      if !mayResume { o := Failed; return; }
      o, errors, short, started, resumed := ResumeReattested(old(log));
    }

    // ----- the whole call

    /** Writing the manifest stops nobody. */
    method SendManifest() returns (o: Outcome)
      requires Valid() && WRITERS <= world.live && world.unsettled == {}
      modifies this`world, this`log, this`run
      ensures Valid() && WRITERS <= world.live && world.unsettled == {}
      ensures log == Then(old(log), Event(WriteManifest, o))
    {
      o := Send(WriteManifest);
      StillRunning(old(world), Event(WriteManifest, o), world);
    }

    /** The manifest is written only after every writer is back. */
    method Publish() returns (exit: Exit)
      requires Valid() && WRITERS <= world.live && world.unsettled == {}
      requires captureStarted && CapturedAt(cut.world)
      modifies this`world, this`log, this`run
      ensures Valid() && WRITERS <= world.live && world.unsettled == {}
      ensures exit.Returned? || exit.ManifestRaised?
      ensures exit.Returned? ==>
                log == Done(old(log), WriteManifest) && ConsistentCut(exit.backup, cut.world, digest)
      ensures exit.ManifestRaised? ==>
                log == Then(old(log), Event(WriteManifest, Failed)) ||
                log == Then(old(log), Event(WriteManifest, Interrupted))
    {
      var written := SendManifest();
      exit := if !written.Ok? then ManifestRaised
              else Returned(Backup(inventory.value, counts.value, dump, archive));
    }

    /** What is remembered of how the protected part ended. */
    method RecordEnd(attempted: Outcome)
      requires Valid() && NoResume(log) && FlagsMatch(log) && !gateFailed
      requires !objectStopped ==> StorageProven(log)
      requires captureStarted ==> PastGate() && InertSince(log, Gate()) && Sure(log)
      requires attempted.Ok? ==> captureStarted
      modifies this`gateFailed, this`ended
      ensures Recoverable() && LogOf(ended) == log && ended.world == world
    {
      LogConducted(run, log);
      gateFailed := !attempted.Ok? && !captureStarted;
      ended := run;
    }

    /** The protected part, and what is remembered of its failure. */
    method Protect() returns (attempted: Outcome, failure: Failure)
      requires Valid() && Fresh()
      modifies this
      ensures Recoverable() && LogOf(ended) == log
      ensures !attempted.Ok? ==> Explains(failure, log)
      ensures attempted.Ok? ==> captureStarted && log == Captured(Gate()) && CapturedAt(cut.world)
      ensures !attempted.Ok? && failure.InventoryChanged? ==>
                InventoryOf(ended.world.objects, digest) != InventoryOf(cut.world.objects, digest)
    {
      attempted, failure := Attempt();
      RecordEnd(attempted);
    }

    /** Every writer is back: raise the original error, or publish. */
    method Finish(attempted: Outcome, failure: Failure, ghost before: Log) returns (exit: Exit)
      requires Valid() && captureStarted && Sure(before) && log == Resumed(Reattested(before))
      requires attempted.Ok? ==> CapturedAt(cut.world)
      modifies this`world, this`log, this`run
      ensures Valid() && WRITERS <= world.live && world.unsettled == {}
      ensures exit.Returned? || exit.Raised? || exit.ManifestRaised?
      ensures exit.ManifestRaised? <==> !CleanSince(log, before)
      ensures exit.Raised? <==> !attempted.Ok?
      ensures exit.Raised? ==> exit.failure == failure && log == old(log)
      ensures exit.Returned? ==>
                log == Done(old(log), WriteManifest) && ConsistentCut(exit.backup, cut.world, digest)
      ensures exit.ManifestRaised? ==>
                && log.Then? && log.last.command == WriteManifest && !log.last.outcome.Ok?
                && log.prior == old(log)
    {
      ConductedMeans(run, log);
      WritersRestored(run, before);
      ReattestedIsClean(before);
      ResumedIsClean(Reattested(before), before);
      if !attempted.Ok? { return Raised(failure); }
      exit := Publish();
      if exit.ManifestRaised? { FailedIsUnclean(log, before); }
    }

    /** Recovery, then what the caller gets to see. */
    method Conclude(attempted: Outcome, failure: Failure)
        returns (exit: Exit, ghost short: Log, ghost started: nat, ghost resumed: nat)
      requires Recoverable()
      requires attempted.Ok? ==> captureStarted && CapturedAt(cut.world)
      modifies this`world, this`log, this`run, this`reported
      ensures Valid()
      ensures exit.Returned? || exit.Raised? <==> captureStarted && CleanSince(log, old(log)) && !Replaced()
      ensures exit.Returned? ==>
                && attempted.Ok?
                && log == Done(Resumed(Reattested(old(log))), WriteManifest)
                && ConsistentCut(exit.backup, cut.world, digest)
      ensures exit.Raised? ==>
                !attempted.Ok? && exit.failure == failure && log == Resumed(Reattested(old(log)))
      ensures exit.Returned? || exit.Raised? || exit.ManifestRaised? ==>
                WRITERS <= world.live && world.unsettled == {}
      ensures exit.RecoveryRaised? ==>
                && exit.original == (if attempted.Ok? then None else Some(failure))
                && (Held(old(log), exit.errors) || PutBack(old(log), exit.errors, short, started, resumed))
      ensures exit.ManifestRaised? ==>
                && attempted.Ok?
                && log.Then? && log.last.command == WriteManifest && !log.last.outcome.Ok?
                && log.prior == Resumed(Reattested(old(log)))
      ensures exit.Aborted? ==> BrokeAfter(log, old(log))
    {
      ghost var before := log;
      var recovered, errors;
      recovered, errors, short, started, resumed := Recover();
      if recovered.Interrupted? {
        FailedIsUnclean(log, before);
        exit := Aborted;
        return;
      }
      if recovered.Failed? {
        exit := RecoveryRaised(errors, if attempted.Ok? then None else Some(failure));
        return;
      }
      exit := Finish(attempted, failure, before);
    }

    /** What a failed recovery leaves of the writers. */
    lemma FailedRecoveryLeavesDown(before: Log, errors: seq<RecoveryError>, short: Log, started: nat, resumed: nat)
      requires Valid() && captureStarted && LogOf(cut) == Gate() && InertSince(before, Gate())
      ensures Held(before, errors) ==> WritersDown(world)
      ensures PutBack(before, errors, short, started, resumed) && CleanSince(log, short) ==>
                WRITERS * (world.live + world.unsettled) <= Starts(short.last.command)
    {
      ConductedMeans(run, log);
      if Held(before, errors) { HeldLeavesDown(run, cut, before); }
      if PutBack(before, errors, short, started, resumed) && CleanSince(log, short) {
        RollbackLeavesDown(run, before, short, started, resumed);
      }
    }

    /** The whole call.  `before` is the log when its protected part ended. */
    method CreateBackup() returns (exit: Exit, ghost before: Log, ghost short: Log, ghost started: nat, ghost resumed: nat)
      requires Valid() && Fresh()
      modifies this
      ensures Valid() && before == LogOf(ended) && NoResume(before) && WriterSafe(log) && InTurn(run)
      ensures captureStarted <==> Happened(before, Event(Pause(Attestor), Ok))
      // Exactly when a call returns, or raises the original error: the capture had begun, no later
      // command of recovery or manifest failed, and no worker's container had been replaced.
      ensures exit.Returned? || exit.Raised? <==>
                captureStarted && CleanSince(log, before) && !Replaced()
      // A normal return: every command of a clean call, in order, and captures that agree.
      ensures exit.Returned? ==>
                && before == Captured(Gate())
                && log == Done(Resumed(Reattested(before)), WriteManifest)
                && captureStarted && ConsistentCut(exit.backup, cut.world, digest)
      // A failed capture with a clean recovery: the original error, after all writers were resumed.
      ensures exit.Raised? ==>
                Explains(exit.failure, before) && log == Resumed(Reattested(before))
      ensures exit.Returned? || exit.Raised? || exit.ManifestRaised? ==>
                WRITERS <= world.live && world.unsettled == {}
      // A failed recovery: no writer was resumed, or exactly what was attempted was put back.
      ensures exit.RecoveryRaised? ==>
                && (exit.original.Some? ==> Explains(exit.original.value, before))
                && (exit.original.None? ==> before == Captured(Gate()))
                && (Held(before, exit.errors) || PutBack(before, exit.errors, short, started, resumed))
      // The api first, then the scheduler, then the workers from the reaper on.
      ensures exit.RecoveryRaised? && PutBack(before, exit.errors, short, started, resumed) ==>
                PutBackInOrder(log, short)
      // After a capture, writers that were held back are down for certain, and after a rollback
      // without failures at most the one whose resume failed is in doubt.
      ensures exit.RecoveryRaised? && captureStarted && Held(before, exit.errors) ==> WritersDown(world)
      ensures exit.RecoveryRaised? && captureStarted && CleanSince(log, short)
              && PutBack(before, exit.errors, short, started, resumed) ==>
                WRITERS * (world.live + world.unsettled) <= Starts(short.last.command)
      // A changed inventory is reported only when the objects did change.
      ensures (exit.Raised? && exit.failure.InventoryChanged?) ||
              (exit.RecoveryRaised? && exit.original == Some(InventoryChanged)) ==>
                InventoryOf(ended.world.objects, digest) != InventoryOf(cut.world.objects, digest)
      ensures exit.ManifestRaised? ==>
                && before == Captured(Gate())
                && log.Then? && log.last.command == WriteManifest && !log.last.outcome.Ok?
                && log.prior == Resumed(Reattested(before))
      ensures exit.Aborted? ==> BrokeAfter(log, before)
    {
      var attempted, failure := Protect();
      before := log;
      exit, short, started, resumed := Conclude(attempted, failure);
      ConductedMeans(run, log);
      if exit.RecoveryRaised? && PutBack(before, exit.errors, short, started, resumed) {
        RolledBackInOrder(log, short, Reattested(before), started, resumed);
      }
      if exit.RecoveryRaised? && captureStarted {
        FailedRecoveryLeavesDown(before, exit.errors, short, started, resumed);
      }
    }
  }
}
