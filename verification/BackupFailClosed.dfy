/** What a failed recovery leaves of the writers: nobody up, or at most the one whose resume failed. */
module BackupFailClosed {

  import opened BackupLogs
  import opened BackupWorld

  /** No writer runs, and none may yet start. */
  predicate WritersDown(w: World) {
    WRITERS !! w.live + w.unsettled
  }

  // ----- commands that touch no writer

  predicate Spares(c: Command) {
    WRITERS !! Starts(c) + Stops(c)
  }

  predicate SparesSince(log: Log, earlier: Log) {
    log == earlier || (log.Then? && Spares(log.last.command) && SparesSince(log.prior, earlier))
  }

  lemma {:induction false} InertSpares(log: Log, earlier: Log)
    requires InertSince(log, earlier)
    ensures SparesSince(log, earlier)
  {
    if log != earlier {
      InertSpares(log.prior, earlier);
    }
  }

  lemma {:induction false} SparesTransitive(log: Log, middle: Log, earlier: Log)
    requires SparesSince(log, middle) && SparesSince(middle, earlier)
    ensures SparesSince(log, earlier)
  {
    if log != middle {
      SparesTransitive(log.prior, middle, earlier);
    }
  }

  /** A part of such a sequence is one too. */
  lemma {:induction false} PartSpares(part: Log, whole: Log, earlier: Log)
    requires SparesSince(whole, earlier) && Since(whole, part) && Since(part, earlier)
    ensures SparesSince(part, earlier)
  {
    if whole != part {
      SinceGrows(whole.prior, part);
      SinceGrows(part, earlier);
      PartSpares(part, whole.prior, earlier);
    }
  }

  lemma RefreshSpares(restored: Log, before: Log)
    ensures SparesSince(RefreshAfter(restored, before), restored)
  {
    var ready := if Happened(before, Event(RefreshWait, Ok)) then Done(restored, Unpause(Attestor)) else restored;
    assert SparesSince(ready, restored);
    assert SparesSince(Done(ready, RefreshPrepare), restored);
    assert SparesSince(Done(Done(ready, RefreshPrepare), RefreshSignal), restored);
  }

  lemma ReattestingSpares(log: Log, before: Log)
    requires Reattesting(log, before)
    ensures SparesSince(log, before)
  {
    var restored :| StorageRetried(restored, before) && Refreshing(log, restored, before);
    if restored != before {
      assert SparesSince(restored.prior, before);
    }
    RefreshSpares(restored, before);
    if log != restored && log != RefreshAfter(restored, before) {
      var next := Done(log.prior, log.last.command);
      assert Since(next, restored);
      PartSpares(next, RefreshAfter(restored, before), restored);
      SinceGrows(log.prior, restored);
      assert SparesSince(log, restored);
    }
    SparesTransitive(log, restored, before);
  }

  /** While no command touches a writer, writers that are down stay down. */
  lemma {:induction false} StayDown(run: Run, cut: Run)
    requires IsRun(run) && Continues(run, cut) && SparesSince(LogOf(run), LogOf(cut))
    requires WritersDown(cut.world)
    ensures WritersDown(run.world)
  {
    if run != cut {
      LogGrows(run.prior, cut);
      StayDown(run.prior, cut);
      forall a | a in WRITERS
        ensures a !in run.world.live && a !in run.world.unsettled
      {
        assert a !in Starts(run.event.command) + Stops(run.event.command);
      }
    }
  }

  lemma {:induction false} EarlierIsRun(run: Run, earlier: Run)
    requires IsRun(run) && Continues(run, earlier)
    ensures IsRun(earlier)
  {
    if run != earlier {
      EarlierIsRun(run.prior, earlier);
    }
  }

  /** A recovery that holds the writers back leaves them all down. */
  lemma HeldLeavesDown(run: Run, cut: Run, before: Log)
    requires IsRun(run) && Continues(run, cut) && LogOf(cut) == Gate()
    requires InertSince(before, Gate()) && Reattesting(LogOf(run), before)
    ensures WritersDown(run.world)
  {
    EarlierIsRun(run, cut);
    GateSilences(cut);
    InertSpares(before, Gate());
    ReattestingSpares(LogOf(run), before);
    SparesTransitive(LogOf(run), before, Gate());
    StayDown(run, cut);
  }

  // ----- after a rollback

  /** Every command on this actor succeeded. */
  predicate SureOf(log: Log, a: Actor) {
    log.Then? ==>
      && (log.last.outcome.Ok? || a !in Starts(log.last.command) + Stops(log.last.command))
      && SureOf(log.prior, a)
  }

  /** Nothing about the actor is in doubt, and it was stopped last. */
  predicate KnownDown(log: Log, a: Actor) {
    SureOf(log, a) && LeftStopped(log, a)
  }

  lemma {:induction false} SureWorldOf(run: Run, a: Actor)
    requires IsRun(run) && SureOf(LogOf(run), a)
    ensures a !in run.world.unsettled
    ensures LeftStopped(LogOf(run), a) ==> a !in run.world.live
  {
    if run.Next? {
      SureWorldOf(run.prior, a);
    }
  }

  lemma {:induction false} SparedStaysDown(log: Log, earlier: Log, a: Actor)
    requires SparesSince(log, earlier) && KnownDown(earlier, a) && a in WRITERS
    ensures KnownDown(log, a)
  {
    if log != earlier {
      SparedStaysDown(log.prior, earlier, a);
      assert a !in Starts(log.last.command) + Stops(log.last.command);
    }
  }

  lemma {:induction false} SureHolds(log: Log, a: Actor)
    requires Sure(log)
    ensures SureOf(log, a)
  {
    if log.Then? {
      SureHolds(log.prior, a);
    }
  }

  lemma DownBeforeResume(before: Log, a: Actor)
    requires InertSince(before, Gate()) && a in WRITERS
    ensures KnownDown(Reattested(before), a)
  {
    GateStopsAll(a);
    SureHolds(Gate(), a);
    InertSpares(before, Gate());
    SparedStaysDown(before, Gate(), a);
    var restored := if StorageStopped(before) then Done(Done(before, StartStorage), ProbeStorage) else before;
    assert KnownDown(Done(before, StartStorage), a);
    assert KnownDown(restored, a);
    var ready := Done(restored, Unpause(Attestor));
    assert KnownDown(ready, a);
    assert KnownDown(Done(ready, RefreshPrepare), a);
    assert KnownDown(Done(Done(ready, RefreshPrepare), RefreshSignal), a);
  }

  /** The resume started the first `n` workers at most. */
  lemma {:induction false} StartedKnown(log: Log, n: nat, a: Actor)
    requires n <= |WORKERS| && KnownDown(log, a)
    ensures SureOf(Started(log, n), a)
    ensures a in WORKERS[..n] || LeftStopped(Started(log, n), a)
  {
    if n > 0 {
      StartedKnown(log, n - 1, a);
      var worker := WORKERS[n - 1];
      var found := Done(Started(log, n - 1), Identify(worker));
      assert SureOf(found, a) && (LeftStopped(Started(log, n - 1), a) ==> LeftStopped(found, a));
      var up := Done(found, StartWorker(worker));
      assert SureOf(up, a) && (a != worker && LeftStopped(found, a) ==> LeftStopped(up, a));
      assert worker in WORKERS[..n];
    }
  }

  lemma ShortServiceKnown(short: Log, before: Log, resumed: nat, a: Actor)
    requires 0 < resumed <= |RESUMED_SERVICES| && StoppedShort(short, before, |WORKERS|, resumed)
    requires KnownDown(before, a) && a !in Starts(short.last.command)
    ensures SureOf(short, a)
    ensures a in WORKERS || a in RESUMED_SERVICES[..resumed] || LeftStopped(short, a)
  {
    StartedKnown(before, 3, a);
    var up := Started(before, 3);
    assert WORKERS[..3] == WORKERS && RESUMED_SERVICES[0] == Scheduler;
    assert Unpaused(up, 0) == up;
    assert Unpaused(up, 1) == Done(up, Unpause(Scheduler));
    assert SureOf(Unpaused(up, resumed - 1), a);
  }

  lemma ShortWorkerKnown(short: Log, before: Log, started: nat, a: Actor)
    requires started <= |WORKERS| && StoppedShort(short, before, started, 0)
    requires KnownDown(before, a) && a !in Starts(short.last.command)
    ensures SureOf(short, a)
    ensures a in WORKERS[..started] || LeftStopped(short, a)
  {
    var worker := WORKERS[started - 1];
    StartedKnown(before, started - 1, a);
    var earlier := Started(before, started - 1);
    assert worker in WORKERS[..started];
    var found := Done(earlier, Identify(worker));
    assert SureOf(found, a) && (LeftStopped(earlier, a) ==> LeftStopped(found, a));
    if short.last.command.AwaitHealth? {
      assert SureOf(Done(found, StartWorker(worker)), a);
    }
  }

  /** What the resume left of an actor that it did not fail on. */
  lemma ShortKnown(short: Log, before: Log, started: nat, resumed: nat, a: Actor)
    requires StoppedShort(short, before, started, resumed) && KnownDown(before, a)
    requires started <= |WORKERS| && resumed <= |RESUMED_SERVICES|
    requires a !in Starts(short.last.command)
    ensures SureOf(short, a)
    ensures a in WORKERS[..started] || a in RESUMED_SERVICES[..resumed] || LeftStopped(short, a)
  {
    if resumed > 0 {
      ShortServiceKnown(short, before, resumed, a);
      assert WORKERS[..started] == WORKERS;
    } else {
      ShortWorkerKnown(short, before, started, a);
    }
  }

  lemma {:induction false} RepausedKnown(log: Log, before: Log, i: nat, n: nat, a: Actor)
    requires i <= n <= |RESUMED_SERVICES| && Repaused(log, before, i, n)
    requires CleanSince(log, before) && SureOf(before, a)
    ensures SureOf(log, a)
    ensures LeftStopped(before, a) || a in RESUMED_SERVICES[i..n] ==> LeftStopped(log, a)
    decreases n - i
  {
    if i < n {
      RepausedSince(log.prior, before, i + 1, n);
      SinceGrows(log.prior, before);
      RepausedKnown(log.prior, before, i + 1, n, a);
      assert RESUMED_SERVICES[i..n] == [RESUMED_SERVICES[i]] + RESUMED_SERVICES[i + 1..n];
    }
  }

  lemma {:induction false} RestoppedKnown(log: Log, before: Log, i: nat, n: nat, a: Actor)
    requires i <= n <= |WORKERS| && Restopped(log, before, i, n)
    requires CleanSince(log, before) && SureOf(before, a)
    ensures SureOf(log, a)
    ensures LeftStopped(before, a) || a in WORKERS[i..n] ==> LeftStopped(log, a)
    decreases n - i
  {
    if i < n {
      RestoppedSince(log.prior, before, i + 1, n);
      SinceGrows(log.prior, before);
      RestoppedKnown(log.prior, before, i + 1, n, a);
      assert WORKERS[i..n] == [WORKERS[i]] + WORKERS[i + 1..n];
    }
  }

  lemma {:induction false} CleanSplits(log: Log, middle: Log, earlier: Log)
    requires CleanSince(log, earlier) && Since(log, middle) && Since(middle, earlier)
    ensures CleanSince(log, middle) && CleanSince(middle, earlier)
  {
    if log != middle {
      SinceGrows(log.prior, middle);
      SinceGrows(middle, earlier);
      CleanSplits(log.prior, middle, earlier);
    }
  }

  /** A rollback without failures leaves at most that writer in doubt whose own resume failed. */
  lemma RollbackLeavesDown(run: Run, before: Log, short: Log, started: nat, resumed: nat)
    requires IsRun(run) && InertSince(before, Gate())
    requires RolledBack(LogOf(run), short, Reattested(before), started, resumed) && CleanSince(LogOf(run), short)
    ensures WRITERS * (run.world.live + run.world.unsettled) <= Starts(short.last.command)
  {
    var log := LogOf(run);
    var repaused :| Repaused(repaused, short, 0, resumed) && Restopped(log, repaused, 0, started);
    RepausedSince(repaused, short, 0, resumed);
    RestoppedSince(log, repaused, 0, started);
    CleanSplits(log, repaused, short);
    forall a | a in WRITERS && a !in Starts(short.last.command)
      ensures a !in run.world.live + run.world.unsettled
    {
      DownBeforeResume(before, a);
      ShortKnown(short, Reattested(before), started, resumed, a);
      RepausedKnown(repaused, short, 0, resumed, a);
      RestoppedKnown(log, repaused, 0, started, a);
      assert RESUMED_SERVICES[0..resumed] == RESUMED_SERVICES[..resumed] && WORKERS[0..started] == WORKERS[..started];
      SureWorldOf(run, a);
    }
  }

  // ----- the order of a rollback

  predicate NotSince(c: Command, log: Log, earlier: Log) {
    log == earlier || (log.Then? && log.last.command != c && NotSince(c, log.prior, earlier))
  }

  /** First the api is paused, then the scheduler, then the workers are stopped, the reaper first;
      whatever is left out, nothing comes before its place, and nothing else is sent. */
  predicate PutBackInOrder(log: Log, short: Log) {
    log == short ||
    (&& log.Then? && PutBackInOrder(log.prior, short)
     && var before := log.prior;
        match log.last.command
        case Pause(Api) => before == short
        case Pause(Scheduler) =>
          && NotSince(StopWorker(Reaper), before, short) && NotSince(StopWorker(Maintenance), before, short)
          && NotSince(StopWorker(Worker), before, short)
        case StopWorker(Reaper) =>
          NotSince(StopWorker(Maintenance), before, short) && NotSince(StopWorker(Worker), before, short)
        case StopWorker(Maintenance) => NotSince(StopWorker(Worker), before, short)
        case StopWorker(Worker) => true
        case _ => false)
  }

  lemma {:induction false} RepausedInOrder(log: Log, short: Log, i: nat, n: nat)
    requires i <= n <= |RESUMED_SERVICES| && Repaused(log, short, i, n)
    ensures PutBackInOrder(log, short)
    ensures forall a: Actor :: NotSince(StopWorker(a), log, short)
    decreases n - i
  {
    if i < n {
      RepausedInOrder(log.prior, short, i + 1, n);
      RepausedSince(log.prior, short, i + 1, n);
      assert RESUMED_SERVICES[i] == if i == 0 then Scheduler else Api;
      assert i == 1 ==> log.prior == short;
    }
  }

  lemma {:induction false} RestoppedInOrder(log: Log, repaused: Log, short: Log, i: nat, n: nat)
    requires i <= n <= |WORKERS| && Restopped(log, repaused, i, n)
    requires PutBackInOrder(repaused, short) && forall a: Actor :: NotSince(StopWorker(a), repaused, short)
    ensures PutBackInOrder(log, short)
    ensures forall k :: 0 <= k < i ==> NotSince(StopWorker(WORKERS[k]), log, short)
    decreases n - i
  {
    if i < n {
      RestoppedInOrder(log.prior, repaused, short, i + 1, n);
      assert WORKERS[i] == if i == 0 then Worker else if i == 1 then Maintenance else Reaper;
      assert i >= 1 ==> NotSince(StopWorker(WORKERS[0]), log.prior, short);
      assert i >= 2 ==> NotSince(StopWorker(WORKERS[1]), log.prior, short);
      assert WORKERS[0] == Worker && WORKERS[1] == Maintenance;
    }
  }

  lemma RolledBackInOrder(log: Log, short: Log, before: Log, started: nat, resumed: nat)
    requires RolledBack(log, short, before, started, resumed)
    ensures PutBackInOrder(log, short)
  {
    var repaused :| Repaused(repaused, short, 0, resumed) && Restopped(log, repaused, 0, started);
    RepausedInOrder(repaused, short, 0, resumed);
    RestoppedInOrder(log, repaused, short, 0, started);
  }

  // ----- the order of a resume

  lemma {:induction false} StartedHealthy(log: Log, n: nat, k: nat)
    requires k < n <= |WORKERS|
    ensures Happened(Started(log, n), Event(AwaitHealth(WORKERS[k]), Ok))
  {
    if k < n - 1 {
      StartedHealthy(log, n - 1, k);
      HappenedStays(Started(log, n), Started(log, n - 1), Event(AwaitHealth(WORKERS[k]), Ok)) by {
        SinceThree(Started(log, n - 1), Identify(WORKERS[n - 1]), StartWorker(WORKERS[n - 1]), AwaitHealth(WORKERS[n - 1]));
      }
    }
  }

  lemma WorkersAreUp(run: Run, ready: Log)
    requires IsRun(run) && LogOf(run) == Started(ready, 3) && Sure(ready)
    ensures WorkersBack(LogOf(run), run.world)
  {
    StartedHealthy(ready, 3, 0);
    StartedHealthy(ready, 3, 1);
    StartedHealthy(ready, 3, 2);
    forall a | a in {Worker, Maintenance, Reaper}
      ensures a in run.world.live && run.world.unsettled == {}
    {
      StartedLeavesRunning(ready, 3, a);
      assert WORKERS[..3] == WORKERS && a in WORKERS by {
        assert WORKERS[0] == Worker && WORKERS[1] == Maintenance && WORKERS[2] == Reaper;
      }
      SureWorld(run, a);
    }
    assert Worker in {Worker, Maintenance, Reaper};
  }

  lemma SchedulerIsUp(run: Run, ready: Log)
    requires IsRun(run) && LogOf(run) == Done(Started(ready, 3), Unpause(Scheduler)) && Sure(ready)
    ensures ItsTurn(Unpause(Api), LogOf(run), run.world)
  {
    var up := run.prior;
    WorkersAreUp(up, ready);
    forall a: Actor
      ensures a in run.world.live <==> a in up.world.live || a == Scheduler
    {
      assert a !in run.world.unsettled;
    }
    assert forall e: Event :: Happened(LogOf(up), e) ==> Happened(LogOf(run), e);
  }

  /** When a service's turn to be unpaused comes. */
  lemma TurnComes(run: Run, log: Log, ready: Log, i: nat)
    requires Conducted(run, log) && i < |RESUMED_SERVICES| && Sure(ready)
    requires log == Unpaused(Started(ready, 3), i)
    ensures ItsTurn(Unpause(RESUMED_SERVICES[i]), log, run.world)
  {
    ConductedMeans(run, log);
    if i == 0 {
      WorkersAreUp(run, ready);
    } else {
      assert RESUMED_SERVICES[0] == Scheduler && Unpaused(Started(ready, 3), 0) == Started(ready, 3);
      SchedulerIsUp(run, ready);
    }
  }

  // ----- the clean call, command by command

  function Commands(log: Log): seq<Command> {
    if log.Empty? then [] else Commands(log.prior) + [log.last.command]
  }

  predicate AllOk(log: Log) {
    log.Then? ==> log.last.outcome.Ok? && AllOk(log.prior)
  }

  const CLEAN_GATE: seq<Command> := [
    Pause(Api), Pause(Scheduler),
    Identify(Worker), StopWorker(Worker),
    Identify(Maintenance), StopWorker(Maintenance),
    Identify(Reaper), StopWorker(Reaper),
    RunRecovery, RefreshPrepare, RefreshSignal, RefreshWait, Pause(Attestor)]

  const CLEAN_CAPTURE: seq<Command> := [
    InventoryObjects, CountRows, DumpDatabase, StopStorage, ArchiveVolume,
    StartStorage, ProbeStorage, InventoryObjects]

  const CLEAN_REFRESH: seq<Command> := [Unpause(Attestor), RefreshPrepare, RefreshSignal, RefreshWait]

  const CLEAN_RESUME: seq<Command> :=
    StartOf(Worker) + StartOf(Maintenance) + StartOf(Reaper) + [Unpause(Scheduler), Unpause(Api)]

  function StartOf(worker: Actor): seq<Command> {
    [Identify(worker), StartWorker(worker), AwaitHealth(worker)]
  }

  lemma TwoMore(log: Log, a: Command, b: Command)
    ensures Commands(Done(Done(log, a), b)) == Commands(log) + [a, b]
    ensures AllOk(Done(Done(log, a), b)) <==> AllOk(log)
  {
    assert Commands(Done(log, a)) == Commands(log) + [a];
    assert AllOk(Done(log, a)) <==> AllOk(log);
  }

  lemma ThreeMore(log: Log, a: Command, b: Command, c: Command)
    ensures Commands(Done(Done(Done(log, a), b), c)) == Commands(log) + [a, b, c]
    ensures AllOk(Done(Done(Done(log, a), b), c)) <==> AllOk(log)
  {
    TwoMore(log, a, b);
  }

  lemma QuiescedIs()
    ensures Commands(Quiesced()) == CLEAN_GATE[..8] && AllOk(Quiesced())
  {
    var paused := Done(Done(Empty, Pause(Api)), Pause(Scheduler));
    assert Paused(Empty, 1) == Done(Empty, Pause(Api));
    assert Paused(Empty, 2) == paused;
    var one := Done(Done(paused, Identify(Worker)), StopWorker(Worker));
    var two := Done(Done(one, Identify(Maintenance)), StopWorker(Maintenance));
    assert Drained(paused, 1) == one;
    assert Drained(paused, 2) == two;
    assert Quiesced() == Done(Done(two, Identify(Reaper)), StopWorker(Reaper));
    TwoMore(Empty, Pause(Api), Pause(Scheduler));
    TwoMore(paused, Identify(Worker), StopWorker(Worker));
    TwoMore(one, Identify(Maintenance), StopWorker(Maintenance));
    TwoMore(two, Identify(Reaper), StopWorker(Reaper));
  }

  lemma GateIs()
    ensures Commands(Gate()) == CLEAN_GATE && AllOk(Gate())
  {
    var recovered := Done(Quiesced(), RunRecovery);
    QuiescedIs();
    assert Commands(recovered) == CLEAN_GATE[..8] + [RunRecovery] && AllOk(recovered);
    ThreeMore(recovered, RefreshPrepare, RefreshSignal, RefreshWait);
    assert Gate() == Done(Refreshed(recovered), Pause(Attestor));
  }

  lemma CapturedIs(log: Log)
    ensures Commands(Captured(log)) == Commands(log) + CLEAN_CAPTURE
    ensures AllOk(Captured(log)) <==> AllOk(log)
  {
    var database, volume := DatabaseCaptured(log), VolumeCaptured(DatabaseCaptured(log));
    ThreeMore(log, InventoryObjects, CountRows, DumpDatabase);
    TwoMore(database, StopStorage, ArchiveVolume);
    ThreeMore(volume, StartStorage, ProbeStorage, InventoryObjects);
  }

  lemma OneStarted(log: Log, n: nat, worker: Actor)
    requires n < |WORKERS| && worker == WORKERS[n]
    ensures Commands(Started(log, n + 1)) == Commands(Started(log, n)) + StartOf(worker)
    ensures AllOk(Started(log, n + 1)) <==> AllOk(Started(log, n))
  {
    ThreeMore(Started(log, n), Identify(worker), StartWorker(worker), AwaitHealth(worker));
  }

  lemma ResumedIs(log: Log)
    ensures Commands(Resumed(log)) == Commands(log) + CLEAN_RESUME
    ensures AllOk(Resumed(log)) <==> AllOk(log)
  {
    var started := Started(log, 3);
    OneStarted(log, 0, Worker);
    OneStarted(log, 1, Maintenance);
    OneStarted(log, 2, Reaper);
    assert Started(log, 0) == log;
    assert Unpaused(started, 1) == Done(started, Unpause(Scheduler));
    TwoMore(started, Unpause(Scheduler), Unpause(Api));
  }

  lemma ReattestedIs(log: Log)
    requires !StorageStopped(log)
    ensures Commands(Reattested(log)) == Commands(log) + CLEAN_REFRESH
    ensures AllOk(Reattested(log)) <==> AllOk(log)
  {
    var released := Done(log, Unpause(Attestor));
    assert Commands(released) == Commands(log) + [Unpause(Attestor)];
    ThreeMore(released, RefreshPrepare, RefreshSignal, RefreshWait);
  }

  /** A normal return is this sequence of commands, all of them successful, and no other. */
  lemma CleanCallIs()
    ensures var log := Done(Resumed(Reattested(Captured(Gate()))), WriteManifest);
            Commands(log) == CLEAN_GATE + CLEAN_CAPTURE + CLEAN_REFRESH + CLEAN_RESUME + [WriteManifest] && AllOk(log)
  {
    var captured := Captured(Gate());
    GateIs();
    CapturedIs(Gate());
    assert captured.last == Event(InventoryObjects, Ok) && !StorageStopped(captured);
    ReattestedIs(captured);
    ResumedIs(Reattested(captured));
  }

  // ----- what stands behind a justified resume

  predicate NoneSince(log: Log, earlier: Log, commands: set<Command>) {
    log == earlier || (log.Then? && log.last.command !in commands && NoneSince(log.prior, earlier, commands))
  }

  /** Where storage is proven the store was never stopped, or was probed with success after the last
      attempt to stop it. */
  lemma {:induction false} StorageProvenSince(log: Log) returns (earlier: Log)
    requires StorageProven(log)
    ensures NoneSince(log, earlier, {StopStorage})
    ensures earlier == Empty || (earlier.Then? && earlier.last == Event(ProbeStorage, Ok))
  {
    if log.Empty? || log.last == Event(ProbeStorage, Ok) {
      earlier := log;
    } else {
      earlier := StorageProvenSince(log.prior);
    }
  }

  /** The refresh `anew` came right after the attestor's release; before that, all thirteen commands of
      the gate had succeeded and the store was up. */
  ghost predicate RestsOn(anew: Log, before: Log, gate: Log, proven: Log) {
    && anew == Done(Done(Done(Done(before, Unpause(Attestor)), RefreshPrepare), RefreshSignal), RefreshWait)
    && Commands(gate) == CLEAN_GATE && AllOk(gate) && Since(before, gate)
    && NoneSince(before, proven, {StopStorage})
    && (proven == Empty || (proven.Then? && proven.last == Event(ProbeStorage, Ok)))
  }

  lemma FreshRestsOn(log: Log)
    requires FreshlyAttested(log)
    ensures exists before, gate, proven :: RestsOn(log, before, gate, proven)
  {
    var before := log.prior.prior.prior.prior;
    GateIs();
    var proven := StorageProvenSince(before);
    assert RestsOn(log, before, Gate(), proven);
  }

  /** A justified resume rests on such a refresh, and nothing was captured after it. */
  lemma {:induction false} ResumeRestsOn(log: Log) returns (anew: Log)
    requires ResumeJustified(log)
    ensures NoneSince(log, anew, {InventoryObjects, CountRows, DumpDatabase, StopStorage, ArchiveVolume})
    ensures exists before, gate, proven :: RestsOn(anew, before, gate, proven)
  {
    if FreshlyAttested(log) {
      anew := log;
      FreshRestsOn(log);
    } else {
      anew := ResumeRestsOn(log.prior);
    }
  }
}
