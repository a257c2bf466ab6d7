/** How the logs of a backup call relate: what follows what, what is clean, what fell short. */
module BackupLogs {
  import opened BackupWorld
  import opened Wrappers

  lemma {:induction false} SinceGrows(log: Log, earlier: Log)
    requires Since(log, earlier)
    ensures Length(log) >= Length(earlier)
  {
    if log != earlier {
      SinceGrows(log.prior, earlier);
    }
  }

  lemma {:induction false} SinceTransitive(log: Log, middle: Log, earlier: Log)
    requires Since(log, middle) && Since(middle, earlier)
    ensures Since(log, earlier)
  {
    if log != middle {
      SinceTransitive(log.prior, middle, earlier);
    }
  }

  lemma {:induction false} HappenedStays(log: Log, earlier: Log, e: Event)
    requires Since(log, earlier) && Happened(earlier, e)
    ensures Happened(log, e)
  {
    if log != earlier {
      HappenedStays(log.prior, earlier, e);
    }
  }

  lemma {:induction false} InertIsSince(log: Log, earlier: Log)
    requires InertSince(log, earlier)
    ensures Since(log, earlier)
  {
    if log != earlier {
      InertIsSince(log.prior, earlier);
    }
  }

  /** A log whose last command, sent after `earlier`, failed is not clean since. */
  lemma FailedIsUnclean(log: Log, earlier: Log)
    requires log.Then? && !log.last.outcome.Ok? && Since(log.prior, earlier)
    ensures !CleanSince(log, earlier)
  {
    SinceGrows(log.prior, earlier);
  }

  /** Nor does it become clean by whatever follows. */
  lemma {:induction false} UncleanStays(log: Log, middle: Log, earlier: Log)
    requires Since(log, middle) && Since(middle, earlier) && !CleanSince(middle, earlier)
    ensures !CleanSince(log, earlier)
  {
    if log != middle {
      UncleanStays(log.prior, middle, earlier);
      SinceGrows(log.prior, middle);
      SinceGrows(middle, earlier);
    }
  }

  /** Falling short on a part of the way is falling short on the way. */
  lemma ShortOfMore(log: Log, earlier: Log, clean: Log, earliest: Log, whole: Log)
    requires FellShort(log, earlier, clean) && Since(earlier, earliest) && Since(whole, clean)
    ensures FellShort(log, earliest, whole)
  {
    SinceTransitive(log.prior, earlier, earliest);
    SinceTransitive(whole, clean, Done(log.prior, log.last.command));
  }

  lemma SinceThree(log: Log, a: Command, b: Command, c: Command)
    ensures Since(Done(log, a), log)
    ensures Since(Done(Done(log, a), b), log) && Since(Done(Done(log, a), b), Done(log, a))
    ensures Since(Done(Done(Done(log, a), b), c), log)
    ensures Since(Done(Done(Done(log, a), b), c), Done(log, a))
  {
    assert Since(Done(log, a), log);
    assert Since(Done(Done(log, a), b), Done(log, a));
  }

  /** The stages of the capture follow one another. */
  lemma CaptureStages(log: Log)
    ensures Since(DatabaseCaptured(log), log)
    ensures Since(VolumeCaptured(DatabaseCaptured(log)), log)
    ensures Since(Captured(log), DatabaseCaptured(log))
    ensures Since(Captured(log), VolumeCaptured(DatabaseCaptured(log)))
    ensures Since(Captured(log), log)
  {
    var dumped := DatabaseCaptured(log);
    var archived := VolumeCaptured(dumped);
    SinceThree(log, InventoryObjects, CountRows, DumpDatabase);
    SinceThree(dumped, StopStorage, ArchiveVolume, StartStorage);
    SinceThree(archived, StartStorage, ProbeStorage, InventoryObjects);
    SinceTransitive(archived, dumped, log);
    SinceTransitive(Captured(log), archived, dumped);
    SinceTransitive(Captured(log), dumped, log);
  }

  lemma GatedStages(log: Log)
    ensures Since(Gated(log), log) && Since(Gated(log), Done(log, RunRecovery))
    ensures Since(Gated(log), Refreshed(Done(log, RunRecovery)))
    ensures Happened(Gated(log), Event(RunRecovery, Ok)) && Happened(Gated(log), Event(RefreshWait, Ok))
    ensures Happened(Gated(log), Event(Pause(Attestor), Ok))
    ensures StorageStopped(Gated(log)) == StorageStopped(Refreshed(Done(log, RunRecovery))) == StorageStopped(log)
    ensures var refreshed := Refreshed(Done(log, RunRecovery));
            && Happened(refreshed, Event(RunRecovery, Ok)) && Happened(refreshed, Event(RefreshWait, Ok))
            && (Happened(refreshed, Event(Pause(Attestor), Ok)) <==> Happened(log, Event(Pause(Attestor), Ok)))
  {
    var recovered := Done(log, RunRecovery);
    var refreshed := Refreshed(recovered);
    SinceThree(recovered, RefreshPrepare, RefreshSignal, RefreshWait);
    assert Since(Gated(log), refreshed) && Since(recovered, log);
    SinceTransitive(Gated(log), refreshed, recovered);
    SinceTransitive(Gated(log), recovered, log);
    assert Happened(recovered, Event(RunRecovery, Ok)) && Happened(refreshed, Event(RefreshWait, Ok));
    HappenedStays(refreshed, recovered, Event(RunRecovery, Ok));
    HappenedStays(Gated(log), recovered, Event(RunRecovery, Ok));
    HappenedStays(Gated(log), refreshed, Event(RefreshWait, Ok));
    NothingElseInRefresh(recovered);
  }

  /** A refresh leaves every other mark as it is. */
  lemma NothingElseInRefresh(recovered: Log)
    ensures StorageStopped(Refreshed(recovered)) == StorageStopped(recovered)
    ensures forall e: Event :: Happened(Refreshed(recovered), e) ==>
              Happened(recovered, e) || e.command.RefreshPrepare? || e.command.RefreshSignal? || e.command.RefreshWait?
    ensures forall e: Event :: Happened(recovered, e) ==> Happened(Refreshed(recovered), e)
  {
    var prepared := Done(recovered, RefreshPrepare);
    var signalled := Done(prepared, RefreshSignal);
    assert StorageStopped(prepared) == StorageStopped(recovered);
    assert StorageStopped(signalled) == StorageStopped(prepared);
    assert forall e: Event :: Happened(prepared, e) <==> e == Event(RefreshPrepare, Ok) || Happened(recovered, e);
    assert forall e: Event :: Happened(signalled, e) <==> e == Event(RefreshSignal, Ok) || Happened(prepared, e);
  }

  /** Quiescing resumes nobody, stops no store and passes no part of the gate. */
  lemma {:induction false} QuiescingOnly(log: Log)
    requires Quiescing(log)
    ensures NoResume(log) && StorageProven(log) && !StorageStopped(log)
    ensures !Happened(log, Event(RunRecovery, Ok)) && !Happened(log, Event(RefreshWait, Ok))
    ensures !Happened(log, Event(Pause(Attestor), Ok))
  {
    if log.Then? {
      QuiescingOnly(log.prior);
    }
  }

  /** A clean recovery is clean. */
  lemma ReattestedIsClean(log: Log)
    ensures CleanSince(Reattested(log), log) && Since(Reattested(log), log)
  {
    var restored := if StorageStopped(log) then Done(Done(log, StartStorage), ProbeStorage) else log;
    SinceThree(log, StartStorage, ProbeStorage, Unpause(Attestor));
    assert CleanSince(Done(log, StartStorage), log);
    assert CleanSince(restored, log) && Since(restored, log);
    var ready := Done(restored, Unpause(Attestor));
    assert CleanSince(ready, log) && Since(ready, log);
    assert CleanSince(Done(ready, RefreshPrepare), log) && Since(Done(ready, RefreshPrepare), log);
    var signalled := Done(Done(ready, RefreshPrepare), RefreshSignal);
    assert CleanSince(signalled, log) && Since(signalled, log);
  }

  lemma {:induction false} StartedIsClean(log: Log, n: nat, earlier: Log)
    requires n <= |WORKERS| && CleanSince(log, earlier) && Since(log, earlier)
    ensures CleanSince(Started(log, n), earlier) && Since(Started(log, n), earlier)
  {
    if n > 0 {
      StartedIsClean(log, n - 1, earlier);
      var found := Done(Started(log, n - 1), Identify(WORKERS[n - 1]));
      assert CleanSince(found, earlier) && Since(found, earlier);
      var up := Done(found, StartWorker(WORKERS[n - 1]));
      assert CleanSince(up, earlier) && Since(up, earlier);
    }
  }

  lemma ResumedIsClean(log: Log, earlier: Log)
    requires CleanSince(log, earlier) && Since(log, earlier)
    ensures CleanSince(Resumed(log), earlier) && Since(Resumed(log), earlier)
  {
    StartedIsClean(log, 3, earlier);
    var scheduled := Done(Started(log, 3), Unpause(Scheduler));
    assert Unpaused(Started(log, 3), 1) == scheduled;
    assert CleanSince(scheduled, earlier) && Since(scheduled, earlier);
    assert Resumed(log) == Done(scheduled, Unpause(Api));
  }

  /** A rollback follows the resume that stopped short. */
  lemma {:induction false} RepausedSince(log: Log, before: Log, i: nat, n: nat)
    requires i <= n <= |RESUMED_SERVICES| && Repaused(log, before, i, n)
    ensures Since(log, before)
    decreases n - i
  {
    if i < n {
      RepausedSince(log.prior, before, i + 1, n);
    }
  }

  lemma {:induction false} RestoppedSince(log: Log, before: Log, i: nat, n: nat)
    requires i <= n <= |WORKERS| && Restopped(log, before, i, n)
    ensures Since(log, before)
    decreases n - i
  {
    if i < n {
      RestoppedSince(log.prior, before, i + 1, n);
    }
  }

  /** A refresh that fell short did so at one of its three commands. */
  lemma RefreshStops(log: Log, before: Log)
    requires FellShort(log, before, Refreshed(before))
    ensures var prepared := Done(before, RefreshPrepare);
            || (log.prior == before && log.last.command == RefreshPrepare)
            || (log.prior == prepared && log.last.command == RefreshSignal)
            || (log.prior == Done(prepared, RefreshSignal) && log.last.command == RefreshWait)
  {
    var prepared := Done(before, RefreshPrepare);
    var signalled := Done(prepared, RefreshSignal);
    var next := Done(log.prior, log.last.command);
    SinceGrows(log.prior, before);
    if next != Refreshed(before) {
      assert Since(signalled, next);
      if next != signalled {
        assert Since(prepared, next);
        if next != prepared {
          assert Since(before, next);
          SinceGrows(before, next);
        }
      }
    }
  }

  /** So it changes no mark of the gate. */
  lemma RefreshCutShort(log: Log, before: Log)
    requires FellShort(log, before, Refreshed(before))
    ensures StorageStopped(log) == StorageStopped(before)
    ensures Since(log, before)
    ensures Happened(log, Event(RunRecovery, Ok)) == Happened(before, Event(RunRecovery, Ok))
    ensures Happened(log, Event(RefreshWait, Ok)) == Happened(before, Event(RefreshWait, Ok))
    ensures Happened(log, Event(Pause(Attestor), Ok)) == Happened(before, Event(Pause(Attestor), Ok))
  {
    RefreshStops(log, before);
    var prepared := Done(before, RefreshPrepare);
    Unmarked(prepared, before);
    if log.prior == Done(prepared, RefreshSignal) {
      Unmarked(log.prior, prepared);
      assert Since(prepared, before);
    }
    Unmarked(log, log.prior);
  }

  /** A command of the refresh sets no mark, unless it completes it. */
  lemma Unmarked(log: Log, before: Log)
    requires log.Then? && log.prior == before
    requires log.last.command.RefreshPrepare? || log.last.command.RefreshSignal? ||
             (log.last.command.RefreshWait? && !log.last.outcome.Ok?)
    ensures StorageStopped(log) == StorageStopped(before)
    ensures Happened(log, Event(RunRecovery, Ok)) == Happened(before, Event(RunRecovery, Ok))
    ensures Happened(log, Event(RefreshWait, Ok)) == Happened(before, Event(RefreshWait, Ok))
    ensures Happened(log, Event(Pause(Attestor), Ok)) == Happened(before, Event(Pause(Attestor), Ok))
  {
  }

  /** The marks of the gate stay in the log. */
  lemma StillPastGate(log: Log)
    requires Since(log, Gate())
    ensures Happened(log, Event(RunRecovery, Ok)) && Happened(log, Event(RefreshWait, Ok))
    ensures Happened(log, Event(Pause(Attestor), Ok))
  {
    GatedStages(Quiesced());
    HappenedStays(log, Gate(), Event(RunRecovery, Ok));
    HappenedStays(log, Gate(), Event(RefreshWait, Ok));
    HappenedStays(log, Gate(), Event(Pause(Attestor), Ok));
  }

  /** Whatever captures did, nothing was started or stopped since the gate. */
  lemma CaptureIsInert(log: Log)
    requires InertSince(log, Gate())
    ensures Since(log, Gate()) && Sure(log) && NoResume(log)
    ensures Happened(log, Event(RunRecovery, Ok)) && Happened(log, Event(RefreshWait, Ok))
    ensures Happened(log, Event(Pause(Attestor), Ok))
  {
    GateStopsAll(Api);
    InertStaysSure(log, Gate());
    StillPastGate(log);
  }

  lemma ShortOfCapture(log: Log)
    requires FellShort(log, Gate(), Captured(Gate())) || FellShort(log, Quiesced(), Gate())
    ensures FellShort(log, Quiesced(), Captured(Gate()))
  {
    GatedStages(Quiesced());
    CaptureStages(Gate());
    if FellShort(log, Quiesced(), Gate()) {
      ShortOfMore(log, Quiesced(), Gate(), Quiesced(), Captured(Gate()));
    } else {
      ShortOfMore(log, Gate(), Captured(Gate()), Quiesced(), Captured(Gate()));
    }
  }

  /** After the gate, writers are held back only if some command of the recovery failed. */
  lemma HeldIsUnclean(log: Log, restored: Log, before: Log)
    requires Since(before, Gate())
    requires StorageRetried(restored, before) && Refreshing(log, restored, before) && Since(log, restored)
    requires !CleanSince(restored, before) || log != RefreshAfter(restored, before)
    ensures !CleanSince(log, before)
  {
    StillPastGate(before);
    assert Since(restored, before);
    if CleanSince(restored, before) {
      assert StorageAnswers(restored, before);
      SinceTransitive(log.prior, restored, before);
      FailedIsUnclean(log, before);
    } else {
      UncleanStays(log, restored, before);
    }
  }

  /** A clean recovery after the gate justifies the resume. */
  lemma ReattestedJustifies(before: Log)
    requires Since(before, Gate()) && (StorageStopped(before) || StorageProven(before))
    ensures ResumeJustified(Reattested(before))
  {
    var restored := if StorageStopped(before) then Done(Done(before, StartStorage), ProbeStorage) else before;
    assert Since(Done(before, StartStorage), Gate());
    assert StorageProven(restored) && Since(restored, Gate());
    assert FreshlyAttested(Refreshed(Done(restored, Unpause(Attestor))));
  }

  lemma {:induction false} UncleanAfterClean(log: Log, middle: Log, earlier: Log)
    requires Since(log, middle) && Since(middle, earlier) && !CleanSince(log, middle)
    ensures !CleanSince(log, earlier)
  {
    SinceGrows(log.prior, middle);
    SinceGrows(middle, earlier);
    if log.last.outcome.Ok? {
      UncleanAfterClean(log.prior, middle, earlier);
    }
  }

  // ----- what a run says about its log

  lemma {:induction false} LogConducted(run: Run, log: Log)
    requires Conducted(run, log)
    ensures LogOf(run) == log
  {
    if run.Next? {
      LogConducted(run.prior, log.prior);
    }
  }

  /** Where a quiescence without failures stands when `next` is due. */
  function CleanUpTo(next: Option<Command>): Log {
    var paused := Paused(Empty, |SERVICES|);
    match next
    case Some(Pause(service)) => if service == Api then Empty else Paused(Empty, 1)
    case Some(Identify(worker)) => Drained(paused, Rank(worker))
    case Some(StopWorker(worker)) => Done(Drained(paused, Rank(worker)), Identify(worker))
    case _ => Quiesced()
  }

  function Rank(worker: Actor): (n: nat)
    ensures n < |WORKERS|
  {
    if worker == Maintenance then 1 else if worker == Reaper then 2 else 0
  }

  predicate OnCourse(c: Command) {
    || (c.Pause? && c.actor in SERVICES)
    || ((c.Identify? || c.StopWorker?) && c.actor in WORKERS)
  }

  lemma CleanStep(c: Command)
    requires OnCourse(c)
    ensures var next := NextQuiescing(Done(Empty, c));
            && Done(CleanUpTo(Some(c)), c) == CleanUpTo(next)
            && (next.Some? ==> OnCourse(next.value))
  {
    var paused := Paused(Empty, |SERVICES|);
    match c {
      case Pause(service) =>
        assert Paused(Empty, 1) == Done(Empty, Pause(Api));
        assert paused == Done(Paused(Empty, 1), Pause(Scheduler)) && Drained(paused, 0) == paused;
      case Identify(worker) =>
      case StopWorker(worker) =>
        var n := Rank(worker);
        assert Drained(paused, n + 1) == Done(Done(Drained(paused, n), Identify(worker)), StopWorker(worker));
    }
  }

  /** A quiescence without failures goes through the clean sequence. */
  lemma {:induction false} UnfailingIsClean(log: Log)
    requires Quiescing(log) && Failures(log) == []
    ensures log == CleanUpTo(NextQuiescing(log))
    ensures NextQuiescing(log).Some? ==> OnCourse(NextQuiescing(log).value)
  {
    if log.Then? {
      assert log.last.outcome.Ok? && Failures(log.prior) == [];
      UnfailingIsClean(log.prior);
      CleanStep(log.last.command);
    } else {
      assert SERVICES[0] == Api;
    }
  }

  lemma AppendTwice<T>(a: seq<T>, b: seq<T>, c: seq<T>)
    ensures (a + b) + c == a + (b + c)
  {
  }

  // ----- what recovery reports

  lemma {:induction false} ErrorsJoin(log: Log, middle: Log, earlier: Log)
    requires Since(log, middle) && Since(middle, earlier)
    ensures ErrorsSince(log, earlier) == ErrorsSince(middle, earlier) + ErrorsSince(log, middle)
  {
    if log != middle {
      SinceGrows(log.prior, middle);
      SinceGrows(middle, earlier);
      ErrorsJoin(log.prior, middle, earlier);
    }
  }

  /** Since `earlier`, only commands of a capacity refresh, all of which succeeded. */
  predicate RefreshesSince(log: Log, earlier: Log) {
    log == earlier ||
    (&& log.Then? && log.last.outcome.Ok? && ErrorOf(log.last.command).CapacityRefreshFailed?
     && RefreshesSince(log.prior, earlier))
  }

  lemma {:induction false} PartRefreshes(part: Log, whole: Log, earlier: Log)
    requires RefreshesSince(whole, earlier) && Since(whole, part) && Since(part, earlier)
    ensures RefreshesSince(part, earlier) && ErrorsSince(part, earlier) == []
  {
    if whole != part {
      SinceGrows(whole.prior, part);
      SinceGrows(part, earlier);
      PartRefreshes(part, whole.prior, earlier);
    } else if part != earlier {
      SinceGrows(part.prior, earlier);
      PartRefreshes(part.prior, part.prior, earlier);
    }
  }

  /** A refresh that fell short is one error, any other none. */
  lemma RefreshErrors(log: Log, restored: Log, before: Log)
    requires Refreshing(log, restored, before)
    ensures log == restored || log == RefreshAfter(restored, before) ==> ErrorsSince(log, restored) == []
    ensures log != restored && log != RefreshAfter(restored, before) && !Broke(log) ==>
              ErrorsSince(log, restored) == [CapacityRefreshFailed]
  {
    var whole := RefreshAfter(restored, before);
    var ready := if Happened(before, Event(RefreshWait, Ok)) then Done(restored, Unpause(Attestor)) else restored;
    SinceThree(ready, RefreshPrepare, RefreshSignal, RefreshWait);
    assert RefreshesSince(ready, restored) && Since(ready, restored);
    assert RefreshesSince(Done(ready, RefreshPrepare), restored);
    assert RefreshesSince(Done(Done(ready, RefreshPrepare), RefreshSignal), restored);
    SinceTransitive(whole, ready, restored);
    PartRefreshes(whole, whole, restored);
    if log != restored && log != whole {
      var next := Done(log.prior, log.last.command);
      assert Since(next, restored);
      PartRefreshes(next, whole, restored);
      SinceGrows(log.prior, restored);
      assert ErrorsSince(next, restored) == ErrorsSince(log.prior, restored);
    }
  }
}
