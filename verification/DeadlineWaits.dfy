/** The two polling loops of scripts/compose_backup.py, on a clock that only probes and sleeps
    move.  Durations are the adversary's; a probe phase is cut off at its own timeout. */
module DeadlineWaits {

  import opened Wrappers

  type Duration = d: real | 0.0 <= d

  const S3_IO_TIMEOUT := 5.0
  const S3_RETRY_INTERVAL := 1.0
  const HEALTH_INSPECT_TIMEOUT := 5
  const HEALTH_RETRY_INTERVAL := 1.0

  function Min(a: real, b: real): real { if a <= b then a else b }
  function Max(a: real, b: real): real { if a <= b then b else a }

  // ----- readiness of the object store

  /** How long connecting and reading would take, and whether the bucket would answer. */
  datatype Probe = Probe(answers: bool, connect: Duration, read: Duration)

  type Probes = nat -> Probe

  function IoTimeout(remaining: real): real {
    Max(0.05, Min(S3_IO_TIMEOUT, remaining / 2.0))
  }

  predicate Succeeds(p: Probe, timeout: real) {
    p.answers && p.connect <= timeout && p.read <= timeout
  }

  function Spent(p: Probe, timeout: real): real {
    if p.connect > timeout then timeout else p.connect + Min(p.read, timeout)
  }

  /** When a probe begun at `at` is over. */
  function ProbeEnd(at: real, deadline: real, p: Probe): real {
    at + Spent(p, IoTimeout(deadline - at))
  }

  /** When the loop comes round again after a failed probe begun at `at`. */
  function NextRound(at: real, deadline: real, p: Probe): real {
    var end := ProbeEnd(at, deadline, p);
    if end >= deadline then end else Slept(end, deadline)
  }

  /** A pause between rounds never sleeps past the deadline. */
  function Slept(at: real, deadline: real): real {
    at + Min(S3_RETRY_INTERVAL, deadline - at)
  }

  /** When round `k` begins, had all earlier probes failed. */
  function RoundStart(start: real, deadline: real, probes: Probes, k: nat): real {
    if k == 0 then start
    else
      var at := RoundStart(start, deadline, probes, k - 1);
      if at >= deadline then at else NextRound(at, deadline, probes(k - 1))
  }

  predicate RoundSucceeds(start: real, deadline: real, probes: Probes, k: nat) {
    var at := RoundStart(start, deadline, probes, k);
    at < deadline && Succeeds(probes(k), IoTimeout(deadline - at))
  }

  /** The first `k` rounds all fail. */
  predicate FirstFail(start: real, deadline: real, probes: Probes, k: nat) {
    k > 0 ==> FirstFail(start, deadline, probes, k - 1) && !RoundSucceeds(start, deadline, probes, k - 1)
  }

  /** One probe never outlives the deadline by more than a tenth of a second, and not at all when
      a tenth of a second was left for it. */
  lemma ProbeBound(at: real, deadline: real, p: Probe)
    requires at < deadline
    ensures at <= ProbeEnd(at, deadline, p) <= deadline + 0.1
    ensures at + 0.1 <= deadline ==> ProbeEnd(at, deadline, p) <= deadline
  {
    var remaining := deadline - at;
    var io := IoTimeout(remaining);
    assert Spent(p, io) <= 2.0 * io;
    if remaining >= 0.1 {
      assert io <= remaining / 2.0;
    } else {
      assert io == 0.05;
    }
  }

  /** A failed round takes at least a second or reaches the deadline. */
  lemma RoundAdvances(at: real, deadline: real, p: Probe)
    requires at < deadline
    ensures NextRound(at, deadline, p) >= Min(at + 1.0, deadline)
  {
    ProbeBound(at, deadline, p);
  }

  /** So no more rounds begin than the budget has seconds, however fast probes fail. */
  lemma {:induction false} RoundsAreSpaced(start: real, deadline: real, probes: Probes, k: nat)
    requires start < deadline
    ensures RoundStart(start, deadline, probes, k) >= Min(start + k as real, deadline) >= start
    ensures RoundStart(start, deadline, probes, k) <= deadline + 0.1
  {
    if k > 0 {
      RoundsAreSpaced(start, deadline, probes, k - 1);
      var at := RoundStart(start, deadline, probes, k - 1);
      if at < deadline {
        RoundAdvances(at, deadline, probes(k - 1));
        ProbeBound(at, deadline, probes(k - 1));
      }
    }
  }

  /** How long each phase of a probe may take: five seconds, or half of what remains if that is less,
      but never less than a twentieth of a second. */
  predicate PhaseLimit(remaining: real, limit: real) {
    && (remaining >= 10.0 ==> limit == 5.0)
    && (0.1 <= remaining < 10.0 ==> 2.0 * limit == remaining)
    && (remaining < 0.1 ==> limit == 0.05)
  }

  /** A probe succeeds when it answers with both phases within the limit, is cut off at the limit
      in either phase, and after a failure the loop pauses a second or until the deadline. */
  lemma ProbeTakes(at: real, deadline: real, p: Probe, limit: real)
    requires at < deadline && PhaseLimit(deadline - at, limit)
    ensures Succeeds(p, IoTimeout(deadline - at)) <==> p.answers && p.connect <= limit && p.read <= limit
    ensures p.connect > limit ==> ProbeEnd(at, deadline, p) == at + limit
    ensures p.connect <= limit < p.read ==> ProbeEnd(at, deadline, p) == at + p.connect + limit
    ensures p.connect <= limit && p.read <= limit ==> ProbeEnd(at, deadline, p) == at + p.connect + p.read
    ensures var end := ProbeEnd(at, deadline, p);
            NextRound(at, deadline, p) == if end + 1.0 <= deadline then end + 1.0 else Max(end, deadline)
  {
    assert IoTimeout(deadline - at) == limit;
  }

  /** Rounds are never more than eleven seconds apart. */
  lemma {:induction false} RoundsComeRound(start: real, deadline: real, probes: Probes, k: nat)
    ensures RoundStart(start, deadline, probes, k) <= start + 11.0 * k as real
  {
    if k > 0 {
      RoundsComeRound(start, deadline, probes, k - 1);
    }
  }

  /** A probe that connects after five seconds and is never answered. */
  const HANGING: Probe := Probe(false, 5.0, 9.0)

  /** And that far apart they are when every probe hangs. */
  lemma {:induction false} HangingRounds(start: real, deadline: real, k: nat)
    requires start + 11.0 * k as real <= deadline
    ensures RoundStart(start, deadline, _ => HANGING, k) == start + 11.0 * k as real
  {
    if k > 0 {
      HangingRounds(start, deadline, k - 1);
      ProbeTakes(start + 11.0 * (k - 1) as real, deadline, HANGING, 5.0);
    }
  }

  /** What one round does, for a budget of `timeoutSeconds`. */
  lemma RoundStep(start: real, timeoutSeconds: nat, probes: Probes, k: nat)
    requires timeoutSeconds > 0
    ensures var deadline := start + timeoutSeconds as real;
            var at := RoundStart(start, deadline, probes, k);
            && start <= at <= deadline + 0.1
            && (at < deadline ==>
                  && k < timeoutSeconds
                  && at <= ProbeEnd(at, deadline, probes(k)) <= deadline + 0.1
                  && (RoundSucceeds(start, deadline, probes, k) <==>
                        Succeeds(probes(k), IoTimeout(deadline - at)))
                  && RoundStart(start, deadline, probes, k + 1) == NextRound(at, deadline, probes(k)))
  {
    var deadline := start + timeoutSeconds as real;
    RoundsAreSpaced(start, deadline, probes, k);
    var at := RoundStart(start, deadline, probes, k);
    if at < deadline {
      ProbeBound(at, deadline, probes(k));
    }
  }

  /** When the whole wait ends that is about to begin round `k`: with its first success, or at the
      first round that would begin at or after the deadline. */
  function WaitEnd(start: real, timeoutSeconds: nat, probes: Probes, k: nat): real
    requires k <= timeoutSeconds
    decreases timeoutSeconds - k
  {
    var deadline := start + timeoutSeconds as real;
    var at := RoundStart(start, deadline, probes, k);
    if at >= deadline || k == timeoutSeconds then at
    else if RoundSucceeds(start, deadline, probes, k) then ProbeEnd(at, deadline, probes(k))
    else WaitEnd(start, timeoutSeconds, probes, k + 1)
  }

  /** When the call ends; a budget that is not positive is refused at once. */
  function ReadinessEnd(start: real, timeoutSeconds: int, probes: Probes): real {
    if timeoutSeconds <= 0 then start else WaitEnd(start, timeoutSeconds, probes, 0)
  }

  /** The rounds before the first success do not end the wait. */
  lemma {:induction false} WaitGoesOn(start: real, timeoutSeconds: nat, probes: Probes, k: nat)
    requires k <= timeoutSeconds
    requires FirstFail(start, start + timeoutSeconds as real, probes, k)
    requires k > 0 ==> RoundStart(start, start + timeoutSeconds as real, probes, k - 1) < start + timeoutSeconds as real
    ensures WaitEnd(start, timeoutSeconds, probes, 0) == WaitEnd(start, timeoutSeconds, probes, k)
  {
    if k > 0 {
      var deadline := start + timeoutSeconds as real;
      if k > 1 && RoundStart(start, deadline, probes, k - 2) >= deadline {
        assert RoundStart(start, deadline, probes, k - 1) == RoundStart(start, deadline, probes, k - 2);
      }
      WaitGoesOn(start, timeoutSeconds, probes, k - 1);
    }
  }

  /** The wait ended in round `rounds - 1` (counted from 0), with a success. */
  predicate ReadyAfter(start: real, deadline: real, probes: Probes, rounds: nat, now: real) {
    && rounds > 0 && FirstFail(start, deadline, probes, rounds - 1)
    && RoundSucceeds(start, deadline, probes, rounds - 1)
    && now == ProbeEnd(RoundStart(start, deadline, probes, rounds - 1), deadline, probes(rounds - 1))
  }

  /** All rounds that began before the deadline failed, and there were `rounds` of them. */
  predicate NotReadyAfter(start: real, deadline: real, probes: Probes, rounds: nat, now: real) {
    && rounds > 0 && FirstFail(start, deadline, probes, rounds)
    && RoundStart(start, deadline, probes, rounds - 1) < deadline
    && now == RoundStart(start, deadline, probes, rounds) >= deadline
  }

  lemma VerdictEndsWait(start: real, timeoutSeconds: nat, probes: Probes, rounds: nat, now: real)
    requires rounds <= timeoutSeconds
    requires ReadyAfter(start, start + timeoutSeconds as real, probes, rounds, now) ||
             NotReadyAfter(start, start + timeoutSeconds as real, probes, rounds, now)
    ensures now == WaitEnd(start, timeoutSeconds, probes, 0)
  {
    var deadline := start + timeoutSeconds as real;
    if NotReadyAfter(start, deadline, probes, rounds, now) {
      WaitGoesOn(start, timeoutSeconds, probes, rounds);
    } else {
      if rounds > 1 && RoundStart(start, deadline, probes, rounds - 2) >= deadline {
        assert RoundStart(start, deadline, probes, rounds - 1) == RoundStart(start, deadline, probes, rounds - 2);
      }
      WaitGoesOn(start, timeoutSeconds, probes, rounds - 1);
    }
  }

  /** With a budget of one second the first probe has half of it for each phase, and whatever it
      leaves is slept through: the wait ends in time. */
  lemma OneSecondIsKept(start: real, probes: Probes)
    ensures WaitEnd(start, 1, probes, 0) <= start + 1.0
  {
    var deadline := start + 1.0;
    ProbeBound(start, deadline, probes(0));
    assert RoundStart(start, deadline, probes, 0) == start;
    assert RoundStart(start, deadline, probes, 1) == NextRound(start, deadline, probes(0));
    assert WaitEnd(start, 1, probes, 1) == RoundStart(start, deadline, probes, 1);
  }

  /** The first probe takes 0.96 s, the others fail at once, and the last one, begun 0.04 s before
      the deadline, times out in both of its phases. */
  function LateProbes(timeoutSeconds: nat): Probes {
    (k: nat) =>
      if k == 0 then Probe(false, 0.96, 0.0)
      else if k + 1 == timeoutSeconds then Probe(false, 0.05, 9.0)
      else Probe(false, 0.0, 0.0)
  }

  /** A probe that fails after `spent` seconds, at least a second and a bit before the deadline. */
  lemma FailedRound(at: real, deadline: real, spent: Duration)
    requires 0.0 <= spent < 1.0 && at + spent + 1.0 <= deadline
    requires spent == 0.0 || deadline - at >= 2.0
    ensures NextRound(at, deadline, Probe(false, spent, 0.0)) == at + spent + 1.0
  {
    assert spent <= IoTimeout(deadline - at);
  }

  lemma {:induction false} LateRounds(start: real, timeoutSeconds: nat, k: nat)
    requires 2 <= timeoutSeconds && 0 < k < timeoutSeconds
    ensures RoundStart(start, start + timeoutSeconds as real, LateProbes(timeoutSeconds), k) == start + k as real + 0.96
    ensures FirstFail(start, start + timeoutSeconds as real, LateProbes(timeoutSeconds), k)
  {
    var deadline := start + timeoutSeconds as real;
    var probes := LateProbes(timeoutSeconds);
    if k == 1 {
      FailedRound(start, deadline, 0.96);
      assert RoundStart(start, deadline, probes, 0) == start;
      assert FirstFail(start, deadline, probes, 0);
    } else {
      LateRounds(start, timeoutSeconds, k - 1);
      FailedRound(start + (k - 1) as real + 0.96, deadline, 0.0);
    }
  }

  /** With two seconds or more that run ends 0.06 s late. */
  lemma LateRun(start: real, timeoutSeconds: nat)
    requires 2 <= timeoutSeconds
    ensures WaitEnd(start, timeoutSeconds, LateProbes(timeoutSeconds), 0) == start + timeoutSeconds as real + 0.06
  {
    var deadline := start + timeoutSeconds as real;
    var probes := LateProbes(timeoutSeconds);
    var last := timeoutSeconds - 1;
    LateRounds(start, timeoutSeconds, last);
    var at := RoundStart(start, deadline, probes, last);
    assert at == deadline - 0.04;
    LateProbe(at, deadline);
    assert NotReadyAfter(start, deadline, probes, timeoutSeconds, deadline + 0.06);
    VerdictEndsWait(start, timeoutSeconds, probes, timeoutSeconds, deadline + 0.06);
  }

  lemma LateProbe(at: real, deadline: real)
    requires at == deadline - 0.04
    ensures NextRound(at, deadline, Probe(false, 0.05, 9.0)) == deadline + 0.06
  {
    assert IoTimeout(deadline - at) == 0.05;
  }

  /** The budget is kept, whatever the probes do, exactly when it is at most one second. */
  lemma BudgetKeptIff(start: real, timeoutSeconds: int)
    ensures (forall probes: Probes ::
               ReadinessEnd(start, timeoutSeconds, probes) <= start + Max(0.0, timeoutSeconds as real)) <==>
            timeoutSeconds <= 1
  {
    if timeoutSeconds == 1 {
      forall probes: Probes
        ensures ReadinessEnd(start, timeoutSeconds, probes) <= start + Max(0.0, timeoutSeconds as real)
      {
        OneSecondIsKept(start, probes);
      }
    } else if timeoutSeconds > 1 {
      LateRun(start, timeoutSeconds);
      assert ReadinessEnd(start, timeoutSeconds, LateProbes(timeoutSeconds)) > start + timeoutSeconds as real;
    }
  }

  datatype Readiness = BadTimeout | Ready | NotReady

  /** One attempt, given half of what remains for each of its phases. */
  method ProbeOnce(at: real, deadline: real, p: Probe) returns (ready: bool, end: real)
    requires at < deadline
    ensures ready <==> Succeeds(p, IoTimeout(deadline - at))
    ensures end == ProbeEnd(at, deadline, p)
  {
    var io := Max(0.05, Min(S3_IO_TIMEOUT, (deadline - at) / 2.0));
    ready, end := Succeeds(p, io), at + Spent(p, io);
  }

  /** One round: a probe, and after a failed one a pause unless the deadline has come. */
  method PollRound(start: real, timeoutSeconds: nat, probes: Probes, k: nat, at: real)
      returns (ready: bool, over: bool, now: real)
    requires timeoutSeconds > 0
    requires at == RoundStart(start, start + timeoutSeconds as real, probes, k) < start + timeoutSeconds as real
    ensures k < timeoutSeconds && start <= now <= start + timeoutSeconds as real + 0.1
    ensures ready <==> RoundSucceeds(start, start + timeoutSeconds as real, probes, k)
    ensures now == if ready then ProbeEnd(at, start + timeoutSeconds as real, probes(k))
                   else RoundStart(start, start + timeoutSeconds as real, probes, k + 1)
    ensures over ==> !ready && now >= start + timeoutSeconds as real
  {
    var deadline := start + timeoutSeconds as real;
    RoundStep(start, timeoutSeconds, probes, k);
    RoundStep(start, timeoutSeconds, probes, k + 1);
    ready, now := ProbeOnce(at, deadline, probes(k));
    over := !ready && now >= deadline;
    if !ready && !over {
      now := Slept(now, deadline);
    }
  }

  /** Probe until one succeeds or the deadline is reached. */
  method PollUntil(start: real, timeoutSeconds: nat, probes: Probes) returns (ready: bool, now: real, rounds: nat)
    requires timeoutSeconds > 0
    ensures now <= start + timeoutSeconds as real + 0.1 && rounds <= timeoutSeconds
    ensures if ready then ReadyAfter(start, start + timeoutSeconds as real, probes, rounds, now)
            else NotReadyAfter(start, start + timeoutSeconds as real, probes, rounds, now)
  {
    var deadline := start + timeoutSeconds as real;
    ready, now, rounds := false, start, 0;
    while true
      invariant !ready && now == RoundStart(start, deadline, probes, rounds) <= deadline + 0.1
      invariant rounds <= timeoutSeconds
      invariant FirstFail(start, deadline, probes, rounds)
      invariant rounds > 0 ==> RoundStart(start, deadline, probes, rounds - 1) < deadline
      decreases timeoutSeconds - rounds
    {
      if now >= deadline { return; }
      var over;
      ready, over, now := PollRound(start, timeoutSeconds, probes, rounds, now);
      rounds := rounds + 1;
      if ready || over { return; }
    }
  }

  /** Wait for the bucket: the first successful round ends the wait, and nothing else does before
      the deadline. */
  method WaitForReadiness(start: real, timeoutSeconds: int, probes: Probes)
      returns (verdict: Readiness, now: real, rounds: nat)
    ensures now == ReadinessEnd(start, timeoutSeconds, probes)
    ensures verdict.BadTimeout? <==> timeoutSeconds <= 0
    ensures !verdict.BadTimeout? ==> now <= start + timeoutSeconds as real + 0.1 && rounds <= timeoutSeconds
    ensures verdict.Ready? ==> ReadyAfter(start, start + timeoutSeconds as real, probes, rounds, now)
    ensures verdict.NotReady? ==> NotReadyAfter(start, start + timeoutSeconds as real, probes, rounds, now)
  {
    if timeoutSeconds <= 0 { return BadTimeout, start, 0; }
    var ready;
    ready, now, rounds := PollUntil(start, timeoutSeconds, probes);
    VerdictEndsWait(start, timeoutSeconds, probes, rounds, now);
    verdict := if ready then Ready else NotReady;
  }

  // ----- health of one restarted worker

  datatype Status = StatusRunning | StatusStopped
  datatype Health = HealthStarting | Healthy | Unhealthy

  /** What one inspection would report and how long it would take; `None` models a malformed or
      failed inspection. */
  datatype Report = Unreadable(took: Duration) | Report(status: Status, health: Health, took: Duration)

  datatype WorkerVerdict = WorkerBadTimeout | WorkerHealthy | WorkerDied | InspectionFailed | WorkerTimedOut

  predicate Waits(r: Report) {
    r.Report? && r.status.StatusRunning? && r.health.HealthStarting?
  }

  predicate ReportsHealthy(r: Report) {
    r.Report? && r.status.StatusRunning? && r.health.Healthy?
  }

  predicate ReportsDeath(r: Report) {
    r.Report? && (r.status.StatusStopped? || r.health.Unhealthy?)
  }

  /** An inspection is cut off after whole seconds. */
  function Budget(remaining: real): int {
    if remaining.Floor < HEALTH_INSPECT_TIMEOUT then remaining.Floor else HEALTH_INSPECT_TIMEOUT
  }

  /** When inspection `k` is due, had all earlier ones reported a starting worker in time. */
  function InspectionDue(start: real, deadline: real, reports: nat -> Report, k: nat): real {
    if k == 0 then start
    else
      var over := InspectionDue(start, deadline, reports, k - 1) + reports(k - 1).took;
      over + Min(HEALTH_RETRY_INTERVAL, Max(0.0, deadline - over))
  }

  /** With less than a second left there is no further inspection. */
  predicate Due(start: real, deadline: real, reports: nat -> Report, k: nat) {
    deadline - InspectionDue(start, deadline, reports, k) >= 1.0
  }

  /** Inspection `k` takes place and reports within its budget. */
  predicate InTime(start: real, deadline: real, reports: nat -> Report, k: nat) {
    && Due(start, deadline, reports, k)
    && reports(k).took <= Budget(deadline - InspectionDue(start, deadline, reports, k)) as real
  }

  /** The first `k` inspections took place, in time, and reported a starting worker. */
  predicate AllWaited(start: real, deadline: real, reports: nat -> Report, k: nat) {
    k > 0 ==>
      && AllWaited(start, deadline, reports, k - 1)
      && InTime(start, deadline, reports, k - 1) && Waits(reports(k - 1))
  }

  /** Inspections are a second apart, or the deadline has come. */
  lemma {:induction false} InspectionsAreSpaced(start: real, deadline: real, reports: nat -> Report, k: nat)
    requires start <= deadline && AllWaited(start, deadline, reports, k)
    ensures start <= Min(start + k as real, deadline) <= InspectionDue(start, deadline, reports, k) <= deadline
  {
    if k > 0 {
      InspectionsAreSpaced(start, deadline, reports, k - 1);
      var due := InspectionDue(start, deadline, reports, k - 1);
      assert reports(k - 1).took <= Budget(deadline - due) as real <= deadline - due;
    }
  }

  /** Inspections that go on waiting are never more than six seconds apart. */
  lemma {:induction false} InspectionsComeRound(start: real, deadline: real, reports: nat -> Report, k: nat)
    requires AllWaited(start, deadline, reports, k)
    ensures InspectionDue(start, deadline, reports, k) <= start + 6.0 * k as real
  {
    if k > 0 {
      InspectionsComeRound(start, deadline, reports, k - 1);
    }
  }

  /** A worker that is still starting, reported after five seconds. */
  const SLOW: Report := Report(StatusRunning, HealthStarting, 5.0)

  /** And that far apart they are when every report takes its whole five seconds. */
  lemma {:induction false} SlowInspections(start: real, deadline: real, k: nat)
    requires start + 6.0 * k as real <= deadline
    ensures InspectionDue(start, deadline, _ => SLOW, k) == start + 6.0 * k as real
    ensures AllWaited(start, deadline, _ => SLOW, k)
  {
    if k > 0 {
      SlowInspections(start, deadline, k - 1);
    }
  }

  /** What one inspection makes of the wait; `None` when it goes on. */
  predicate Judged(verdict: Option<WorkerVerdict>, r: Report, budget: int) {
    match verdict
    case None => Waits(r) && r.took <= budget as real
    case Some(WorkerHealthy) => ReportsHealthy(r) && r.took <= budget as real
    case Some(WorkerDied) => ReportsDeath(r) && r.took <= budget as real
    case Some(InspectionFailed) => r.Unreadable? || r.took > budget as real
    case _ => false
  }

  /** One inspection, and a pause if the worker is still starting. */
  method Inspect(report: Report, at: real, deadline: real) returns (verdict: Option<WorkerVerdict>, now: real)
    requires deadline - at >= 1.0
    ensures at <= now <= deadline
    ensures Judged(verdict, report, Budget(deadline - at))
    ensures verdict.Some? ==> now == at + Min(report.took, Budget(deadline - at) as real)
    ensures verdict.None? ==>
              && now == at + report.took + Min(HEALTH_RETRY_INTERVAL, Max(0.0, deadline - (at + report.took)))
              && (now >= at + 1.0 || now == deadline)
  {
    var remaining := deadline - at;
    var budget := if remaining.Floor < HEALTH_INSPECT_TIMEOUT then remaining.Floor else HEALTH_INSPECT_TIMEOUT;
    if report.took > budget as real { return Some(InspectionFailed), at + budget as real; }
    now := at + report.took;
    if report.Unreadable? { return Some(InspectionFailed), now; }
    if report.status.StatusRunning? && report.health.Healthy? { return Some(WorkerHealthy), now; }
    if report.status.StatusStopped? || report.health.Unhealthy? { return Some(WorkerDied), now; }
    verdict := None;
    now := now + Min(HEALTH_RETRY_INTERVAL, Max(0.0, deadline - now));
  }

  /** The verdict is that of the last of `rounds` inspections, or a time-out at the deadline once less
      than a second was left for another; all inspections before it went on waiting. */
  predicate VerdictAfter(start: real, deadline: real, reports: nat -> Report, verdict: WorkerVerdict,
                         rounds: nat, now: real)
  {
    && rounds > 0 && Due(start, deadline, reports, rounds - 1)
    && if verdict.WorkerTimedOut? then
         now == deadline && AllWaited(start, deadline, reports, rounds) && !Due(start, deadline, reports, rounds)
       else
         var due := InspectionDue(start, deadline, reports, rounds - 1);
         && AllWaited(start, deadline, reports, rounds - 1)
         && Judged(Some(verdict), reports(rounds - 1), Budget(deadline - due))
         && now == due + Min(reports(rounds - 1).took, Budget(deadline - due) as real)
  }

  /** Inspection `k`, which is due at `at`. */
  method InspectRound(start: real, timeoutSeconds: nat, reports: nat -> Report, k: nat, at: real)
      returns (verdict: Option<WorkerVerdict>, now: real)
    requires var deadline := start + timeoutSeconds as real;
             AllWaited(start, deadline, reports, k) && Due(start, deadline, reports, k)
             && at == InspectionDue(start, deadline, reports, k)
    ensures k < timeoutSeconds && start <= now <= start + timeoutSeconds as real
    ensures verdict.Some? ==>
              VerdictAfter(start, start + timeoutSeconds as real, reports, verdict.value, k + 1, now)
    ensures verdict.None? ==>
              && now == InspectionDue(start, start + timeoutSeconds as real, reports, k + 1)
              && AllWaited(start, start + timeoutSeconds as real, reports, k + 1)
  {
    InspectionsAreSpaced(start, start + timeoutSeconds as real, reports, k);
    verdict, now := Inspect(reports(k), at, start + timeoutSeconds as real);
  }

  lemma NothingMoreDue(start: real, timeoutSeconds: nat, reports: nat -> Report, rounds: nat)
    requires timeoutSeconds > 0
    requires AllWaited(start, start + timeoutSeconds as real, reports, rounds)
    requires !Due(start, start + timeoutSeconds as real, reports, rounds)
    ensures VerdictAfter(start, start + timeoutSeconds as real, reports, WorkerTimedOut, rounds,
                         start + timeoutSeconds as real)
  {
  }

  /** Inspection after inspection while the worker is starting. */
  method InspectUntil(start: real, timeoutSeconds: nat, reports: nat -> Report)
      returns (verdict: WorkerVerdict, now: real, rounds: nat)
    requires timeoutSeconds > 0
    ensures start <= now <= start + timeoutSeconds as real && rounds <= timeoutSeconds
    ensures VerdictAfter(start, start + timeoutSeconds as real, reports, verdict, rounds, now)
  {
    now, rounds := start, 0;
    var deadline := now + timeoutSeconds as real;
    while true
      invariant start <= now <= deadline && rounds <= timeoutSeconds
      invariant
        || now == InspectionDue(start, deadline, reports, rounds)
        || (now == deadline && !Due(start, deadline, reports, rounds))
      invariant AllWaited(start, deadline, reports, rounds)
      decreases now < deadline, timeoutSeconds - rounds
    {
      var remaining := deadline - now;
      if remaining <= 0.0 { break; }
      if remaining < 1.0 {
        now := now + remaining;
        continue;
      }
      var judged;
      judged, now := InspectRound(start, timeoutSeconds, reports, rounds, now);
      rounds := rounds + 1;
      if judged.Some? { return judged.value, now, rounds; }
    }
    verdict := WorkerTimedOut;
    NothingMoreDue(start, timeoutSeconds, reports, rounds);
  }

  /** The wait never ends after its deadline. */
  method WaitForWorkerHealth(start: real, timeoutSeconds: int, reports: nat -> Report)
      returns (verdict: WorkerVerdict, now: real, rounds: nat)
    ensures verdict.WorkerBadTimeout? <==> timeoutSeconds <= 0
    ensures verdict.WorkerBadTimeout? ==> now == start && rounds == 0
    ensures !verdict.WorkerBadTimeout? ==>
              && start <= now <= start + timeoutSeconds as real && rounds <= timeoutSeconds
              && VerdictAfter(start, start + timeoutSeconds as real, reports, verdict, rounds, now)
  {
    if timeoutSeconds <= 0 { return WorkerBadTimeout, start, 0; }
    verdict, now, rounds := InspectUntil(start, timeoutSeconds, reports);
  }
}
