/** The start-up order the production check enforces (the dependency part of
    scripts/check_external_production.py), and what it means for every run of a scheduler that
    honours `depends_on`. */
module StartupBarrier {

  // ----- the configuration

  /** A flag as it stands in the file: absent or not a boolean is `Unset`. */
  datatype Flag = Unset | IsTrue | IsFalse

  /** One entry under `depends_on`; anything but a mapping is `NotMapping`. */
  datatype Dependency = NotMapping | Dependency(condition: string, required: Flag, restart: Flag)

  datatype Service = Service(dependsOn: map<string, Dependency>, restart: string)

  type Services = map<string, Service>

  const POSTGRES := "postgres"
  const STORAGE := "object-storage"
  const MIGRATE := "migrate"
  const RECOVERY := "storage-recovery"
  const ATTESTOR := "storage-capacity-attestor"
  const WRITERS: seq<string> := ["api", "worker", "maintenance-worker", "storage-reaper-worker", "scheduler"]
  const REQUIRED: set<string> := {POSTGRES, "redis", STORAGE, MIGRATE, RECOVERY, ATTESTOR, "api", "worker",
                                  "maintenance-worker", "storage-reaper-worker", "scheduler", "web"}
  const HEALTHY := "service_healthy"
  const COMPLETED := "service_completed_successfully"
  const STARTED := "service_started"

  function Condition(s: Service, dependency: string): string {
    if dependency !in s.dependsOn then ""
    else
      match s.dependsOn[dependency]
      case NotMapping => ""
      case Dependency(condition, required, _) => if required.IsFalse? then "" else condition
  }

  predicate Restarts(s: Service, dependency: string) {
    && dependency in s.dependsOn
    && var d := s.dependsOn[dependency];
       d.Dependency? && !d.required.IsFalse? && d.restart.IsTrue?
  }

  datatype Issue =
    | MissingServices(names: set<string>)
    | AutomaticRestart(name: string)
    | DoesNotWait(name: string, dependency: string)
    | DoesNotRestart(name: string, dependency: string)

  predicate Waits(services: Services, name: string, dependency: string, condition: string) {
    name in services && Condition(services[name], dependency) == condition
  }

  predicate Follows(services: Services, name: string, dependency: string) {
    name in services && Restarts(services[name], dependency)
  }

  predicate Barrier(services: Services) {
    && REQUIRED <= services.Keys
    && services[POSTGRES].restart == "no" && services[RECOVERY].restart == "no"
    && Waits(services, MIGRATE, POSTGRES, HEALTHY) && Follows(services, MIGRATE, POSTGRES)
    && Waits(services, RECOVERY, MIGRATE, COMPLETED) && Follows(services, RECOVERY, MIGRATE)
    && Waits(services, RECOVERY, STORAGE, HEALTHY)
    && Waits(services, ATTESTOR, RECOVERY, COMPLETED) && Follows(services, ATTESTOR, RECOVERY)
    && Waits(services, ATTESTOR, STORAGE, HEALTHY)
    && forall i :: 0 <= i < |WRITERS| ==>
         Waits(services, WRITERS[i], ATTESTOR, HEALTHY) && Follows(services, WRITERS[i], ATTESTOR)
  }

  /** `name` lists `dependency`, not as optional, under this condition, and restarts with it if asked. */
  predicate Needs(services: Services, name: string, dependency: string, condition: string, restarting: bool) {
    && name in services && dependency in services[name].dependsOn
    && var d := services[name].dependsOn[dependency];
       && d.Dependency? && d.condition == condition && d.required != IsFalse
       && (restarting ==> d.restart == IsTrue)
  }

  lemma NeedsIff(services: Services, name: string, dependency: string, condition: string)
    requires condition != ""
    ensures Waits(services, name, dependency, condition) <==> Needs(services, name, dependency, condition, false)
    ensures Waits(services, name, dependency, condition) && Follows(services, name, dependency) <==>
            Needs(services, name, dependency, condition, true)
  {
  }

  /** The barrier, service by service. */
  lemma BarrierMeans(services: Services)
    ensures Barrier(services) <==>
              && {"postgres", "redis", "object-storage", "migrate", "storage-recovery", "storage-capacity-attestor",
                  "api", "worker", "maintenance-worker", "storage-reaper-worker", "scheduler", "web"} <= services.Keys
              && services["postgres"].restart == "no" && services["storage-recovery"].restart == "no"
              && Needs(services, "migrate", "postgres", "service_healthy", true)
              && Needs(services, "storage-recovery", "migrate", "service_completed_successfully", true)
              && Needs(services, "storage-recovery", "object-storage", "service_healthy", false)
              && Needs(services, "storage-capacity-attestor", "storage-recovery", "service_completed_successfully", true)
              && Needs(services, "storage-capacity-attestor", "object-storage", "service_healthy", false)
              && Needs(services, "api", "storage-capacity-attestor", "service_healthy", true)
              && Needs(services, "worker", "storage-capacity-attestor", "service_healthy", true)
              && Needs(services, "maintenance-worker", "storage-capacity-attestor", "service_healthy", true)
              && Needs(services, "storage-reaper-worker", "storage-capacity-attestor", "service_healthy", true)
              && Needs(services, "scheduler", "storage-capacity-attestor", "service_healthy", true)
  {
    var healthy, completed := "service_healthy", "service_completed_successfully";
    NeedsIff(services, "migrate", "postgres", healthy);
    NeedsIff(services, "storage-recovery", "migrate", completed);
    NeedsIff(services, "storage-recovery", "object-storage", healthy);
    NeedsIff(services, "storage-capacity-attestor", "storage-recovery", completed);
    NeedsIff(services, "storage-capacity-attestor", "object-storage", healthy);
    forall i | 0 <= i < |WRITERS|
      ensures Waits(services, WRITERS[i], ATTESTOR, HEALTHY) && Follows(services, WRITERS[i], ATTESTOR) <==>
              Needs(services, WRITERS[i], "storage-capacity-attestor", "service_healthy", true)
    {
      NeedsIff(services, WRITERS[i], "storage-capacity-attestor", "service_healthy");
    }
    WritersAre();
  }

  lemma WritersAre()
    ensures |WRITERS| == 5 && WRITERS[0] == "api" && WRITERS[1] == "worker" && WRITERS[2] == "maintenance-worker"
    ensures WRITERS[3] == "storage-reaper-worker" && WRITERS[4] == "scheduler"
  {
  }

  /** One dependency: its condition, and whether its restart carries over. */
  method DependencyIssues(services: Services, name: string, dependency: string, condition: string, follows: bool)
      returns (issues: seq<Issue>)
    requires name in services
    ensures issues == [] <==>
              Waits(services, name, dependency, condition) && (follows ==> Follows(services, name, dependency))
  {
    issues := [];
    if Condition(services[name], dependency) != condition {
      issues := issues + [DoesNotWait(name, dependency)];
    }
    if follows && !Restarts(services[name], dependency) {
      issues := issues + [DoesNotRestart(name, dependency)];
    }
  }

  method WriterIssues(services: Services) returns (issues: seq<Issue>)
    requires REQUIRED <= services.Keys
    ensures issues == [] <==> forall i :: 0 <= i < |WRITERS| ==>
              Waits(services, WRITERS[i], ATTESTOR, HEALTHY) && Follows(services, WRITERS[i], ATTESTOR)
  {
    issues := [];
    for i := 0 to |WRITERS|
      invariant issues == [] <==> forall k :: 0 <= k < i ==>
        Waits(services, WRITERS[k], ATTESTOR, HEALTHY) && Follows(services, WRITERS[k], ATTESTOR)
    {
      assert WRITERS[i] in REQUIRED;
      var found := DependencyIssues(services, WRITERS[i], ATTESTOR, HEALTHY, true);
      issues := issues + found;
    }
  }

  /** No issue is raised exactly when the whole barrier is configured. */
  method BarrierIssues(services: Services) returns (issues: seq<Issue>)
    ensures issues == [] <==> Barrier(services)
  {
    if !(REQUIRED <= services.Keys) {
      return [MissingServices(REQUIRED - services.Keys)];
    }
    issues := [];
    if services[POSTGRES].restart != "no" {
      issues := issues + [AutomaticRestart(POSTGRES)];
    }
    var found := DependencyIssues(services, MIGRATE, POSTGRES, HEALTHY, true);
    issues := issues + found;
    if services[RECOVERY].restart != "no" {
      issues := issues + [AutomaticRestart(RECOVERY)];
    }
    found := DependencyIssues(services, RECOVERY, MIGRATE, COMPLETED, true);
    issues := issues + found;
    found := DependencyIssues(services, RECOVERY, STORAGE, HEALTHY, false);
    issues := issues + found;
    found := DependencyIssues(services, ATTESTOR, RECOVERY, COMPLETED, true);
    issues := issues + found;
    found := DependencyIssues(services, ATTESTOR, STORAGE, HEALTHY, false);
    issues := issues + found;
    found := WriterIssues(services);
    issues := issues + found;
  }

  // ----- the scheduler

  datatype Status = NotStarted | Running | Healthy | Exited(code: int)

  type State = string -> Status

  datatype Event =
    | Start(name: string)             // the scheduler starts a container
    | AutoRestart(name: string)       // the engine restarts one by its own restart policy
    | TurnHealthy(name: string)
    | TurnUnhealthy(name: string)
    | Exit(name: string, code: int)
    | Update(name: string)            // the scheduler replaces a service and what restarts with it

  predicate Up(status: Status) {
    status.Running? || status.Healthy?
  }

  predicate Met(condition: string, status: Status) {
    if condition == HEALTHY then status.Healthy?
    else if condition == COMPLETED then status == Exited(0)
    else condition == STARTED ==> !status.NotStarted?
  }

  /** Every dependency that is not marked optional is in the state its condition names. */
  predicate MayStart(services: Services, name: string, s: State) {
    name in services ==>
      forall d :: d in services[name].dependsOn && Condition(services[name], d) != "" ==>
        Met(Condition(services[name], d), s(d))
  }

  /** `name` depends on `dependency` through a chain of restarting dependencies. */
  ghost predicate Carries(services: Services, chain: seq<string>, name: string, dependency: string) {
    && |chain| > 0 && chain[0] == name && chain[|chain| - 1] == dependency
    && forall i :: 0 <= i < |chain| - 1 ==> Follows(services, chain[i], chain[i + 1])
  }

  ghost predicate RestartsWith(services: Services, name: string, dependency: string) {
    exists chain :: Carries(services, chain, name, dependency)
  }

  ghost predicate Next(services: Services, s: State, e: Event, t: State) {
    && (!e.Update? ==> forall n :: n != e.name ==> t(n) == s(n))
    && match e
       case Start(x) => !Up(s(x)) && MayStart(services, x, s) && t(x) == Running
       case AutoRestart(x) => s(x).Exited? && x in services && services[x].restart != "no" && t(x) == Running
       case TurnHealthy(x) => s(x).Running? && t(x) == Healthy
       case TurnUnhealthy(x) => s(x).Healthy? && t(x) == Running
       case Exit(x, code) => Up(s(x)) && t(x) == Exited(code)
       case Update(x) => forall n :: t(n) == if RestartsWith(services, n, x) then NotStarted else s(n)
  }

  ghost predicate IsRun(services: Services, states: seq<State>, events: seq<Event>) {
    && |states| == |events| + 1
    && (forall n :: states[0](n) == NotStarted)
    && forall i :: 0 <= i < |events| ==> Next(services, states[i], events[i], states[i + 1])
  }

  // ----- looking back from a state

  /** A service that is started now and was not at `u` has been started by the scheduler since. */
  lemma {:induction false} StartedSince(services: Services, states: seq<State>, events: seq<Event>,
                                        x: string, u: nat, n: nat) returns (k: nat)
    requires IsRun(services, states, events) && u <= n <= |events|
    requires states[u](x) == NotStarted && states[n](x) != NotStarted
    ensures u <= k < n && events[k] == Start(x)
    decreases n
  {
    assert n > u;
    assert Next(services, states[n - 1], events[n - 1], states[n]);
    if states[n - 1](x) == NotStarted {
      assert events[n - 1] == Start(x);
      k := n - 1;
    } else {
      k := StartedSince(services, states, events, x, u, n - 1);
    }
  }

  /** One that is healthy now turned healthy after being started since. */
  lemma {:induction false} HealthySince(services: Services, states: seq<State>, events: seq<Event>,
                                        x: string, u: nat, n: nat) returns (k: nat, m: nat)
    requires IsRun(services, states, events) && u <= n <= |events|
    requires states[u](x) == NotStarted && states[n](x) == Healthy
    ensures u <= k < m < n && events[k] == Start(x) && events[m] == TurnHealthy(x)
    decreases n
  {
    assert n > u;
    assert Next(services, states[n - 1], events[n - 1], states[n]);
    if states[n - 1](x) == Healthy {
      k, m := HealthySince(services, states, events, x, u, n - 1);
    } else {
      assert events[n - 1] == TurnHealthy(x);
      m := n - 1;
      k := StartedSince(services, states, events, x, u, n - 1);
    }
  }

  /** One that has completed now exited with zero after being started since. */
  lemma {:induction false} CompletedSince(services: Services, states: seq<State>, events: seq<Event>,
                                          x: string, u: nat, n: nat) returns (k: nat, m: nat)
    requires IsRun(services, states, events) && u <= n <= |events|
    requires states[u](x) == NotStarted && states[n](x) == Exited(0)
    ensures u <= k < m < n && events[k] == Start(x) && events[m] == Exit(x, 0)
    decreases n
  {
    assert n > u;
    assert Next(services, states[n - 1], events[n - 1], states[n]);
    if states[n - 1](x) == Exited(0) {
      k, m := CompletedSince(services, states, events, x, u, n - 1);
    } else {
      assert events[n - 1] == Exit(x, 0);
      m := n - 1;
      k := StartedSince(services, states, events, x, u, n - 1);
    }
  }

  /** A start finds the dependency in the state the check demands. */
  lemma StartFinds(services: Services, states: seq<State>, events: seq<Event>, k: nat,
                   x: string, dependency: string, condition: string)
    requires IsRun(services, states, events) && k < |events| && events[k] == Start(x)
    requires Waits(services, x, dependency, condition) && condition != ""
    ensures Met(condition, states[k](dependency))
  {
    assert Next(services, states[k], events[k], states[k + 1]);
    assert dependency in services[x].dependsOn;
  }

  // ----- the barrier

  predicate IsWriter(name: string) {
    name in {"api", "worker", "maintenance-worker", "storage-reaper-worker", "scheduler"}
  }

  /** Healthy PostgreSQL, completed migration, completed recovery, healthy attestor: in this order,
      each later than `u` and all before `n`.  The recovery started at `i` and the attestor at `k`,
      each while storage was healthy and the stage before it complete. */
  ghost predicate PassedBetween(states: seq<State>, events: seq<Event>, u: nat, n: nat,
                                a: nat, b: nat, i: nat, c: nat, k: nat, d: nat) {
    && u <= a < b < i < c < k < d < n <= |events| < |states|
    && events[a] == TurnHealthy("postgres")
    && events[b] == Exit("migrate", 0)
    && events[i] == Start("storage-recovery")
    && states[i]("migrate") == Exited(0) && states[i]("object-storage") == Healthy
    && events[c] == Exit("storage-recovery", 0)
    && events[k] == Start("storage-capacity-attestor")
    && states[k]("storage-recovery") == Exited(0) && states[k]("object-storage") == Healthy
    && events[d] == TurnHealthy("storage-capacity-attestor")
  }

  ghost predicate BarrierPassed(states: seq<State>, events: seq<Event>, u: nat, n: nat) {
    exists a, b, i, c, k, d :: PassedBetween(states, events, u, n, a, b, i, c, k, d)
  }

  predicate AllDown(s: State) {
    && s("postgres").NotStarted? && s("migrate").NotStarted? && s("storage-recovery").NotStarted?
    && s("storage-capacity-attestor").NotStarted?
    && s("api").NotStarted? && s("worker").NotStarted? && s("maintenance-worker").NotStarted?
    && s("storage-reaper-worker").NotStarted? && s("scheduler").NotStarted?
  }

  lemma WriterListed(name: string) returns (w: nat)
    requires IsWriter(name)
    ensures w < |WRITERS| && WRITERS[w] == name
  {
    WritersAre();
    w :| 0 <= w < 5 && WRITERS[w] == name;
  }

  /** If the check raises no issue, no writer starts after a moment when everything was down
      without the whole barrier having been passed since that moment. */
  lemma WriterStartsBehindBarrier(services: Services, states: seq<State>, events: seq<Event>,
                                  u: nat, n: nat, writer: string)
    requires Barrier(services) && IsRun(services, states, events)
    requires u <= n < |events| && AllDown(states[u])
    requires IsWriter(writer) && events[n] == Start(writer)
    ensures BarrierPassed(states, events, u, n)
  {
    var w := WriterListed(writer);
    StartFinds(services, states, events, n, writer, ATTESTOR, HEALTHY);
    var k, d := HealthySince(services, states, events, ATTESTOR, u, n);
    StartFinds(services, states, events, k, ATTESTOR, STORAGE, HEALTHY);
    StartFinds(services, states, events, k, ATTESTOR, RECOVERY, COMPLETED);
    var i, c := CompletedSince(services, states, events, RECOVERY, u, k);
    StartFinds(services, states, events, i, RECOVERY, STORAGE, HEALTHY);
    StartFinds(services, states, events, i, RECOVERY, MIGRATE, COMPLETED);
    var j, b := CompletedSince(services, states, events, MIGRATE, u, i);
    StartFinds(services, states, events, j, MIGRATE, POSTGRES, HEALTHY);
    var _, a := HealthySince(services, states, events, POSTGRES, u, j);
    assert PassedBetween(states, events, u, n, a, b, i, c, k, d);
  }

  lemma WriterIsDown(s: State, writer: string)
    requires AllDown(s) && IsWriter(writer)
    ensures s(writer).NotStarted?
  {
  }

  /** A writer that is up at any moment of any run is behind the barrier. */
  lemma RunningWriterIsBehindBarrier(services: Services, states: seq<State>, events: seq<Event>,
                                     u: nat, n: nat, writer: string)
    requires Barrier(services) && IsRun(services, states, events)
    requires u <= n <= |events| && AllDown(states[u])
    requires IsWriter(writer) && Up(states[n](writer))
    ensures BarrierPassed(states, events, u, n)
  {
    WriterIsDown(states[u], writer);
    var m := StartedSince(services, states, events, writer, u, n);
    WriterStartsBehindBarrier(services, states, events, u, m, writer);
    var a, b, i, c, k, d :| PassedBetween(states, events, u, m, a, b, i, c, k, d);
    assert PassedBetween(states, events, u, n, a, b, i, c, k, d);
  }

  lemma UpdateTakesDown(services: Services, s: State, t: State)
    requires Barrier(services) && Next(services, s, Update(POSTGRES), t)
    ensures AllDown(t)
  {
    assert Carries(services, [POSTGRES], POSTGRES, POSTGRES);
    assert Carries(services, [MIGRATE, POSTGRES], MIGRATE, POSTGRES);
    assert Carries(services, [RECOVERY, MIGRATE, POSTGRES], RECOVERY, POSTGRES);
    assert Carries(services, [ATTESTOR, RECOVERY, MIGRATE, POSTGRES], ATTESTOR, POSTGRES);
    forall i | 0 <= i < |WRITERS|
      ensures t(WRITERS[i]).NotStarted?
    {
      assert Carries(services, [WRITERS[i], ATTESTOR, RECOVERY, MIGRATE, POSTGRES], WRITERS[i], POSTGRES);
    }
    WritersAre();
  }

  lemma ChainFollows(services: Services, chain: seq<string>, name: string, dependency: string)
    requires Carries(services, chain, name, dependency) && name != dependency
    ensures |chain| > 1 && Follows(services, name, chain[1])
  {
    var i := 0;
    assert i < |chain| - 1;
    assert Follows(services, chain[i], chain[i + 1]);
  }

  /** What follows no dependency is left alone when something else is replaced. */
  lemma UpdateSparesOthers(services: Services, s: State, x: string, t: State, name: string)
    requires Next(services, s, Update(x), t)
    requires name != x && forall dependency :: !Follows(services, name, dependency)
    ensures t(name) == s(name)
  {
    if RestartsWith(services, name, x) {
      var chain :| Carries(services, chain, name, x);
      ChainFollows(services, chain, name, x);
      assert false;
    }
  }

  /** Replacing PostgreSQL takes everything behind the barrier down with it, so the barrier has to
      be passed again before any writer runs. */
  lemma DatabaseUpdateRaisesBarrier(services: Services, states: seq<State>, events: seq<Event>,
                                    u: nat, n: nat, writer: string)
    requires Barrier(services) && IsRun(services, states, events)
    requires u < n <= |events| && events[u] == Update("postgres")
    requires IsWriter(writer) && Up(states[n](writer))
    ensures AllDown(states[u + 1])
    ensures BarrierPassed(states, events, u + 1, n)
  {
    assert Next(services, states[u], events[u], states[u + 1]);
    UpdateTakesDown(services, states[u], states[u + 1]);
    RunningWriterIsBehindBarrier(services, states, events, u + 1, n, writer);
  }

  /** After PostgreSQL or the storage recovery has exited, only the scheduler brings it back: never
      the engine alone. */
  lemma {:induction false} OnlySchedulerRestarts(services: Services, states: seq<State>, events: seq<Event>,
                                                 u: nat, n: nat, name: string)
    requires Barrier(services) && IsRun(services, states, events) && u <= n <= |events|
    requires name in {"postgres", "storage-recovery"} && states[u](name).Exited?
    ensures Up(states[n](name)) ==> exists k :: u <= k < n && events[k] == Start(name)
    decreases n
  {
    if n > u {
      OnlySchedulerRestarts(services, states, events, u, n - 1, name);
      assert Next(services, states[n - 1], events[n - 1], states[n]);
    }
  }
}
