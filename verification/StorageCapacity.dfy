/** The byte limit the development attestor derives from a mounted volume
    (scripts/storage_capacity_development.py), the production inequalities over the same numbers
    (scripts/check_external_production.py), and what the limit protects while writers run. */
module StorageCapacity {

  datatype Error =
    | NotADirectory
    | NoUsableCapacity
    | CommittedInvalid
    | LacksFreeCapacity
    | NotReconciled
    | HeadroomConsumesVolume

  datatype Result<+T> = Ok(value: T) | Err(error: Error)

  /** What `statvfs` says of the volume: fragment size, blocks, blocks available. */
  datatype Volume = Volume(isDirectory: bool, frsize: nat, blocks: nat, bavail: nat)

  datatype Space = Space(total: nat, available: nat)

  datatype Config = Config(provisioned: int, metadata: int, emergency: int, headroom: int, byteLimit: int)

  const MAX_DATABASE_INTEGER: int := 0x7fff_ffff_ffff_ffff

  function FilesystemCapacity(v: Volume): Result<Space> {
    if !v.isDirectory then Err(NotADirectory)
    else
      var total, available := v.frsize * v.blocks, v.frsize * v.bavail;
      if total <= 2 || available > total then Err(NoUsableCapacity)
      else Ok(Space(total, available))
  }

  /** One percent of the volume, at least a byte: the safety margin and the emergency reserve. */
  function Margin(total: nat): (margin: nat)
    ensures 1 <= margin && total < 100 * margin + 100
    ensures margin > 1 ==> 100 * margin <= total
  {
    if total / 100 > 1 then total / 100 else 1
  }

  function OperatorConfig(v: Volume, committed: int): Result<Config> {
    if committed < 0 then Err(CommittedInvalid)
    else
      match FilesystemCapacity(v)
      case Err(error) => Err(error)
      case Ok(space) =>
        var safety, emergency := Margin(space.total), Margin(space.total);
        var growth := space.available - emergency - safety;
        if growth <= 0 then Err(LacksFreeCapacity)
        else
          var byteLimit := committed + growth;
          var metadata := space.total - byteLimit - emergency;
          if metadata <= 0 then Err(NotReconciled)
          else
            var headroom := metadata + emergency;
            if headroom >= space.total then Err(HeadroomConsumesVolume)
            else Ok(Config(space.total, metadata, emergency, headroom, byteLimit))
  }

  // ----- exactly when a volume is accepted

  /** A volume is accepted exactly when more than two margins are free and the ledger counts less
      than what is physically in use plus one margin; the headroom check never decides. */
  lemma AcceptedIff(v: Volume, committed: int)
    ensures var total, available := v.frsize * v.blocks, v.frsize * v.bavail;
            OperatorConfig(v, committed).Ok? <==>
              && v.isDirectory && committed >= 0 && 2 < total && available <= total
              && 2 * Margin(total) < available && committed < (total - available) + Margin(total)
    ensures OperatorConfig(v, committed) != Err(HeadroomConsumesVolume)
  {
  }

  /** Which error it is otherwise: the first of these that applies. */
  lemma RefusedBecause(v: Volume, committed: int)
    ensures var total, available, r := v.frsize * v.blocks, v.frsize * v.bavail, OperatorConfig(v, committed);
            if committed < 0 then r == Err(CommittedInvalid)
            else if !v.isDirectory then r == Err(NotADirectory)
            else if total < 3 || total < available then r == Err(NoUsableCapacity)
            else if available <= 2 * Margin(total) then r == Err(LacksFreeCapacity)
            else if total - available + Margin(total) <= committed then r == Err(NotReconciled)
            else r.Ok?
  {
  }

  /** Conservation: every byte of the volume is either limit or headroom, and headroom is exactly
      its two reserved parts; what is committed is strictly below the limit. */
  lemma CapacityConserved(v: Volume, committed: int)
    requires OperatorConfig(v, committed).Ok?
    ensures var c := OperatorConfig(v, committed).value;
            && c.provisioned == v.frsize * v.blocks
            && c.headroom == c.metadata + c.emergency
            && c.byteLimit + c.headroom == c.provisioned
            && committed < c.byteLimit
            && c.byteLimit - committed == v.frsize * v.bavail - 2 * c.emergency
            && 0 < c.metadata && 0 < c.emergency
            && c.provisioned - 100 < 100 * c.emergency && (c.emergency > 1 ==> 100 * c.emergency <= c.provisioned)
  {
  }

  // ----- the production inequalities

  datatype Issue = NotDatabaseInteger | HeadroomUnequal | LimitExceedsUsable

  predicate DatabaseInteger(n: int) {
    1 <= n <= MAX_DATABASE_INTEGER
  }

  method ProductionIssues(c: Config, objectLimit: int) returns (issues: seq<Issue>)
    ensures issues == [] <==>
      && DatabaseInteger(c.provisioned) && DatabaseInteger(c.metadata) && DatabaseInteger(c.emergency)
      && DatabaseInteger(c.headroom) && DatabaseInteger(c.byteLimit) && DatabaseInteger(objectLimit)
      && c.headroom == c.metadata + c.emergency
      && c.byteLimit + c.headroom <= c.provisioned
  {
    issues := [];
    if exists n :: n in [c.provisioned, c.metadata, c.emergency, c.headroom, c.byteLimit, objectLimit]
                   && !DatabaseInteger(n) {
      return [NotDatabaseInteger];
    }
    assert forall n :: n in [c.provisioned, c.metadata, c.emergency, c.headroom, c.byteLimit, objectLimit]
                       ==> DatabaseInteger(n);
    if c.headroom != c.metadata + c.emergency {
      issues := issues + [HeadroomUnequal];
    }
    if c.headroom >= c.provisioned || c.byteLimit > c.provisioned - c.headroom {
      issues := issues + [LimitExceedsUsable];
    }
  }

  /** A derived contract meets the production inequalities exactly when the volume's size is itself
      a database integer. */
  method DerivedContractPasses(v: Volume, committed: int, objectLimit: int) returns (issues: seq<Issue>)
    requires OperatorConfig(v, committed).Ok? && DatabaseInteger(objectLimit)
    ensures issues == [] <==> v.frsize * v.blocks <= 9_223_372_036_854_775_807
  {
    CapacityConserved(v, committed);
    issues := ProductionIssues(OperatorConfig(v, committed).value, objectLimit);
  }

  // ----- runs

  /** The volume and the ledger: bytes in use, bytes committed, and the limit in force, if any. */
  datatype State = State(total: nat, used: nat, committed: nat, limit: Limit)

  datatype Limit = Unattested | Attested(bytes: int)

  /** The volume as `statvfs` reports it with one-byte fragments. */
  function Seen(s: State): Volume
    requires s.used <= s.total
  {
    Volume(true, 1, s.total, s.total - s.used)
  }

  datatype Action =
    /** A writer changes the ledger by `ledger` and the disk by `disk`. */
    | Write(ledger: int, disk: int)
    | Attest

  /** A write may grow the ledger only up to the limit in force; attesting replaces the limit, or
      withdraws it when the volume is not accepted. */
  ghost predicate Next(s: State, a: Action, t: State)
    requires s.used <= s.total
  {
    && t.total == s.total
    && match a
       case Write(ledger, disk) =>
         && t.committed == s.committed + ledger && t.used == s.used + disk && t.limit == s.limit
         && (ledger > 0 ==> s.limit.Attested? && t.committed <= s.limit.bytes)
       case Attest =>
         && t.committed == s.committed && t.used == s.used
         && t.limit == match OperatorConfig(Seen(s), s.committed)
                       case Ok(c) => Attested(c.byteLimit)
                       case Err(_) => Unattested
  }

  /** Attesting leaves a limit exactly when two margins are free and the ledger counts less than what is
      in use plus one margin; the limit is what is committed and what is free beyond the margins. */
  lemma AttestationLimits(s: State, t: State)
    requires s.used <= s.total && Next(s, Attest, t)
    ensures t.limit == if 2 * Margin(s.total) < s.total - s.used && s.committed < s.used + Margin(s.total)
                       then Attested(s.committed + (s.total - s.used) - 2 * Margin(s.total)) else Unattested
  {
    var v := Seen(s);
    assert v.frsize * v.blocks == s.total && v.frsize * v.bavail == s.total - s.used;
    AcceptedIff(v, s.committed);
    if OperatorConfig(v, s.committed).Ok? {
      CapacityConserved(v, s.committed);
    }
  }

  /** The disk grows no faster than the ledger. */
  predicate Accounted(a: Action) {
    a.Write? ==> a.disk <= a.ledger
  }

  ghost predicate IsRun(states: seq<State>, actions: seq<Action>) {
    && |states| == |actions| + 1
    && forall i :: 0 <= i < |actions| ==>
         states[i].used <= states[i].total && Accounted(actions[i]) && Next(states[i], actions[i], states[i + 1])
  }

  /** Filling the ledger up to the limit would still leave both margins free. */
  predicate Protected(s: State) {
    s.limit.Attested? ==> s.used + (s.limit.bytes - s.committed) + 2 * Margin(s.total) <= s.total
  }

  /** Filled or not, both margins are free. */
  predicate MarginsFree(s: State) {
    s.used + 2 * Margin(s.total) <= s.total
  }

  lemma StepProtects(s: State, a: Action, t: State)
    requires s.used <= s.total && Protected(s) && Accounted(a) && Next(s, a, t)
    ensures Protected(t)
    ensures t.limit.Attested? && t.committed <= t.limit.bytes ==> MarginsFree(t)
  {
    if a.Attest? {
      var v := Seen(s);
      assert v.frsize * v.blocks == s.total && v.frsize * v.bavail == s.total - s.used;
    }
  }

  /** Throughout a run from an unattested start, however writes and attestations interleave, a
      ledger within its limit leaves the emergency reserve and the safety margin free. */
  lemma {:induction false} ReserveStaysFree(states: seq<State>, actions: seq<Action>, n: nat)
    requires IsRun(states, actions) && states[0].limit.Unattested? && n <= |actions|
    ensures Protected(states[n])
    ensures states[n].limit.Attested? && states[n].committed <= states[n].limit.bytes ==> MarginsFree(states[n])
  {
    if n > 0 {
      ReserveStaysFree(states, actions, n - 1);
      StepProtects(states[n - 1], actions[n - 1], states[n]);
    }
  }

  /** Once attested, the ledger stays within its limit until the next attestation withdraws it:
      only attestation can take the ledger past its limit, and it never does. */
  lemma {:induction false} LedgerStaysWithinLimit(states: seq<State>, actions: seq<Action>, n: nat)
    requires IsRun(states, actions) && states[0].limit.Unattested? && n <= |actions|
    ensures states[n].limit.Attested? ==> states[n].committed <= states[n].limit.bytes && MarginsFree(states[n])
  {
    if n > 0 {
      LedgerStaysWithinLimit(states, actions, n - 1);
      ReserveStaysFree(states, actions, n);
      var s := states[n - 1];
      assert Next(s, actions[n - 1], states[n]);
      if actions[n - 1].Attest? && states[n].limit.Attested? {
        CapacityConserved(Seen(s), s.committed);
      }
    }
  }

  // ----- attesting again

  /** Between two accepted attestations of one volume the limit moves by exactly what committed
      and available together moved: it stays where it was if and only if their sum did. */
  lemma ReattestationTracksSum(v: Volume, committed: int, w: Volume, later: int)
    requires OperatorConfig(v, committed).Ok? && OperatorConfig(w, later).Ok?
    requires v.frsize * v.blocks == w.frsize * w.blocks
    ensures var first, second := OperatorConfig(v, committed).value, OperatorConfig(w, later).value;
            && second.byteLimit - first.byteLimit
               == (later + w.frsize * w.bavail) - (committed + v.frsize * v.bavail)
            && (second == first <==> later + w.frsize * w.bavail == committed + v.frsize * v.bavail)
  {
  }
}
