# Verification of Custombuild's release, backup and provisioning controls

This project models the operational scripts of Custombuild and proves what they are for: that a
backup is one consistent cut and never lets a writer out too early, that a content root identifies
its content, that a static check on source code implies a fact about the program, that a deploy
descriptor is unique, that provisioning can be repeated, and that several smaller algorithms
(traversals, geometry, privileges, capacity, start-up order) do what their documentation says.

`dafny verify dfyconfig.toml` checks everything. Every module stands for one script or one part of it.

| module | script | subject |
|---|---|---|
| `BackupWorld`, `BackupLogs`, `BackupFailClosed`, `BackupProtocol` | `scripts/compose_backup.py` | the backup call against a hostile container daemon |
| `DeadlineWaits` | `scripts/compose_backup.py` | the two polling loops |
| `GlobMatching`, `SourceWalk`, `ContentRoot` | `scripts/source_manifest.py` | ignore rules, the pruned walk, the Merkle root |
| `PredicateAnalyser`, `ExceptionPolicy`, `PolicyMeaning` | `scripts/release_readiness.py` | the return-expression analyser, the exception policy and ledger |
| `DeployDescriptor`, `DescriptorMeaning` | `scripts/deploy_descriptor.py` | rendering and verifying the deploy descriptor |
| `IdentityProvisioning`, `ProvisioningOutcomes` | `scripts/bootstrap_production_identity.py` | three operations on organizations, users, memberships, audit events |
| `RegistrationGeometry` | `scripts/live_acceptance.py` | registration pins and stock zones |
| `JsonPointers`, `ProfileDraft`, `ProfileMeaning` | `scripts/production_machine_profile.py` | pointers, stack traversals, finalisation of a draft |
| `RuntimeAcl` | `scripts/postgres_runtime_privileges.py` | the privilege rebuild as a program of SQL statements |
| `StorageCapacity` | `scripts/storage_capacity_development.py`, `scripts/check_external_production.py` | byte limits and reserves |
| `StartupBarrier` | `scripts/check_external_production.py` | start-up order under `depends_on` |
| `Ordering`, `PythonText`, `Wrappers` | | code-point order and sorting, stripping, an option type; shared by the others |

The modules called `...Meaning` and `ProvisioningOutcomes`, and the lemmas whose names end in `Iff`,
`Is` or `Means`, say in full, with every constant and every field written out and without the
predicates the operations share, what those operations accept and produce.

## How the systems are modelled

**Backup.** A run of `create_backup` is a conversation with a daemon: a function that sees the whole
past and answers each command. A command that succeeds has taken effect. A command that fails, or
during which something other than a `BackupError` is raised, leaves its containers *unsettled*: they
may start or stop at any later moment, or never. Anything that may write (the five writers, the
recovery job and the attestor) changes the database and the objects at will whenever it is or may be
running; stopping the object store may itself change objects. `BackupRun.Valid` holds between any
two commands of the call and says, among other things, that the log so far is *writer safe*
(`BackupWorld.ConductedMeans`): no worker was started and no service unpaused without a complete
gate and a fresh capacity refresh after the capture in the log before it. What a call sends is fixed
by predicates on its log alone: what quiescence must send next, where a phase fell short of its
clean sequence, what recovery sends, and what a rollback puts back. Reading files, writing the
archive and assembling the manifest are part of the command they belong to.

**Content root.** SHA-256 is a function with 32-byte results. The theorems name the messages that
were hashed and assume that no two of *these* collide, which is what a collision-resistant hash
gives in practice; the last theorem turns this round and hands over the collision.

**Analyser.** Python expressions have a semantics in which attribute reads, calls, expressions
outside the subset, and the truth and equality of objects may be anything: an object may claim to
equal `"PASS"`. Where a result needs it, `isinstance` and `str` are assumed to be the builtins unless
the function itself binds them; a string stands for any instance of `str` that keeps the equality of
strings. Bindings are those of the environment at the return.

**Descriptor, profile drafts.** JSON text, regular expressions and digests are functions taken as
given. The only law assumed of them is that parsing an encoding gives the value back.

**Provisioning.** The database is a value with the unique and foreign keys of
`services/api/app/models.py`; the session updates it in place, an insertion or update that breaks a
key fails at its flush, and the caller then rolls the transaction back. Memberships and audit events
are under row-level security: those of other organizations are not seen, though their keys are
taken. Identity keys, issuer hashes and audit ids are arbitrary functions; the one theorem that needs
audit ids of different organizations to differ says so.

**Privileges.** Statements act on a set of grants and a set of default grants as PostgreSQL
documents them: defaults of one schema add to those for all schemas and cannot take them away. A
statement fails when an object or a role that it names does not exist.

## Findings

- `wait_for_s3_readiness` promises to wait within one wall-clock budget. It does, whatever the probes
  do, exactly when the budget is at most one second (`DeadlineWaits.BudgetKeptIff`). With two seconds
  or more a run whose first probe takes 0.96 s, whose next probes fail at once and whose last probe
  times out in both phases ends 0.06 s late (`DeadlineWaits.LateRun`), because a probe begun shortly
  before the deadline still gets 0.05 s for each phase; 0.1 s is the most it can be late.
- The analyser accepts `result_json.get(key, default)`. An accepted return can therefore be true for
  a mapping that has neither key (`PredicateAnalyser.DefaultsCanAnswer`). It also takes any call whose
  last name is `isinstance` for the string check, so `helper.isinstance(result_json["dfm_status"], str)`
  is accepted, and so is a function that binds `isinstance` itself; the status may then be an object
  that merely claims to equal a safe status. An accepted return vouches for every mapping if some
  string check is a call of the plain name, which the function does not bind, and every default is a
  literal that would not itself pass (`PredicateAnalyser.HarmlessDefaultsVouch`). For returns made of
  the three checks this is exact (`PredicateAnalyser.VouchesIff`). For a given mapping the exact
  condition is that both keys are present (`PredicateAnalyser.EntriesSafeIffPresent`).
- `_flatten_conjunction` does not terminate on `a = a and b` (`PredicateAnalyser.CycleNeverTerminates`).
  It terminates exactly when no name that is reachable from the expression through conjunctions
  reaches itself (`PredicateAnalyser.TerminatesIffRanked`); other cycles are harmless.
- The tree under the content root does not identify its leaves: repeating the last of an odd number
  of leaves leaves it unchanged. `ContentRoot.SameTreeIff` says exactly which sequences share a tree.
  The leaf count hashed into the root repairs this.
- A deploy descriptor may write `1` or `1.0` where the rendered one has `true`
  (`DeployDescriptor.OneIsAccepted`), because dictionaries are compared with `==`. That is the only
  freedom there is.
- Binding a legacy identity aborts at its flush when another user already holds the identity key,
  and running it again is refused when another user's identity equals the raw subject. Both
  conditions are exact, and both happen (`IdentityProvisioning.BindingAborts`, `RerunIsRefused`). Any
  of the three operations aborts when its audit id is held by another organization, whose event it
  cannot see (`BootstrapAborts`).
- The privilege rebuild withdraws default grants on tables and sequences for schema `public` only.
  A default for all schemas, if there was one, keeps opening new tables.
- The check `headroom >= total` in the development capacity contract never decides.

## Model

| member | source | states |
|---|---|---|
| BackupProtocol.BackupRun.CreateBackup | scripts/compose_backup.py:1038-1373 | for every daemon: the call returns, or raises the original error, exactly when the capture had begun, no later command failed and no worker's container was replaced; either way all five writers are up with no command left in doubt. A normal return means the clean sequence of commands ran and the backup is a consistent cut of the world in which the capture began. The original error is the first command that failed on the clean way, all failures of a quiescence that attempted every writer, or an inventory that did change. A failed recovery reports exactly one error for each failed command and its reason; it sent exactly its storage retry and refresh and resumed nothing, and after a capture all writers are then down for certain; or it put back exactly what was attempted, in reverse within each group, and if that worked at most the writer whose resume failed is in doubt. In every run the scheduler was let run only once all three workers were up and healthy, and the api only once the scheduler ran too; what a rollback puts back it puts back in the order api, scheduler, reaper, maintenance, worker |
| BackupProtocol.BackupRun.Issue | scripts/compose_backup.py:1070-1072 | one command against the adversary; keeps the invariant that no writer is ever resumed without a complete gate and a fresh refresh in the log before it, and can only be called for a resume when that justification is there |
| BackupProtocol.BackupRun.Quiesce | scripts/compose_backup.py:1085-1141 | unless interrupted, all five writers have been attempted fail-closed and nothing else was sent before the outcome is known, and all failures are reported in order; success means every pause, identification and stop succeeded in order |
| BackupProtocol.BackupRun.DrainWorker | scripts/compose_backup.py:1102-1139 | a worker is stopped, or killed, whether or not its container could be identified; a success records the container it was found in |
| BackupProtocol.BackupRun.PauseService | scripts/compose_backup.py:1086-1101 | the attempt is recorded first, and a failed pause is followed by stopping the service |
| BackupProtocol.BackupRun.StopOrKill | scripts/compose_backup.py:1114-1139 | a worker that cannot be stopped is killed, and every failure is reported |
| BackupProtocol.BackupRun.Capture | scripts/compose_backup.py:1155-1227 | success means that the inventory, the counts, the dump and the archive all describe the world in which the capture began, although storage was stopped and restarted in between; a failure is the first command that failed on the clean way, or an inventory that did change |
| BackupProtocol.BackupRun.Reattest | scripts/compose_backup.py:1233-1277 | sends the storage retry and then, if storage answers and the recovery job had completed, the refresh; after a capture writers may resume exactly when none of these commands failed, before a capture never; otherwise every failure and the first unmet condition are reported |
| BackupProtocol.BackupRun.RestoreStorage | scripts/compose_backup.py:1233-1259 | a store that may be down is started and then probed even if the start failed; it counts as available exactly when the probe succeeds, and each failure is an error |
| BackupProtocol.BackupRun.StartExactWorker | scripts/compose_backup.py:991-1016 | starts only the container recorded before the worker was stopped, and then waits for its health; if all its commands succeeded and it still failed, the container was another |
| BackupProtocol.BackupRun.ResumeWriters | scripts/compose_backup.py:1278-1336 | resumes workers, then scheduler, then api; if any step fails exactly the attempted ones are stopped or paused again, last first within each group and up to an interruption, and every failure is reported; the branch for a container that was never identified is unreachable |
| BackupProtocol.BackupRun.Recover | scripts/compose_backup.py:1228-1369 | resumes the writers exactly when the capture had begun, none of its own commands failed and every worker was found in its recorded container; otherwise it held every writer back or put back what it had attempted, and reports exactly that |
| BackupWorld.ConductedMeans | scripts/compose_backup.py:1270-1306 | between any two commands of a call the log is that of a possible run in which no writer was ever resumed without a complete gate, available storage and a fresh refresh after the capture before it |
| BackupWorld.FrozenDatabase | scripts/compose_backup.py:1155-1227 | once all actors are stopped for sure, no run of harmless commands changes the database |
| BackupWorld.ResumeFollowsSilence | scripts/compose_backup.py:1270-1306 | in every run, whenever a resume is justified there was an earlier moment, at the end of the gate, when nothing could write |
| BackupWorld.GateSilences | scripts/compose_backup.py:1085-1154 | a run whose commands are exactly the successful gate ends with no live and no unsettled actor, whatever the earlier world |
| BackupWorld.WritersRestored | scripts/compose_backup.py:1278-1306 | after a gate, harmless commands, a clean reattestation and a clean resume all five writers are live and nothing is in doubt |
| BackupFailClosed.HeldLeavesDown | scripts/compose_backup.py:1338-1363 | when recovery holds the writers back after the gate, none of them runs and none may yet start |
| BackupFailClosed.RollbackLeavesDown | scripts/compose_backup.py:1308-1336 | after a rollback whose commands all succeeded, at most the writer whose own start or unpause failed may run or yet start |
| BackupFailClosed.TurnComes | scripts/compose_backup.py:1278-1306 | when the resume reaches the scheduler all three workers are live, healthy and not in doubt; when it reaches the api the scheduler is live as well |
| BackupFailClosed.RolledBackInOrder | scripts/compose_backup.py:1308-1336 | a rollback pauses the api before the scheduler and both before any worker is stopped, workers last started first, and sends nothing else |
| BackupFailClosed.CleanCallIs | scripts/compose_backup.py:1038-1373 | a normal return is this sequence of thirty-seven commands, written out from the pause of the api to the manifest, all successful, and no other |
| BackupFailClosed.ResumeRestsOn | scripts/compose_backup.py:1270-1306 | behind every justified resume stand the thirteen successful commands of the gate and later the attestor's release and a complete refresh, with the store up at that point and nothing captured since |
| BackupFailClosed.StorageProvenSince | scripts/compose_backup.py:1233-1259 | where the store counts as available it was never stopped, or a probe succeeded after the last attempt to stop it |
| DeadlineWaits.WaitForReadiness | scripts/compose_backup.py:398-436 | ends no later than the deadline plus 0.1 s after at most as many rounds as seconds; ready means that the last round succeeded, ended the wait and all before failed; not ready means that every round that began before the deadline failed and the next would begin after it |
| DeadlineWaits.BudgetKeptIff | scripts/compose_backup.py:398-436 | the wait ends by its deadline for all probes exactly when the budget is at most one second |
| DeadlineWaits.LateRun | scripts/compose_backup.py:414-436 | for every longer budget, a run that ends 0.06 s late |
| DeadlineWaits.ProbeBound | scripts/compose_backup.py:414-432 | one probe outlives the deadline by at most 0.1 s, and not at all if 0.1 s was left |
| DeadlineWaits.RoundsAreSpaced | scripts/compose_backup.py:414-436 | however fast probes fail, rounds are at least a second apart until the deadline |
| DeadlineWaits.ProbeTakes | scripts/compose_backup.py:414-436 | each phase of a probe has five seconds, or half of what remains but at least 0.05 s; a probe succeeds exactly within these limits, is cut off at them, and a failed round is followed by a pause of one second that ends with the deadline |
| DeadlineWaits.RoundsComeRound | scripts/compose_backup.py:414-436 | however slow probes are, rounds are at most eleven seconds apart |
| DeadlineWaits.HangingRounds | scripts/compose_backup.py:414-436 | and exactly eleven when every probe hangs |
| DeadlineWaits.WaitForWorkerHealth | scripts/compose_backup.py:948-988 | never ends after its deadline; the verdict is that of the last inspection, which took place when it was due, within its budget unless cut off, after inspections that all reported a starting worker in time; or a time-out at the deadline, after at least one inspection and with less than a second left for another |
| DeadlineWaits.InspectionsComeRound | scripts/compose_backup.py:965-985 | inspections that find a starting worker are at most six seconds apart |
| DeadlineWaits.SlowInspections | scripts/compose_backup.py:965-985 | and exactly six when every report takes its five seconds |
| GlobMatching.MatchSegments | scripts/source_manifest.py:122-145 | the memoised matcher accepts a path exactly when it can be cut into runs, any run for `**` and one fitting segment for every other pattern segment |
| GlobMatching.Matcher.Matches | scripts/source_manifest.py:126-143 | every cache entry equals the relation at its positions, and no pair of positions is evaluated twice |
| GlobMatching.GlobIffCuts | scripts/source_manifest.py:122-145 | the recursive relation holds exactly when a cut of the path exists |
| GlobMatching.IsIgnored | scripts/source_manifest.py:157-168 | a path is ignored exactly when the last rule that hits it or one of its ancestors, in scanning order, is not a negation |
| GlobMatching.LastStrikeDecides | scripts/source_manifest.py:147-168 | segment by segment: a rule without a slash strikes by one segment at any depth, any other rule by a cut of the path down to that segment, a directory-only rule never strikes the last segment of what is no directory; the path is ignored exactly when the last strike is not a negation |
| GlobMatching.IgnoredIffStruck | scripts/source_manifest.py:147-168 | without negations a path is ignored exactly when some rule strikes some segment |
| GlobMatching.IgnoredBelow | scripts/source_manifest.py:157-168 | without negations everything below an ignored directory is ignored |
| SourceWalk.DiscoverPaths | scripts/source_manifest.py:281-324 | the pruned walk returns exactly the application inputs that are not ignored or belong to release control, each as often as a full walk would, sorted by path. By the text of the path: everything of the tree at or below `.github/workflows`, whatever the rules say, and of everything else exactly what is at or below one of the listed inputs and not ignored |
| SourceWalk.PrunedHoldsNothing | scripts/source_manifest.py:299-306 | a directory that is skipped holds nothing that would be kept |
| SourceWalk.ControlIsClosed | scripts/source_manifest.py:213-219 | what lies below a path outside release control is outside it too |
| SourceWalk.ApplicationInputIff | scripts/source_manifest.py:206-210 | a path is an application input exactly when its text is one of the twenty-one listed inputs or starts with one and a slash |
| SourceWalk.ReleaseControlIff | scripts/source_manifest.py:213-219 | the same for `.github/workflows`, what is below it, and the directories above it |
| SourceWalk.PrefixIffBelow | scripts/source_manifest.py:206-219 | one path is at or below another exactly when its text is the other's, or starts with it and a slash |
| SourceWalk.KeptExactly | scripts/source_manifest.py:281-324 | the full listing holds an entry exactly when it occurs in the tree and is kept |
| ContentRoot.MerkleRoot | scripts/source_manifest.py:637-655 | the level-by-level loop computes the hash of the root message over the recursive tree |
| ContentRoot.RootIdentifiesContent | scripts/source_manifest.py:637-655 | equal roots hold exactly for the same object format and the same sequence of paths, modes, contents and object ids, if no two of the hashed messages collide |
| ContentRoot.DifferentContentNeedsCollision | scripts/source_manifest.py:637-655 | two contents with one root exhibit two different hashed messages with one hash |
| ContentRoot.LeafInjective | scripts/source_manifest.py:740-749 | the length-framed leaf message determines path, mode, content and object id |
| ContentRoot.LeafReadsBack | scripts/source_manifest.py:740-749 | a reader that takes the domain, a length and the path, six bytes of mode, a length and the content gets these back, followed by the object format, a zero byte and the object id |
| ContentRoot.TreeInjective | scripts/source_manifest.py:643-651 | two levels of equal length under one top are equal, through all odd-duplicating levels |
| ContentRoot.HalvesMeet | scripts/source_manifest.py:643-651 | the tree over two halves of equal size, a power of two, is the hash of the node domain, the left tree and the right tree, in this order |
| ContentRoot.RootOfThree | scripts/source_manifest.py:637-655 | the root message over three leaves, byte by byte: root domain, format, zero, the count in eight bytes, and the tree in which the third leaf is its own partner |
| ContentRoot.TreeForgetsRepetition | scripts/source_manifest.py:643-651 | without the count the tree is not injective: repeating the last of an odd number of leaves keeps it |
| ContentRoot.SameTreeIff | scripts/source_manifest.py:643-651 | two sequences of leaf digests share a tree exactly when their trees are equally high and they are the same once spread out over the full binary tree, every last node without a partner standing twice |
| ContentRoot.SnapshotIsPlanted | scripts/source_manifest.py:637-655 | the leaves of every snapshot are such leaves |
| PredicateAnalyser.AcceptedReturnIsSafe | scripts/release_readiness.py:335-363 | if a return expression is accepted and evaluates to something truthy, then the geometry access evaluates to True and the status access to something equal to PASS or WARNING; unless all string checks are borrowed from some object, the checked access is a string, and where both readings agree it is PASS or WARNING |
| PredicateAnalyser.EntriesSafeIffPresent | scripts/release_readiness.py:215-232 | such a return vouches for the entries of a given mapping, True and the string PASS or WARNING, exactly when both keys are present |
| PredicateAnalyser.StringCheckMeans | scripts/release_readiness.py:318-333 | a plain string check that is truthy means that the access is a string |
| PredicateAnalyser.HarmlessDefaultsVouch | scripts/release_readiness.py:335-363 | any accepted return with a plain string check, whose defaults are literals that would not pass, vouches for the entries of every mapping in every environment |
| PredicateAnalyser.VouchesIff | scripts/release_readiness.py:335-363 | every return made of the three checks is accepted, whichever way the entries are read; it vouches for the entries of all mappings exactly when the string check is a call of the plain name, which the function does not bind, and no default would itself pass |
| PredicateAnalyser.AcceptedIffSaid | scripts/release_readiness.py:184-363 | whatever is held in names: an expression is accepted exactly when it stands for `False`, or has a conjunct `x is True` (either way round), a conjunct `isinstance(y, str)` and a conjunct `z in` a display of exactly PASS and WARNING, where x stands for a read of the geometry entry and y and z for reads of the status entry (if nothing is bound to `str`; acceptance always implies it) |
| PredicateAnalyser.NamedAccessesAreAccepted | scripts/release_readiness.py:184-363 | the three checks on accesses held in names are accepted |
| PredicateAnalyser.RepositoryReturnIsAccepted | services/api/app/api.py:3330-3338 | so is the predicate of the repository itself, with its bound status |
| PredicateAnalyser.DefaultsCanAnswer | scripts/release_readiness.py:222-229 | an accepted return with defaults is truthy on the empty mapping |
| PredicateAnalyser.FlattenKeepsTruth | scripts/release_readiness.py:311-315 | an expression is truthy exactly when all its flattened conjuncts are |
| PredicateAnalyser.ResolveKeepsValue | scripts/release_readiness.py:184-193 | following names to their bindings keeps the value, cyclic bindings included |
| PredicateAnalyser.ResolvesIff | scripts/release_readiness.py:184-193 | an expression resolves to whatever it stands for through names, if nothing is bound to that, and to nothing it does not stand for |
| PredicateAnalyser.StaticIsValue | scripts/release_readiness.py:101-107 | a literal evaluates to its static value in every environment |
| PredicateAnalyser.TerminatesIffRanked | scripts/release_readiness.py:311-315 | flattening terminates exactly when the names reachable from the expression through conjunctions can be ranked so that ranks fall along conjuncts |
| PredicateAnalyser.CycleNeverTerminates | scripts/release_readiness.py:311-315 | with `a = a and b` no depth suffices |
| ExceptionPolicy.ParsePolicy | scripts/release_readiness.py:2673-2732 | no issue means exactly: the lines are an empty list, or the header and one five-line block per returned key, in order and free of duplicates; with an issue, no list of keys matches the lines |
| ExceptionPolicy.ParseBlock | scripts/release_readiness.py:2696-2720 | a block gives its one key, or the issue names its first unreadable line and whether it is misshapen or empty |
| ExceptionPolicy.PolicyUnambiguous | scripts/release_readiness.py:2673-2732 | a policy file says at most one list of keys |
| ExceptionPolicy.PrintedPolicyIsExact | scripts/release_readiness.py:2673-2732 | a list of keys can be written as the lines of a policy text exactly when it is duplicate-free and every field is one line and not empty, and the printed policy says these keys |
| ExceptionPolicy.PrintAndParse | scripts/release_readiness.py:2666-2732 | printed keys parse back |
| ExceptionPolicy.CheckRecord | scripts/release_readiness.py:2792-2809 | no issue means exactly that the record is complete, of a known severity, with an HTTPS source and a review date that has not passed |
| ExceptionPolicy.CheckEntries | scripts/release_readiness.py:2778-2809 | the records are exactly the keys of the entries; no issue means every entry is complete and in force and no two share a key |
| ExceptionPolicy.Reconcile | scripts/release_readiness.py:2755-2816 | no issue at all means exactly: an exact policy, a ledger of complete unexpired records, and the same set of keys in both |
| PolicyMeaning.PolicyValueIff | scripts/release_readiness.py:2666-2670 | the value of a line is its text without outer spaces, and without one pair of equal quotes if it has them |
| PolicyMeaning.BlockIff | scripts/release_readiness.py:2684-2690 | the five lines of a block, in order, and which gives which part of the key |
| PolicyMeaning.KeyOfIff | scripts/release_readiness.py:2735-2752 | the key of a ledger entry is its four texts without outer spaces |
| PolicyMeaning.EntryGoodIff | scripts/release_readiness.py:2778-2809 | an entry is good exactly when ten named fields hold text, the severity is one of five, the source starts with https:// and the review date is not before today |
| PolicyMeaning.LedgerGoodIff | scripts/release_readiness.py:2768-2791 | a ledger is good exactly when it has the schema version and an array of good entries with different keys |
| PythonText.SpacesAre | scripts/release_readiness.py:2667-2744 | the twenty-nine characters that `str.strip` removes |
| PythonText.LineBreaksAre | scripts/release_readiness.py:2676-2680 | the ten characters at which `str.splitlines` breaks a text |
| PythonText.StripIff | scripts/release_readiness.py:2667-2744 | stripping removes exactly the spaces around a text that neither begins nor ends with one |
| PythonText.StripSplits | scripts/release_readiness.py:2667-2744 | what stripping leaves has no space at either end, and only spaces were removed |
| DeployDescriptor.VerifyBytes | scripts/deploy_descriptor.py:819-849 | accepts exactly the canonical, bounded bytes of a valid descriptor (what that says in full is `DescriptorMeaning.VerifiesIffSaid`) |
| DeployDescriptor.Render | scripts/deploy_descriptor.py:742-816 | returns the descriptor of the publications and expectations with the given images if it is valid and fits, and otherwise there is none |
| DeployDescriptor.Validate | scripts/deploy_descriptor.py:575-739 | the checks in their order, field by field and in loops, accept exactly the valid descriptors |
| DeployDescriptor.CheckFacts | scripts/deploy_descriptor.py:418-449 | accepts exactly when every application component, and no other, has evidence that says what the descriptor says |
| DeployDescriptor.CheckImages | scripts/deploy_descriptor.py:637-654 | accepts exactly when every image reference is the expected one and no two digests are the same |
| DeployDescriptor.ValidIsDescribed | scripts/deploy_descriptor.py:575-739 | a valid descriptor is the one determined by the evidence and the expectations, but for how its flag spells one |
| DeployDescriptor.DescribedIsValid | scripts/deploy_descriptor.py:575-739 | and conversely, with each of the three spellings |
| DeployDescriptor.AtMostOneDescriptor | scripts/deploy_descriptor.py:575-739 | two valid descriptors are equal as Python compares them, and identical if they spell the flag alike |
| DeployDescriptor.VerifiesIffDescribed | scripts/deploy_descriptor.py:819-849 | bytes verify exactly when they are the canonical bytes of the described descriptor in one of its spellings |
| DeployDescriptor.PolicyDetermined | scripts/deploy_descriptor.py:714-726 | a signing policy is accepted exactly when it is the expected one with the flag that denies self-hosted runners spelled true, 1 or 1.0 |
| DeployDescriptor.RolesDetermined | scripts/deploy_descriptor.py:710-712 | service roles are accepted exactly when they are the reviewed mapping |
| DeployDescriptor.RenderedVerifies | scripts/deploy_descriptor.py:742-849 | what is rendered names the published images whatever was asked for, and its canonical bytes verify |
| DeployDescriptor.VerifiedIsRendered | scripts/deploy_descriptor.py:742-849 | what verifies can be rendered, if it fits with its flag spelled true; both are equal as Python compares them, and have the same bytes exactly when the flag is literally true |
| DeployDescriptor.OneIsAccepted | scripts/deploy_descriptor.py:725-726 | a descriptor with 1 for true verifies and is not the rendered one |
| DescriptorMeaning.VerifiesIffSaid | scripts/deploy_descriptor.py:575-849 | bytes verify exactly when they are the canonical text, at most 128 KiB, of the twelve fields written out with their values, for a release for which every one of the four components has publication evidence of the thirteen fields written out with theirs, both verification flags literally true, all seven digests different, the reviewed images well formed, the expectations well formed and the release evidence accepted; the flag on self-hosted runners alone may be true, 1 or 1.0 |
| DescriptorMeaning.RendersIffSaid | scripts/deploy_descriptor.py:742-816 | rendering gives exactly those twelve fields with the flag literally true, only for a backed release and its own images, and only if the text fits |
| DescriptorMeaning.ClaimedIffPublished | scripts/deploy_descriptor.py:352-449 | evidence for a component is accepted exactly when it is the canonical text, at most 32 KiB, of an object of the thirteen fields with these values for some digest, configuration and archive |
| DescriptorMeaning.ReferenceIff | scripts/deploy_descriptor.py:277-284 | an image reference is read exactly where a lower-case name, one `@` and a digest are written |
| IdentityProvisioning.Session.BootstrapIdentity | scripts/bootstrap_production_identity.py:277-411 | queries, flushes and branches as one function of the database, under row-level security; fails at a flush only when another organization holds the audit id |
| IdentityProvisioning.Session.ProvisionMember | scripts/bootstrap_production_identity.py:414-543 | the same for a further designer or reviewer, who needs an administrator bound to the same issuer |
| IdentityProvisioning.Session.BindLegacyIdentity | scripts/bootstrap_production_identity.py:546-658 | the same for binding a legacy subject; aborts exactly when another user holds the identity key or another organization the audit id |
| IdentityProvisioning.Session.AllMemberships | scripts/bootstrap_production_identity.py:232-255 | reading one tenant after the other, under row-level security, finds every membership of the user and puts the tenant back |
| ProvisioningOutcomes.BootstrapOutcome | scripts/bootstrap_production_identity.py:277-411 | over the rows: created, aborted and unchanged exactly when written out (role owner or admin, no user bound to another issuer, no organization with the id or slug, no user with the id, identity key or e-mail, audit id free, or held elsewhere, or everything there as the request says); otherwise refused; and the rows a creation leaves |
| ProvisioningOutcomes.ProvisionOutcome | scripts/bootstrap_production_identity.py:414-543 | the same for a designer or reviewer, who needs the organization exactly and an owner or admin of it bound to the issuer |
| ProvisioningOutcomes.BindOutcome | scripts/bootstrap_production_identity.py:546-658 | the same for binding: the user alone under id, raw subject and e-mail, with this one membership, unbound, and its key held by nobody else |
| IdentityProvisioning.OneMembershipListed | scripts/bootstrap_production_identity.py:604-612 | the listing is one given membership exactly when the user has it and no other |
| IdentityProvisioning.RunKeepsInvariants | scripts/bootstrap_production_identity.py:277-658 | over every run of the three operations slugs, e-mails and identities stay unique, all bound users share one issuer, and no existing user gains a membership |
| IdentityProvisioning.RunAdvances | scripts/bootstrap_production_identity.py:277-658 | over every run nothing is lost or rewritten, users change only by being bound, new identities are identity keys, and whoever becomes bound shares the issuer of those already bound |
| IdentityProvisioning.SuccessLeavesOneIssuer | scripts/bootstrap_production_identity.py:258-274 | after a success the requested user is bound exactly as requested and no other issuer is left in the database |
| IdentityProvisioning.BootstrapIsIdempotent | scripts/bootstrap_production_identity.py:277-411 | run again after any further operations a successful bootstrap is unchanged, with the same audit id and no change of the database |
| IdentityProvisioning.ProvisionIsIdempotent | scripts/bootstrap_production_identity.py:414-543 | so is a successful provisioning |
| IdentityProvisioning.BindRerunIff | scripts/bootstrap_production_identity.py:546-658 | a successful binding run again after any further operations is unchanged exactly when nobody else has the raw subject as identity, and refused otherwise; either way it changes nothing |
| IdentityProvisioning.BindIsIdempotent | scripts/bootstrap_production_identity.py:546-658 | if the raw subject is no identity key it is always unchanged |
| IdentityProvisioning.LaterMemberTakesSubject | scripts/bootstrap_production_identity.py:576-588 | a member provisioned later whose identity key is the raw subject makes the repeated binding fail |
| IdentityProvisioning.RerunIsRefused | scripts/bootstrap_production_identity.py:576-588 | a run of three requests in which a successful binding is refused when repeated |
| IdentityProvisioning.AbortMeansKeyTaken | scripts/bootstrap_production_identity.py:277-658 | an operation aborts only if another organization holds its audit id, or, a binding of a raw subject, if somebody else holds the identity key |
| IdentityProvisioning.BindingAborts | scripts/bootstrap_production_identity.py:619-633 | a database on which a binding aborts on a taken identity key |
| IdentityProvisioning.BootstrapAborts | scripts/bootstrap_production_identity.py:353-401 | a database on which a bootstrap aborts on an audit id it cannot see |
| IdentityProvisioning.RunKeepsOwnAudits | scripts/bootstrap_production_identity.py:277-658 | if audit ids of different organizations differ, then over every run no operation but a binding on a taken identity key ever aborts |
| RegistrationGeometry.CheckPlan | scripts/live_acceptance.py:1391-1566 | accepts exactly the plans whose registrations satisfy every pin, stock, clamp and defect condition and are uniquely sorted |
| RegistrationGeometry.CheckRegistration | scripts/live_acceptance.py:1401-1562 | accepts exactly when all sheets are good, their indices ascend, every footprint is a clamp zone, and footprints meet no defect and no other clamp zone |
| RegistrationGeometry.CheckSheet | scripts/live_acceptance.py:1412-1517 | accepts exactly the sheets with a valid pin envelope, distinct points far enough apart and footprints inside the stock, and returns their footprints |
| RegistrationGeometry.CheckStocks | scripts/live_acceptance.py:1237-1310 | accepts exactly the stock rows with canonical identities, an unverified authority, a known grain direction, positive dimensions, fitting margins and distinct zones inside the sheet, uniquely sorted |
| RegistrationGeometry.PlanGoodIff | scripts/live_acceptance.py:1391-1566 | a plan is accepted exactly when stock ids ascend and each registration, in numbers and cells, says what `RegistrationGoodIff` says of a known stock |
| RegistrationGeometry.RegistrationGoodIff | scripts/live_acceptance.py:1401-1562 | sheets ascend and are good, zones lie on the stock, and the square around every pin is a clamp zone that shares no cell with a defect zone nor with a clamp zone that is no pin's square |
| RegistrationGeometry.SheetGoodIff | scripts/live_acceptance.py:1412-1517 | a sheet in numbers: any two pin centres are 100 mm and two half sides apart and every square lies on the stock; that points are distinct follows |
| RegistrationGeometry.StockGoodIff | scripts/live_acceptance.py:1256-1308 | a stock row in numbers and words |
| RegistrationGeometry.IntersectIffShareCell | scripts/live_acceptance.py:1224-1234 | the corner test on two rectangles with cells says exactly whether they share a unit cell |
| RegistrationGeometry.SheetFootprintsDisjoint | scripts/live_acceptance.py:1485-1495 | on an accepted sheet any two pin footprints share no cell and have 50 mm or more between them |
| RegistrationGeometry.FootprintsArePlaced | scripts/live_acceptance.py:1496-1553 | in an accepted plan every footprint lies inside its stock, is one of its clamp zones and shares no cell with a defect zone |
| RegistrationGeometry.ClampZonesAreFootprintsOrClear | scripts/live_acceptance.py:1554-1562 | each clamp zone of a registered stock is a footprint or shares no cell with any |
| RegistrationGeometry.PinStaysInFootprint | scripts/live_acceptance.py:1485-1503 | a round pin placed anywhere within its tolerance stays inside its footprint |
| JsonPointers.PointerReversible | scripts/production_machine_profile.py:675-681 | parsing a pointer built according to sections 3 and 4 of RFC 6901 gives its tokens back |
| JsonPointers.EscapeReversible | scripts/production_machine_profile.py:675-676 | escaping a token loses nothing |
| JsonPointers.EscapeByChar | scripts/production_machine_profile.py:675-676 | escaping goes character by character, a tilde becomes `~0`, a slash `~1` |
| JsonPointers.DecimalReads | scripts/production_machine_profile.py:679-681 | an index is written in decimal digits without leading zeros |
| JsonPointers.PointersDiffer | scripts/production_machine_profile.py:675-681 | pointers are equal exactly for equal tokens, so distinct nodes have distinct pointers |
| JsonPointers.PointerResolves | scripts/production_machine_profile.py:679-681 | a built pointer resolves to the node its tokens lead to |
| ProfileDraft.FindUnresolved | scripts/production_machine_profile.py:1104-1132 | the loop over an explicit stack reports exactly the recursive listing in sorted pre-order |
| ProfileDraft.ReportIsExact | scripts/production_machine_profile.py:1104-1132 | every reported pointer resolves to an unresolved fact, every such fact is reported, none twice |
| ProfileDraft.ListedIffUnresolved | scripts/production_machine_profile.py:1104-1132 | below any starting pointer a place is listed exactly when an unresolved fact stands there |
| ProfileDraft.FindTooDeep | scripts/production_machine_profile.py:1136-1155 | reports nothing exactly when no node lies deeper than 32, and otherwise a node at depth 33 under its own pointer |
| ProfileDraft.Finalise | scripts/production_machine_profile.py:1619-1730 | succeeds exactly when the draft passes its own checks and the design review approves its completion, and returns that completion, canonical, settled and under right digests; raises exactly when a finishable draft cannot be encoded; refuses a finishable draft only for its shape, its bindings or its semantics |
| ProfileDraft.CompletedIsRight | scripts/production_machine_profile.py:1717-1723 | the completed bytes are canonical, no deeper than 32, without unresolved facts and under the right payload and postprocessor digests |
| ProfileDraft.Validate | scripts/production_machine_profile.py:1532-1616 | for each finding, exactly when it is made: nesting before shape, then canonical form, digests and bindings one by one, semantics only after all else; no finding means exactly that everything is right |
| ProfileDraft.CheckDraft | scripts/production_machine_profile.py:1637-1716 | no finding means exactly that the draft can be finalised as far as its own content goes |
| ProfileMeaning.FinishableIff | scripts/production_machine_profile.py:1637-1716 | a draft can be finished exactly when it has these five members, written out with their values, is no deeper than 32, has no unresolved fact in its payload and leaves the one digest to be computed |
| ProfileMeaning.CompletesIff | scripts/production_machine_profile.py:1717-1725 | the finished bytes are the canonical text of the payload with its postprocessor's digest filled in, under the digest of the whole and the schema version, written out |
| ProfileMeaning.IntactIff | scripts/production_machine_profile.py:1532-1616 | profile bytes are intact exactly when they are canonical and both digests in them are those of what they stand for |
| ProfileMeaning.NoFindingIff | scripts/production_machine_profile.py:1532-1616 | what no finding means in full: canonical text of a profile with both parts and both right digests, no deeper than 32, of the closed shape, bound to the design review and executable |
| ProfileMeaning.ApprovedIff | scripts/production_machine_profile.py:1726-1731 | what is left to the design review once the bytes are right: shape, bindings and executability |
| ProfileMeaning.RightBytesIff | scripts/production_machine_profile.py:1717-1725 | right bytes are the canonical text of a profile with right digests, no deeper than 32, with nothing unresolved |
| RuntimeAcl.Statements | scripts/postgres_runtime_privileges.py:134-203 | the loops build the rebuild program, base privileges first and function grants after |
| RuntimeAcl.GroupTables | scripts/postgres_runtime_privileges.py:119-131 | one statement for each privilege tuple in use, over exactly the tables that have it |
| RuntimeAcl.GroupingIsExact | scripts/postgres_runtime_privileges.py:119-131 | grouping neither adds nor drops a grant, for any mapping |
| RuntimeAcl.RebuildIsExact | scripts/postgres_runtime_privileges.py:134-203 | from any starting privileges the completed program leaves exactly what the policy says plus what it does not govern |
| RuntimeAcl.UntrustedHoldExactly | scripts/postgres_runtime_privileges.py:134-203 | afterwards a runtime role or the attestor holds on tables, sequences, functions and the schema exactly what the policy maps for it; PUBLIC holds nothing but what it had on the schema other than CREATE; any other role keeps what it had and gains only what the policy maps |
| RuntimeAcl.WhichDefaultsStay | scripts/postgres_runtime_privileges.py:139-171 | exactly which default grants are left: none for untrusted roles and PUBLIC on tables and sequences of the schema and none to execute functions, all others as they were |
| RuntimeAcl.RebuildIsIdempotent | scripts/postgres_runtime_privileges.py:134-203 | running the program twice is running it once |
| RuntimeAcl.RebuildCompletesIff | scripts/postgres_runtime_privileges.py:134-203 | the program completes exactly when everything it names exists, roles included, and no table is mapped to an empty tuple |
| RuntimeAcl.LaterObjectsPrivate | scripts/postgres_runtime_privileges.py:139-171 | a function created later is executable by no runtime role and not by PUBLIC; a later table or sequence is closed to them exactly when no default for all schemas opened it |
| StorageCapacity.AcceptedIff | scripts/storage_capacity_development.py:47-85 | a volume is accepted exactly when more than two margins are free and the ledger counts less than the bytes in use plus one margin; the headroom check never decides |
| StorageCapacity.RefusedBecause | scripts/storage_capacity_development.py:47-85 | and otherwise which of the five errors it is |
| StorageCapacity.CapacityConserved | scripts/storage_capacity_development.py:68-85 | limit plus headroom is the volume, headroom is its two parts, and what is committed is below the limit |
| StorageCapacity.ProductionIssues | scripts/check_external_production.py:624-651 | no issue means exactly positive database integers, headroom equal to its parts, and limit plus headroom within the volume |
| StorageCapacity.DerivedContractPasses | scripts/check_external_production.py:634-651 | a derived contract passes exactly when the size of the volume is a database integer |
| StorageCapacity.ReserveStaysFree | scripts/storage_capacity_development.py:68-85 | over every run of writes and attestations in which the disk grows no faster than the ledger, filling the ledger up to the limit leaves reserve and margin free |
| StorageCapacity.LedgerStaysWithinLimit | scripts/storage_capacity_development.py:68-85 | and the ledger never exceeds the limit in force, so both stay free throughout |
| StorageCapacity.AttestationLimits | scripts/storage_capacity_development.py:68-85 | in a run an attestation leaves a limit exactly under that condition, and it is what is committed plus what is free beyond two margins of one percent |
| StorageCapacity.ReattestationTracksSum | scripts/storage_capacity_development.py:68-85 | the limit moves between attestations by exactly what committed plus available moved |
| StartupBarrier.BarrierIssues | scripts/check_external_production.py:435-663 | no dependency issue is raised exactly when the whole barrier is configured |
| StartupBarrier.BarrierMeans | scripts/check_external_production.py:433-663 | the barrier service by service: which twelve services must exist, which two never restart by themselves, which waits for which under which condition, and which restarts with which |
| StartupBarrier.WriterStartsBehindBarrier | scripts/check_external_production.py:652-663 | in every run of a scheduler that honours `depends_on`, between a moment when all was down and the start of a writer (named), PostgreSQL turned healthy, then the migration completed, then the recovery ran to completion, then the attestor started and turned healthy; the recovery and the attestor each started while storage was healthy and the stage before complete |
| StartupBarrier.RunningWriterIsBehindBarrier | scripts/check_external_production.py:652-663 | the same of any writer that is up, whether the scheduler or the engine started it last |
| StartupBarrier.DatabaseUpdateRaisesBarrier | scripts/check_external_production.py:208-221 | replacing PostgreSQL takes everything down with it, and no writer is up again before the barrier has been passed anew |
| StartupBarrier.UpdateSparesOthers | scripts/check_external_production.py:215-221 | what follows nothing is left alone when something else is replaced |
| StartupBarrier.OnlySchedulerRestarts | scripts/check_external_production.py:433-481 | after PostgreSQL or the storage recovery exited only the scheduler brings it up again |
| Ordering.LeqMeans | scripts/source_manifest.py:320-321 | a text comes before another exactly when it is a prefix of it or has the smaller code point at the first difference |

## Left out

- Subprocess, Git, Docker, S3, SQL and file-descriptor plumbing: abstract commands, an abstract database, a tree of names.
- `compose_backup.py`: building and verifying the manifest files, private output directories, and command-line parsing; the inventory is a map from keys to sizes and digests.
- BackupProtocol.BackupRun.CreateBackup: the archive is tied to the inventory of the captured objects, not to their bytes, because stopping storage may change objects and only sizes and digests are compared afterwards.
- DeadlineWaits.WaitForReadiness: time passes only in probes and sleeps; the interpreter's own time is not counted.
- `source_manifest.py`: text of `.dockerignore`, Dockerfile copy contracts, the stage-zero inventory of Git, comparisons of file state before and after hashing, and the one control file that is deliberately no leaf of the root.
- SourceWalk.DiscoverPaths: names that are not valid UTF-8 are an error in the source; the model's paths are texts, and code-point order stands for the order of their UTF-8 bytes.
- `release_readiness.py`: parsing Python, collecting the bindings of a function, keyword arguments, and the many other pattern checks.
- ExceptionPolicy.Reconcile: the order of messages within the duplicates and within each difference of keys, and their wording.
- `deploy_descriptor.py`: the content of the release evidence is one given predicate over its bytes and the digests it is compared with; the Compose environment and the registry overlay are not modelled.
- DeployDescriptor.Render: application images are given for the four components; another set of names is rejected by the source before anything else.
- `bootstrap_production_identity.py`: the formats of a request are one given predicate; locks, schema revision and command line are left out, and a refusal carries no message.
- `live_acceptance.py`: HTTP, threads, status tables and the remaining fields of the generation plan; rows arrive as typed records.
- `production_machine_profile.py`: the closed shape beyond what later checks rely on, the bindings to the design review and the toolpath semantics are given predicates; which of several too deep nodes is reported depends on member order, which the model fixes.
- `postgres_runtime_privileges.py`: sorting of statements and names, which the result does not depend on; grantors, column privileges, ownership and role membership of PostgreSQL.
- StorageCapacity.ReserveStaysFree: the loop that re-attests every five minutes is a step of the run; evidence files and signals are left out.
- `check_external_production.py`: all checks other than dependencies, restarts and capacity numbers.
- StartupBarrier.WriterStartsBehindBarrier: dependencies marked as not required are taken as no dependency at all.
- Scripts not modelled: `joint_retention_certifier.py`, `activate_joint_retention_registry.py`, `compile_cam_candidate.py`, `verify_cam_candidate.py`, `design_review_gate.py`, `release_evidence_gate.py`, `restore_drill.py`, `backup_freshness.py`; they are flat field checks or rest on packages not part of this model.
