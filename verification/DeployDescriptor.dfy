/** The deploy descriptor of scripts/deploy_descriptor.py: rendering, verification, and why the
    verifier accepts nothing but what is rendered, up to Python's equality of numbers. */
module DeployDescriptor {

  import opened Wrappers

  // ----- JSON

  /** Member names that mean something here; any other text is `Other`. */
  datatype Name =
    | SCHEMA_VERSION | REPOSITORY | GIT_REVISION | SOURCE_MANIFEST | RELEASE_EVIDENCE | RELEASE_WORKFLOW
    | IMAGES | CONFIG_DIGESTS | ARCHIVE_DIGESTS | PUBLICATION_DIGESTS | ROLES | SIGNING_POLICY
    | SHA256 | RUN_ID | RUN_ATTEMPT | WORKFLOW_PATH | SOURCE_REF
    | COSIGN | GITHUB_ATTESTATIONS | CERTIFICATE_IDENTITY | CERTIFICATE_ISSUER
    | SIGNER_WORKFLOW | SOURCE_DIGEST | DENY_SELF_HOSTED
    | COMPONENT | WORKFLOW_RUN_ID | WORKFLOW_RUN_ATTEMPT | REGISTRY_IMAGE | REGISTRY_DIGEST
    | IMAGE_CONFIG_DIGEST | ARCHIVE_SHA256 | COSIGN_VERIFIED | ATTESTATION_VERIFIED
    | API | WORKER | WEB | SEAWEEDFS | POSTGRES | REDIS | VOLUME_INIT
    | MIGRATE | STORAGE_RECOVERY | CAPACITY_ATTESTOR | MAINTENANCE_WORKER | REAPER_WORKER | SCHEDULER
    | OBJECT_STORAGE | OBJECT_STORAGE_INIT
    | Other(text: string)

  /** `Whole(n)` is the fraction written with a point whose value is the integer n. */
  datatype Json =
    | Null
    | Bool(b: bool)
    | Int(n: int)
    | Whole(w: int)
    | Fraction(f: real)
    | Str(s: string)
    | Array(items: seq<Json>)
    | Object(members: map<Name, Json>)

  predicate Numeric(v: Json) {
    v.Bool? || v.Int? || v.Whole?
  }

  function Number(v: Json): int
    requires Numeric(v)
  {
    match v
    case Bool(b) => if b then 1 else 0
    case Int(n) => n
    case Whole(w) => w
  }

  /** Python `==`: numbers by value, containers member by member. */
  predicate PyEq(a: Json, b: Json) {
    if Numeric(a) && Numeric(b) then Number(a) == Number(b)
    else if a.Array? && b.Array? then
      |a.items| == |b.items| && forall i :: 0 <= i < |a.items| ==> PyEq(a.items[i], b.items[i])
    else if a.Object? && b.Object? then
      a.members.Keys == b.members.Keys && forall k :: k in a.members ==> PyEq(a.members[k], b.members[k])
    else a == b
  }

  // ----- what is taken as given

  type Bytes = seq<int>
  type Objects = map<Name, Json>

  /** The regular expressions, lower-casing, JSON text, SHA-256, and the content of the release
      evidence, which is bound by its digest and checked apart; and the three reviewed runtime images. */
  datatype Given = Given(
    isRepository: string -> bool,
    isRevision: string -> bool,
    isSha256: string -> bool,
    isImageName: string -> bool,
    isDigest: string -> bool,
    lower: string -> string,
    parse: Bytes -> Option<Json>,
    encode: Json -> Option<Bytes>,
    sha256: Bytes -> string,
    releaseAccepted: (Bytes, string, string, PerApp, string, string, string) -> bool,
    postgres: string,
    redis: string,
    volumeInit: string)

  /** Parsing what was encoded gives it back. */
  ghost predicate Faithful(g: Given) {
    forall v :: g.encode(v).Some? ==> g.parse(g.encode(v).value) == Some(v) && g.encode(v).value != []
  }

  datatype Evidence = Evidence(release: Bytes, publications: map<Name, Bytes>)

  datatype Expected = Expected(repository: string, revision: string, manifest: string, runId: int, runAttempt: int)

  const MAX_DESCRIPTOR := 128 * 1024
  const MAX_PUBLICATION := 32 * 1024
  const MAX_INTEGER := 9_223_372_036_854_775_807

  const DESCRIPTOR_SCHEMA := "custombuild.deploy-descriptor.v3"
  const PUBLICATION_SCHEMA := "custombuild.published-image.v2"
  const EVIDENCE_SCHEMA := "custombuild.release-readiness-evidence.v2"
  const WORKFLOW := ".github/workflows/cd.yml"
  const SOURCE := "refs/heads/main"
  const ISSUER := "https://token.actions.githubusercontent.com"

  const POLICY_KEYS: set<Name> := {COSIGN, GITHUB_ATTESTATIONS}
  const ATTESTATION_KEYS: set<Name> := {REPOSITORY, SIGNER_WORKFLOW, SOURCE_REF, SOURCE_DIGEST, DENY_SELF_HOSTED}

  // ----- components

  predicate IsApplication(c: Name) {
    c.API? || c.WORKER? || c.WEB? || c.SEAWEEDFS?
  }

  predicate IsPinned(c: Name) {
    c.POSTGRES? || c.REDIS? || c.VOLUME_INIT?
  }

  predicate IsComponent(c: Name) {
    IsApplication(c) || IsPinned(c)
  }

  const APPLICATION: seq<Name> := [API, WORKER, WEB, SEAWEEDFS]
  const PINNED: seq<Name> := [POSTGRES, REDIS, VOLUME_INIT]

  function Text(component: Name): string {
    match component
    case API => "api"
    case WORKER => "worker"
    case WEB => "web"
    case SEAWEEDFS => "seaweedfs"
    case POSTGRES => "postgres"
    case REDIS => "redis"
    case VOLUME_INIT => "volume-init"
    case _ => ""
  }

  /** Which image each service runs. */
  const ROLE_COMPONENTS: Objects := map[
    API := Str("api"), MIGRATE := Str("api"), STORAGE_RECOVERY := Str("api"), CAPACITY_ATTESTOR := Str("api"),
    WORKER := Str("worker"), MAINTENANCE_WORKER := Str("worker"), REAPER_WORKER := Str("worker"),
    SCHEDULER := Str("worker"), WEB := Str("web"), OBJECT_STORAGE := Str("seaweedfs"),
    POSTGRES := Str("postgres"), REDIS := Str("redis"), OBJECT_STORAGE_INIT := Str("volume-init")]

  // ----- exact objects

  predicate HasKeys(v: Json, keys: set<Name>) {
    v.Object? && v.members.Keys == keys
  }

  /** The descriptor's fields. */
  datatype Root = Root(schema: Json, repository: Json, revision: Json, manifest: Json, evidence: Json,
                       workflow: Json, images: Json, configs: Json, archives: Json, hashes: Json, roles: Json,
                       policy: Json)

  function RootJson(r: Root): Json {
    Object(map[
      SCHEMA_VERSION := r.schema, REPOSITORY := r.repository, GIT_REVISION := r.revision,
      SOURCE_MANIFEST := r.manifest, RELEASE_EVIDENCE := r.evidence, RELEASE_WORKFLOW := r.workflow,
      IMAGES := r.images, CONFIG_DIGESTS := r.configs, ARCHIVE_DIGESTS := r.archives,
      PUBLICATION_DIGESTS := r.hashes, ROLES := r.roles, SIGNING_POLICY := r.policy])
  }

  function RootView(v: Json): Option<Root> {
    if !HasKeys(v, {SCHEMA_VERSION, REPOSITORY, GIT_REVISION, SOURCE_MANIFEST, RELEASE_EVIDENCE, RELEASE_WORKFLOW,
                    IMAGES, CONFIG_DIGESTS, ARCHIVE_DIGESTS, PUBLICATION_DIGESTS, ROLES, SIGNING_POLICY}) then None
    else
      var m := v.members;
      Some(Root(m[SCHEMA_VERSION], m[REPOSITORY], m[GIT_REVISION], m[SOURCE_MANIFEST], m[RELEASE_EVIDENCE],
                m[RELEASE_WORKFLOW], m[IMAGES], m[CONFIG_DIGESTS], m[ARCHIVE_DIGESTS], m[PUBLICATION_DIGESTS],
                m[ROLES], m[SIGNING_POLICY]))
  }

  /** One value for each application component. */
  datatype PerApp = PerApp(api: Json, worker: Json, web: Json, seaweedfs: Json) {
    function Get(c: Name): Json {
      match c
      case API => api
      case WORKER => worker
      case WEB => web
      case SEAWEEDFS => seaweedfs
      case _ => Null
    }
  }

  function AppJson(a: PerApp): Json {
    Object(map[API := a.api, WORKER := a.worker, WEB := a.web, SEAWEEDFS := a.seaweedfs])
  }

  function AppView(v: Json): Option<PerApp> {
    if !HasKeys(v, {API, WORKER, WEB, SEAWEEDFS}) then None
    else Some(PerApp(v.members[API], v.members[WORKER], v.members[WEB], v.members[SEAWEEDFS]))
  }

  /** One image for each component. */
  datatype Images = Images(apps: PerApp, postgres: Json, redis: Json, volumeInit: Json) {
    function Get(c: Name): Json {
      match c
      case POSTGRES => postgres
      case REDIS => redis
      case VOLUME_INIT => volumeInit
      case _ => apps.Get(c)
    }
  }

  function ImagesJson(i: Images): Json {
    Object(map[API := i.apps.api, WORKER := i.apps.worker, WEB := i.apps.web, SEAWEEDFS := i.apps.seaweedfs,
               POSTGRES := i.postgres, REDIS := i.redis, VOLUME_INIT := i.volumeInit])
  }

  function ImagesView(v: Json): Option<Images> {
    if !HasKeys(v, {API, WORKER, WEB, SEAWEEDFS, POSTGRES, REDIS, VOLUME_INIT}) then None
    else
      var m := v.members;
      Some(Images(PerApp(m[API], m[WORKER], m[WEB], m[SEAWEEDFS]), m[POSTGRES], m[REDIS], m[VOLUME_INIT]))
  }

  /** An object of exactly the required fields is its fields. */
  lemma RootExact(v: Json, r: Root)
    ensures RootView(v) == Some(r) <==> v == RootJson(r)
  {
    if RootView(v) == Some(r) {
      assert v.members == RootJson(r).members;
    }
  }

  lemma AppExact(v: Json, a: PerApp)
    ensures AppView(v) == Some(a) <==> v == AppJson(a)
  {
    if AppView(v) == Some(a) {
      assert v.members == AppJson(a).members;
    }
  }

  lemma ImagesExact(v: Json, i: Images)
    ensures ImagesView(v) == Some(i) <==> v == ImagesJson(i)
  {
    if ImagesView(v) == Some(i) {
      assert v.members == ImagesJson(i).members;
    }
  }

  /** What is said of one application component. */
  datatype Claim = Claim(image: Json, config: Json, archive: Json, hash: Json)

  /** What is said of all of them. */
  datatype Facts = Facts(images: PerApp, configs: PerApp, archives: PerApp, hashes: PerApp) {
    function Get(c: Name): Claim {
      Claim(images.Get(c), configs.Get(c), archives.Get(c), hashes.Get(c))
    }
  }

  lemma FactsEqual(a: Facts, b: Facts)
    requires forall c :: IsApplication(c) ==> a.Get(c) == b.Get(c)
    ensures a == b
  {
    assert a.Get(API) == b.Get(API) && a.Get(WORKER) == b.Get(WORKER);
    assert a.Get(WEB) == b.Get(WEB) && a.Get(SEAWEEDFS) == b.Get(SEAWEEDFS);
  }

  // ----- image references

  function FirstAt(s: string): (n: nat)
    ensures n <= |s| && '@' !in s[..n] && (n < |s| ==> s[n] == '@')
  {
    if s == "" || s[0] == '@' then 0 else 1 + FirstAt(s[1..])
  }

  datatype Reference = Reference(name: string, digest: string)

  /** Exactly one `@`, between a lower-case image name and a digest. */
  function ImageReference(g: Given, v: Json): (r: Option<Reference>)
    ensures r.Some? ==> v == Str(r.value.name + "@" + r.value.digest) && g.isDigest(r.value.digest)
  {
    if !v.Str? then None
    else
      var n := FirstAt(v.s);
      if n == |v.s| || '@' in v.s[n + 1..] then None
      else
        var name, digest := v.s[..n], v.s[n + 1..];
        assert v.s == name + "@" + digest;
        if g.isImageName(name) && g.isDigest(digest) then Some(Reference(name, digest)) else None
  }

  function ImageName(g: Given, repository: string, component: Name): string {
    "ghcr.io/" + g.lower(repository) + "-" + Text(component)
  }

  function Digest(g: Given, image: Json): string {
    match ImageReference(g, image)
    case None => ""
    case Some(reference) => reference.digest
  }

  // ----- publication evidence

  predicate PositiveInteger(n: int) {
    1 <= n <= MAX_INTEGER
  }

  predicate IsText(v: Json, accepts: string -> bool) {
    v.Str? && accepts(v.s)
  }

  predicate ExpectedGood(g: Given, e: Expected) {
    && g.isRepository(e.repository) && g.isRevision(e.revision) && g.isSha256(e.manifest)
    && PositiveInteger(e.runId) && PositiveInteger(e.runAttempt)
  }

  datatype Publication = Publication(
    schema: Json, component: Json, repository: Json, revision: Json, manifest: Json, runId: Json, runAttempt: Json,
    image: Json, digest: Json, config: Json, archive: Json, cosign: Json, attestation: Json)

  function PublicationView(v: Json): Option<Publication> {
    if !HasKeys(v, {SCHEMA_VERSION, COMPONENT, REPOSITORY, GIT_REVISION, SOURCE_MANIFEST, WORKFLOW_RUN_ID,
                    WORKFLOW_RUN_ATTEMPT, REGISTRY_IMAGE, REGISTRY_DIGEST, IMAGE_CONFIG_DIGEST, ARCHIVE_SHA256,
                    COSIGN_VERIFIED, ATTESTATION_VERIFIED}) then None
    else
      var m := v.members;
      Some(Publication(m[SCHEMA_VERSION], m[COMPONENT], m[REPOSITORY], m[GIT_REVISION], m[SOURCE_MANIFEST],
                       m[WORKFLOW_RUN_ID], m[WORKFLOW_RUN_ATTEMPT], m[REGISTRY_IMAGE], m[REGISTRY_DIGEST],
                       m[IMAGE_CONFIG_DIGEST], m[ARCHIVE_SHA256], m[COSIGN_VERIFIED], m[ATTESTATION_VERIFIED]))
  }

  predicate PublicationValid(g: Given, e: Expected, component: Name, p: Publication) {
    && p.schema == Str(PUBLICATION_SCHEMA) && p.component == Str(Text(component))
    && p.repository == Str(e.repository) && p.revision == Str(e.revision) && p.manifest == Str(e.manifest)
    && p.runId == Int(e.runId) && p.runAttempt == Int(e.runAttempt)
    && var image := ImageReference(g, p.image);
       && image.Some? && image.value.name == ImageName(g, e.repository, component)
       && p.digest == Str(image.value.digest)
       && IsText(p.config, g.isDigest) && IsText(p.archive, g.isSha256)
       && p.cosign == Bool(true) && p.attestation == Bool(true)
  }

  /** Non-empty, bounded, canonical bytes of an object. */
  function ParseCanonical(g: Given, data: Bytes, limit: nat): (r: Option<Json>)
    ensures r.Some? ==> r.value.Object? && g.encode(r.value) == Some(data) && |data| <= limit
  {
    if data == [] || |data| > limit then None
    else
      match g.parse(data)
      case None => None
      case Some(v) => if v.Object? && g.encode(v) == Some(data) then Some(v) else None
  }

  /** What the publication evidence of a component says, once parsed and checked. */
  function PublishedClaim(g: Given, ev: Evidence, e: Expected, c: Name): Option<Claim> {
    match PublicationOf(g, ev, e, c)
    case None => None
    case Some(p) => Some(Claim(p.image, p.config, p.archive, Str(g.sha256(ev.publications[c]))))
  }

  function PublicationOf(g: Given, ev: Evidence, e: Expected, c: Name): (r: Option<Publication>)
    ensures r.Some? ==> c in ev.publications && PublicationValid(g, e, c, r.value)
  {
    if c !in ev.publications then None
    else
      match ParseCanonical(g, ev.publications[c], MAX_PUBLICATION)
      case None => None
      case Some(v) =>
        match PublicationView(v)
        case None => None
        case Some(p) => if PublicationValid(g, e, c, p) then Some(p) else None
  }

  predicate ApplicationsOnly(ev: Evidence) {
    forall c :: c in ev.publications ==> IsApplication(c)
  }

  /** There is evidence for the application components only, and for each it says this. */
  ghost predicate IsFacts(g: Given, ev: Evidence, e: Expected, f: Facts) {
    ApplicationsOnly(ev) && forall c :: IsApplication(c) ==> PublishedClaim(g, ev, e, c) == Some(f.Get(c))
  }

  lemma FactsUnique(g: Given, ev: Evidence, e: Expected, a: Facts, b: Facts)
    requires IsFacts(g, ev, e, a) && IsFacts(g, ev, e, b)
    ensures a == b
  {
    forall c | IsApplication(c)
      ensures a.Get(c) == b.Get(c)
    {
      assert PublishedClaim(g, ev, e, c) == Some(a.Get(c));
    }
    FactsEqual(a, b);
  }

  lemma EveryApplication()
    ensures forall c :: IsApplication(c) <==> c in APPLICATION
    ensures forall c :: IsPinned(c) <==> c in PINNED
  {
    assert APPLICATION[0] == API && APPLICATION[1] == WORKER && APPLICATION[2] == WEB && APPLICATION[3] == SEAWEEDFS;
    assert PINNED[0] == POSTGRES && PINNED[1] == REDIS && PINNED[2] == VOLUME_INIT;
  }

  /** The loop over the application components. */
  method PublicationObjects(g: Given, ev: Evidence, e: Expected, components: seq<Name>)
      returns (ok: bool, result: map<Name, Publication>)
    ensures ok <==> forall c :: c in components ==> PublicationOf(g, ev, e, c).Some?
    ensures ok ==> forall c :: c in components ==> c in result && PublicationOf(g, ev, e, c) == Some(result[c])
  {
    result := map[];
    for i := 0 to |components|
      invariant forall c :: c in components[..i] ==> c in result && PublicationOf(g, ev, e, c) == Some(result[c])
    {
      var c := components[i];
      assert c in components && components[..i + 1] == components[..i] + [c];
      if c !in ev.publications {
        return false, map[];
      }
      var parsed := ParseCanonical(g, ev.publications[c], MAX_PUBLICATION);
      var view := if parsed.Some? then PublicationView(parsed.value) else None;
      if view.None? || !PublicationValid(g, e, c, view.value) {
        return false, map[];
      }
      result := result[c := view.value];
    }
    assert components[..|components|] == components;
    ok := true;
  }

  // ----- the descriptor that is rendered

  function Signer(e: Expected): string {
    e.repository + "/" + WORKFLOW
  }

  function SigningPolicy(e: Expected, deny: Json): Json {
    Object(map[
      COSIGN := Object(map[
        CERTIFICATE_IDENTITY := Str("https://github.com/" + Signer(e) + "@" + SOURCE),
        CERTIFICATE_ISSUER := Str(ISSUER)]),
      GITHUB_ATTESTATIONS := Object(map[
        REPOSITORY := Str(e.repository),
        SIGNER_WORKFLOW := Str(Signer(e)),
        SOURCE_REF := Str(SOURCE),
        SOURCE_DIGEST := Str(e.revision),
        DENY_SELF_HOSTED := deny])])
  }

  function ReleaseEvidence(g: Given, ev: Evidence): Json {
    Object(map[SCHEMA_VERSION := Str(EVIDENCE_SCHEMA), SHA256 := Str(g.sha256(ev.release))])
  }

  function ReleaseWorkflow(e: Expected): Json {
    Object(map[RUN_ID := Int(e.runId), RUN_ATTEMPT := Int(e.runAttempt),
               WORKFLOW_PATH := Str(WORKFLOW), SOURCE_REF := Str(SOURCE)])
  }

  /** Application images, and the reviewed runtime images beside them. */
  function AllImages(g: Given, apps: PerApp): Images {
    Images(apps, Str(g.postgres), Str(g.redis), Str(g.volumeInit))
  }

  /** The descriptor that says this, with this flag in the signing policy. */
  function Describe(g: Given, ev: Evidence, e: Expected, f: Facts, deny: Json): Root {
    Root(Str(DESCRIPTOR_SCHEMA), Str(e.repository), Str(e.revision), Str(e.manifest), ReleaseEvidence(g, ev),
         ReleaseWorkflow(e), ImagesJson(AllImages(g, f.images)), AppJson(f.configs), AppJson(f.archives),
         AppJson(f.hashes), Object(ROLE_COMPONENTS), SigningPolicy(e, deny))
  }

  // ----- the checks of the verifier

  predicate EvidenceGood(g: Given, ev: Evidence, v: Json) {
    && HasKeys(v, {SCHEMA_VERSION, SHA256})
    && v.members[SCHEMA_VERSION] == Str(EVIDENCE_SCHEMA) && v.members[SHA256] == Str(g.sha256(ev.release))
  }

  predicate WorkflowGood(e: Expected, v: Json) {
    && HasKeys(v, {RUN_ID, RUN_ATTEMPT, WORKFLOW_PATH, SOURCE_REF})
    && v.members[RUN_ID] == Int(e.runId) && v.members[RUN_ATTEMPT] == Int(e.runAttempt)
    && v.members[WORKFLOW_PATH] == Str(WORKFLOW) && v.members[SOURCE_REF] == Str(SOURCE)
  }

  function PinnedImage(g: Given, c: Name): string {
    match c
    case POSTGRES => g.postgres
    case REDIS => g.redis
    case VOLUME_INIT => g.volumeInit
    case _ => ""
  }

  predicate ImageGood(g: Given, e: Expected, c: Name, image: Json) {
    var found := ImageReference(g, image);
    && found.Some?
    && (IsApplication(c) ==> found.value.name == ImageName(g, e.repository, c))
    && (IsPinned(c) ==> ImageReference(g, Str(PinnedImage(g, c))) == found)
  }

  ghost predicate ImagesGood(g: Given, e: Expected, i: Images) {
    && (forall c :: IsComponent(c) ==> ImageGood(g, e, c, i.Get(c)))
    && forall a, b :: IsComponent(a) && IsComponent(b) && a != b ==> Digest(g, i.Get(a)) != Digest(g, i.Get(b))
  }

  predicate DigestsShaped(g: Given, f: Facts) {
    && IsText(f.configs.api, g.isDigest) && IsText(f.archives.api, g.isSha256) && IsText(f.hashes.api, g.isSha256)
    && IsText(f.configs.worker, g.isDigest) && IsText(f.archives.worker, g.isSha256) && IsText(f.hashes.worker, g.isSha256)
    && IsText(f.configs.web, g.isDigest) && IsText(f.archives.web, g.isSha256) && IsText(f.hashes.web, g.isSha256)
    && IsText(f.configs.seaweedfs, g.isDigest) && IsText(f.archives.seaweedfs, g.isSha256)
    && IsText(f.hashes.seaweedfs, g.isSha256)
  }

  predicate PolicyGood(e: Expected, policy: Json) {
    && HasKeys(policy, POLICY_KEYS)
    && HasKeys(policy.members[COSIGN], {CERTIFICATE_IDENTITY, CERTIFICATE_ISSUER})
    && HasKeys(policy.members[GITHUB_ATTESTATIONS], ATTESTATION_KEYS)
    && PyEq(policy, SigningPolicy(e, Bool(true)))
  }

  predicate ReleaseGood(g: Given, ev: Evidence, e: Expected, configs: PerApp, i: Images) {
    g.releaseAccepted(ev.release, e.revision, e.manifest, configs,
                      Digest(g, i.postgres), Digest(g, i.redis), Digest(g, i.volumeInit))
  }

  predicate HeadGood(g: Given, ev: Evidence, e: Expected, r: Root) {
    && ExpectedGood(g, e)
    && r.schema == Str(DESCRIPTOR_SCHEMA) && r.repository == Str(e.repository)
    && r.revision == Str(e.revision) && r.manifest == Str(e.manifest)
    && r.evidence == ReleaseEvidence(g, ev) && r.workflow == ReleaseWorkflow(e)
  }

  predicate RolesGood(roles: Json) {
    HasKeys(roles, ROLE_COMPONENTS.Keys) && PyEq(roles, Object(ROLE_COMPONENTS))
  }

  /** True, 1 and 1.0. */
  predicate TrueLike(v: Json) {
    Numeric(v) && Number(v) == 1
  }

  /** How a signing policy writes the flag that denies self-hosted runners. */
  function DenyFlag(policy: Json): Json {
    Member(Member(policy, GITHUB_ATTESTATIONS), DENY_SELF_HOSTED)
  }

  function Member(v: Json, name: Name): Json {
    if v.Object? && name in v.members then v.members[name] else Null
  }

  /** The one signing policy, its flag spelled as a one. */
  predicate PolicySpelled(e: Expected, policy: Json) {
    TrueLike(DenyFlag(policy)) && policy == SigningPolicy(e, DenyFlag(policy))
  }

  predicate Shaped(r: Root) {
    ImagesView(r.images).Some? && AppView(r.configs).Some? && AppView(r.archives).Some? && AppView(r.hashes).Some?
  }

  /** What the descriptor says of the application components. */
  function FactsIn(r: Root): Facts
    requires Shaped(r)
  {
    Facts(ImagesView(r.images).value.apps, AppView(r.configs).value, AppView(r.archives).value, AppView(r.hashes).value)
  }

  ghost predicate ComponentsGood(g: Given, ev: Evidence, e: Expected, i: Images, f: Facts) {
    ImagesGood(g, e, i) && DigestsShaped(g, f) && IsFacts(g, ev, e, f) && ReleaseGood(g, ev, e, f.configs, i)
  }

  ghost predicate Valid(g: Given, ev: Evidence, e: Expected, r: Root) {
    && HeadGood(g, ev, e, r) && Shaped(r)
    && ComponentsGood(g, ev, e, ImagesView(r.images).value, FactsIn(r))
    && r.roles == Object(ROLE_COMPONENTS) && PolicySpelled(e, r.policy)
  }

  // ----- the same checks, in the order the verifier makes them

  /** One loop over components, adding their digests. */
  method ImageLoop(g: Given, e: Expected, i: Images, components: seq<Name>, before: map<Name, string>)
      returns (ok: bool, digests: map<Name, string>)
    requires forall c :: c in before ==> before[c] == Digest(g, i.Get(c))
    ensures ok <==> forall c :: c in components ==> ImageGood(g, e, c, i.Get(c))
    ensures forall c :: c in digests ==> digests[c] == Digest(g, i.Get(c))
    ensures ok ==> forall c :: c in digests <==> c in before || c in components
  {
    digests := before;
    for k := 0 to |components|
      invariant forall c :: c in components[..k] ==> ImageGood(g, e, c, i.Get(c))
      invariant forall c :: c in digests ==> digests[c] == Digest(g, i.Get(c))
      invariant forall c :: c in digests <==> c in before || c in components[..k]
    {
      var component := components[k];
      assert components[..k + 1] == components[..k] + [component];
      if !ImageGood(g, e, component, i.Get(component)) {
        assert component in components;
        return false, digests;
      }
      digests := digests[component := Digest(g, i.Get(component))];
    }
    assert components[..|components|] == components;
    ok := true;
  }

  /** Two loops fill the digests of the images; then no two may be the same. */
  method CheckImages(g: Given, e: Expected, i: Images) returns (ok: bool)
    ensures ok <==> ImagesGood(g, e, i)
  {
    EveryApplication();
    var digests: map<Name, string>;
    ok, digests := ImageLoop(g, e, i, APPLICATION, map[]);
    if ok {
      ok, digests := ImageLoop(g, e, i, PINNED, digests);
    }
    if ok {
      assert forall c :: c in digests <==> IsComponent(c);
      ok := forall a, b :: a in digests && b in digests && a != b ==> digests[a] != digests[b];
    }
  }

  /** A publication against what the descriptor says of its component. */
  predicate Agrees(g: Given, ev: Evidence, c: Name, p: Publication, claim: Claim) {
    && c in ev.publications
    && p.image == claim.image && p.digest == Str(Digest(g, claim.image))
    && p.config == claim.config && p.archive == claim.archive
    && claim.hash == Str(g.sha256(ev.publications[c]))
  }

  method CrossCheck(g: Given, ev: Evidence, f: Facts, components: seq<Name>, publications: map<Name, Publication>)
      returns (ok: bool)
    requires forall c :: c in components ==> c in publications
    ensures ok <==> forall c :: c in components ==> Agrees(g, ev, c, publications[c], f.Get(c))
  {
    for k := 0 to |components|
      invariant forall c :: c in components[..k] ==> Agrees(g, ev, c, publications[c], f.Get(c))
    {
      var c := components[k];
      assert c in components && components[..k + 1] == components[..k] + [c];
      if !Agrees(g, ev, c, publications[c], f.Get(c)) {
        return false;
      }
    }
    assert components[..|components|] == components;
    ok := true;
  }

  lemma AgreesIffClaimed(g: Given, ev: Evidence, e: Expected, c: Name, p: Publication, claim: Claim)
    requires PublicationOf(g, ev, e, c) == Some(p)
    ensures Agrees(g, ev, c, p, claim) <==> PublishedClaim(g, ev, e, c) == Some(claim)
  {
  }

  method CheckFacts(g: Given, ev: Evidence, e: Expected, f: Facts) returns (ok: bool)
    ensures ok <==> IsFacts(g, ev, e, f)
  {
    if !ApplicationsOnly(ev) {
      return false;
    }
    EveryApplication();
    var publications;
    ok, publications := PublicationObjects(g, ev, e, APPLICATION);
    if !ok {
      return false;
    }
    ok := CrossCheck(g, ev, f, APPLICATION, publications);
    forall c | IsApplication(c)
      ensures Agrees(g, ev, c, publications[c], f.Get(c)) <==> PublishedClaim(g, ev, e, c) == Some(f.Get(c))
    {
      AgreesIffClaimed(g, ev, e, c, publications[c], f.Get(c));
    }
  }

  method CheckComponents(g: Given, ev: Evidence, e: Expected, i: Images, f: Facts) returns (ok: bool)
    ensures ok <==> ComponentsGood(g, ev, e, i, f)
  {
    ok := CheckImages(g, e, i);
    if !ok || !DigestsShaped(g, f) {
      return false;
    }
    ok := CheckFacts(g, ev, e, f);
    ok := ok && ReleaseGood(g, ev, e, f.configs, i);
  }

  /** The fields every check looks at by itself. */
  method CheckHead(g: Given, ev: Evidence, e: Expected, r: Root) returns (ok: bool)
    ensures ok <==> HeadGood(g, ev, e, r)
  {
    if !ExpectedGood(g, e) || r.schema != Str(DESCRIPTOR_SCHEMA) || r.repository != Str(e.repository)
       || r.revision != Str(e.revision) || r.manifest != Str(e.manifest) {
      return false;
    }
    EvidenceDetermined(g, ev, e, r.evidence, r.workflow);
    return EvidenceGood(g, ev, r.evidence) && WorkflowGood(e, r.workflow);
  }

  /** The roles and the policy are compared as Python compares dictionaries. */
  method CheckRolesAndPolicy(e: Expected, roles: Json, policy: Json) returns (ok: bool)
    ensures ok <==> roles == Object(ROLE_COMPONENTS) && PolicySpelled(e, policy)
  {
    RolesDetermined(roles);
    PolicyDetermined(e, policy);
    return RolesGood(roles) && PolicyGood(e, policy);
  }

  method Validate(g: Given, ev: Evidence, e: Expected, r: Root) returns (ok: bool)
    ensures ok <==> Valid(g, ev, e, r)
  {
    ok := CheckHead(g, ev, e, r);
    if !ok || !Shaped(r) {
      return false;
    }
    ok := CheckComponents(g, ev, e, ImagesView(r.images).value, FactsIn(r));
    if ok {
      ok := CheckRolesAndPolicy(e, r.roles, r.policy);
    }
  }

  predicate Holds(g: Given, data: Bytes, r: Root) {
    ParseCanonical(g, data, MAX_DESCRIPTOR) == Some(RootJson(r))
  }

  /** Canonical, bounded bytes of a valid descriptor. */
  ghost predicate Verifies(g: Given, ev: Evidence, e: Expected, data: Bytes) {
    exists r :: Holds(g, data, r) && Valid(g, ev, e, r)
  }

  lemma HoldsOnly(g: Given, data: Bytes, r: Root)
    requires Holds(g, data, r)
    ensures forall other :: Holds(g, data, other) ==> other == r
  {
    forall other | Holds(g, data, other)
      ensures other == r
    {
      RootExact(RootJson(r), r);
      RootExact(RootJson(other), other);
    }
  }

  method VerifyBytes(g: Given, ev: Evidence, e: Expected, data: Bytes) returns (descriptor: Option<Root>)
    ensures descriptor.Some? <==> Verifies(g, ev, e, data)
    ensures descriptor.Some? ==> Holds(g, data, descriptor.value) && Valid(g, ev, e, descriptor.value)
  {
    descriptor := ReadRoot(g, data);
    if descriptor.Some? {
      HoldsOnly(g, data, descriptor.value);
      var ok := Validate(g, ev, e, descriptor.value);
      if !ok {
        return None;
      }
    }
  }

  method ReadRoot(g: Given, data: Bytes) returns (root: Option<Root>)
    ensures root.Some? ==> Holds(g, data, root.value)
    ensures root.None? ==> forall r :: !Holds(g, data, r)
  {
    var parsed := ParseCanonical(g, data, MAX_DESCRIPTOR);
    if parsed.None? {
      return None;
    }
    root := RootView(parsed.value);
    if root.Some? {
      RootExact(parsed.value, root.value);
    } else {
      forall r ensures parsed.value != RootJson(r) { RootExact(parsed.value, r); }
    }
  }

  predicate Fits(g: Given, d: Json) {
    g.encode(d).Some? && |g.encode(d).value| <= MAX_DESCRIPTOR
  }

  /** Rendering for these application images gives this descriptor. */
  ghost predicate Renders(g: Given, ev: Evidence, e: Expected, apps: PerApp, r: Root) {
    && Valid(g, ev, e, r) && Fits(g, RootJson(r))
    && exists f :: IsFacts(g, ev, e, f) && r == Describe(g, ev, e, f.(images := apps), Bool(true))
  }

  function ToFacts(claims: map<Name, Claim>): (f: Facts)
    requires API in claims && WORKER in claims && WEB in claims && SEAWEEDFS in claims
    ensures forall c :: IsApplication(c) ==> f.Get(c) == claims[c]
  {
    var a, w, b, s := claims[API], claims[WORKER], claims[WEB], claims[SEAWEEDFS];
    Facts(PerApp(a.image, w.image, b.image, s.image), PerApp(a.config, w.config, b.config, s.config),
          PerApp(a.archive, w.archive, b.archive, s.archive), PerApp(a.hash, w.hash, b.hash, s.hash))
  }

  /** Gathers what the publications say. */
  method ReadFacts(g: Given, ev: Evidence, e: Expected) returns (facts: Option<Facts>)
    ensures facts.Some? ==> IsFacts(g, ev, e, facts.value)
    ensures facts.None? ==> forall f :: !IsFacts(g, ev, e, f)
  {
    if !ApplicationsOnly(ev) {
      return None;
    }
    EveryApplication();
    var ok, publications := PublicationObjects(g, ev, e, APPLICATION);
    if !ok {
      ghost var c :| c in APPLICATION && PublicationOf(g, ev, e, c).None?;
      assert PublishedClaim(g, ev, e, c).None?;
      return None;
    }
    var claims := map c | c in publications && c in ev.publications ::
      Claim(publications[c].image, publications[c].config, publications[c].archive, Str(g.sha256(ev.publications[c])));
    assert forall c :: IsApplication(c) ==> c in claims && PublishedClaim(g, ev, e, c) == Some(claims[c]);
    assert IsApplication(API) && IsApplication(WORKER) && IsApplication(WEB) && IsApplication(SEAWEEDFS);
    return Some(ToFacts(claims));
  }

  method Render(g: Given, ev: Evidence, e: Expected, apps: PerApp) returns (root: Option<Root>)
    ensures root.Some? ==> Renders(g, ev, e, apps, root.value)
    ensures root.None? ==> forall r :: !Renders(g, ev, e, apps, r)
  {
    if !ExpectedGood(g, e) {
      return None;
    }
    var facts := ReadFacts(g, ev, e);
    if facts.None? {
      return None;
    }
    forall f | IsFacts(g, ev, e, f)
      ensures f == facts.value
    {
      FactsUnique(g, ev, e, f, facts.value);
    }
    var described := Describe(g, ev, e, facts.value.(images := apps), Bool(true));
    var ok := Validate(g, ev, e, described);
    if !ok || !Fits(g, RootJson(described)) {
      return None;
    }
    return Some(described);
  }

  // ----- what the field-by-field comparisons amount to

  /** A member equal to a string as Python sees it is that string. */
  lemma MemberText(v: Json, w: Json, name: Name)
    requires v.Object? && w.Object? && PyEq(v, w) && name in w.members && w.members[name].Str?
    ensures name in v.members && v.members[name] == w.members[name]
  {
    assert name in v.members;
    assert PyEq(v.members[name], w.members[name]);
  }

  lemma AttestationsDetermined(e: Expected, v: Json)
    requires HasKeys(v, ATTESTATION_KEYS)
    requires PyEq(v, SigningPolicy(e, Bool(true)).members[GITHUB_ATTESTATIONS])
    ensures TrueLike(v.members[DENY_SELF_HOSTED])
    ensures v == SigningPolicy(e, v.members[DENY_SELF_HOSTED]).members[GITHUB_ATTESTATIONS]
  {
    var w := SigningPolicy(e, Bool(true)).members[GITHUB_ATTESTATIONS];
    MemberText(v, w, REPOSITORY);
    MemberText(v, w, SIGNER_WORKFLOW);
    MemberText(v, w, SOURCE_REF);
    MemberText(v, w, SOURCE_DIGEST);
    assert DENY_SELF_HOSTED in v.members;
    assert PyEq(v.members[DENY_SELF_HOSTED], w.members[DENY_SELF_HOSTED]);
    assert v.members == w.members[DENY_SELF_HOSTED := v.members[DENY_SELF_HOSTED]];
  }

  lemma CosignDetermined(e: Expected, v: Json)
    requires HasKeys(v, {CERTIFICATE_IDENTITY, CERTIFICATE_ISSUER})
    requires PyEq(v, SigningPolicy(e, Bool(true)).members[COSIGN])
    ensures v == SigningPolicy(e, Bool(true)).members[COSIGN]
  {
    var w := SigningPolicy(e, Bool(true)).members[COSIGN];
    assert forall k :: k in v.members ==> PyEq(v.members[k], w.members[k]);
    assert v.members == w.members;
  }

  /** The signing policy is accepted exactly when it is the expected one with its flag spelled as a
      one: true, 1 or 1.0. */
  lemma PolicyDetermined(e: Expected, policy: Json)
    ensures PolicyGood(e, policy) <==> PolicySpelled(e, policy)
  {
    if PolicyGood(e, policy) {
      PolicyFixed(e, policy);
    }
    if PolicySpelled(e, policy) {
      SpelledAlike(e, DenyFlag(policy), Bool(true));
    }
  }

  lemma PolicyFixed(e: Expected, policy: Json)
    requires PolicyGood(e, policy)
    ensures PolicySpelled(e, policy)
  {
    var expected := SigningPolicy(e, Bool(true));
    assert COSIGN in policy.members && GITHUB_ATTESTATIONS in policy.members;
    assert PyEq(policy.members[COSIGN], expected.members[COSIGN]);
    assert PyEq(policy.members[GITHUB_ATTESTATIONS], expected.members[GITHUB_ATTESTATIONS]);
    CosignDetermined(e, policy.members[COSIGN]);
    AttestationsDetermined(e, policy.members[GITHUB_ATTESTATIONS]);
    assert policy.members == SigningPolicy(e, DenyFlag(policy)).members;
  }

  lemma RolesDetermined(roles: Json)
    ensures RolesGood(roles) <==> roles == Object(ROLE_COMPONENTS)
  {
    if RolesGood(roles) {
      RolesFixed(roles);
    }
    PyEqReflexive(Object(ROLE_COMPONENTS));
  }

  lemma RolesFixed(roles: Json)
    requires RolesGood(roles)
    ensures roles == Object(ROLE_COMPONENTS)
  {
    RolesAreTexts();
    TextsFixed(roles, ROLE_COMPONENTS);
  }

  lemma RolesAreTexts()
    ensures forall k :: k in ROLE_COMPONENTS ==> ROLE_COMPONENTS[k].Str?
  {
  }

  /** A dictionary of texts is equal, as Python sees it, only to itself. */
  lemma TextsFixed(v: Json, texts: Objects)
    requires v.Object? && PyEq(v, Object(texts)) && forall k :: k in texts ==> texts[k].Str?
    ensures v == Object(texts)
  {
    forall k | k in texts
      ensures k in v.members && v.members[k] == texts[k]
    {
      MemberText(v, Object(texts), k);
    }
    assert v.members == texts;
  }

  lemma EvidenceDetermined(g: Given, ev: Evidence, e: Expected, evidence: Json, workflow: Json)
    ensures EvidenceGood(g, ev, evidence) <==> evidence == ReleaseEvidence(g, ev)
    ensures WorkflowGood(e, workflow) <==> workflow == ReleaseWorkflow(e)
  {
    if EvidenceGood(g, ev, evidence) {
      assert evidence.members == ReleaseEvidence(g, ev).members;
    }
    if WorkflowGood(e, workflow) {
      assert workflow.members == ReleaseWorkflow(e).members;
    }
  }

  lemma PinnedDetermined(g: Given, e: Expected, c: Name, image: Json)
    requires IsPinned(c) && ImageGood(g, e, c, image)
    ensures image == Str(PinnedImage(g, c))
  {
  }

  /** The images are the application images and the reviewed ones. */
  lemma ImagesDetermined(g: Given, e: Expected, i: Images)
    requires ImagesGood(g, e, i)
    ensures i == AllImages(g, i.apps)
  {
    assert ImageGood(g, e, POSTGRES, i.Get(POSTGRES)) && ImageGood(g, e, REDIS, i.Get(REDIS));
    assert ImageGood(g, e, VOLUME_INIT, i.Get(VOLUME_INIT));
    PinnedDetermined(g, e, POSTGRES, i.postgres);
    PinnedDetermined(g, e, REDIS, i.redis);
    PinnedDetermined(g, e, VOLUME_INIT, i.volumeInit);
  }

  lemma {:induction false} PyEqReflexive(v: Json)
    ensures PyEq(v, v)
  {
    if v.Array? {
      forall i | 0 <= i < |v.items| ensures PyEq(v.items[i], v.items[i]) { PyEqReflexive(v.items[i]); }
    } else if v.Object? {
      forall k | k in v.members ensures PyEq(v.members[k], v.members[k]) { PyEqReflexive(v.members[k]); }
    }
  }

  lemma PyEqUpdated(members: Objects, name: Name, a: Json, b: Json)
    requires PyEq(a, b)
    ensures PyEq(Object(members[name := a]), Object(members[name := b]))
  {
    var x, y := members[name := a], members[name := b];
    assert x.Keys == y.Keys;
    forall k | k in x
      ensures PyEq(x[k], y[k])
    {
      if k != name { PyEqReflexive(x[k]); }
    }
  }

  lemma SpelledAlike(e: Expected, first: Json, second: Json)
    requires TrueLike(first) && TrueLike(second)
    ensures PyEq(SigningPolicy(e, first), SigningPolicy(e, second))
  {
    var p, q := SigningPolicy(e, first).members, SigningPolicy(e, second).members;
    var u, v := p[GITHUB_ATTESTATIONS].members, q[GITHUB_ATTESTATIONS].members;
    PyEqUpdated(u, DENY_SELF_HOSTED, first, second);
    assert u[DENY_SELF_HOSTED := first] == u && u[DENY_SELF_HOSTED := second] == v;
    PyEqUpdated(p, GITHUB_ATTESTATIONS, p[GITHUB_ATTESTATIONS], q[GITHUB_ATTESTATIONS]);
    assert p[GITHUB_ATTESTATIONS := p[GITHUB_ATTESTATIONS]] == p;
    assert p[GITHUB_ATTESTATIONS := q[GITHUB_ATTESTATIONS]] == q;
  }

  lemma TheFlag(e: Expected, flag: Json)
    ensures DenyFlag(SigningPolicy(e, flag)) == flag
  {
  }

  lemma RootAlike(r: Root, p: Json, q: Json)
    requires PyEq(p, q)
    ensures PyEq(RootJson(r.(policy := p)), RootJson(r.(policy := q)))
  {
    var a := RootJson(r.(policy := p)).members;
    assert RootJson(r.(policy := q)).members == a[SIGNING_POLICY := q];
    assert a == a[SIGNING_POLICY := p];
    PyEqUpdated(a, SIGNING_POLICY, p, q);
  }

  // ----- a valid descriptor is determined by the evidence

  /** The evidence and the expectations support a descriptor that says this. */
  ghost predicate Supported(g: Given, ev: Evidence, e: Expected, f: Facts) {
    ExpectedGood(g, e) && ComponentsGood(g, ev, e, AllImages(g, f.images), f)
  }

  /** The descriptor says what the evidence supports, with its flag spelled as some one. */
  ghost predicate IsDescribed(g: Given, ev: Evidence, e: Expected, r: Root, f: Facts) {
    && Supported(g, ev, e, f) && TrueLike(DenyFlag(r.policy)) && r == Describe(g, ev, e, f, DenyFlag(r.policy))
  }

  /** Whatever descriptor is valid is the one described by the evidence and the expectations, but
      for how its flag writes the number one. */
  lemma ValidIsDescribed(g: Given, ev: Evidence, e: Expected, r: Root) returns (f: Facts)
    requires Valid(g, ev, e, r)
    ensures IsDescribed(g, ev, e, r, f)
  {
    f := FactsIn(r);
    var i := ImagesView(r.images).value;
    ImagesDetermined(g, e, i);
    ImagesExact(r.images, i);
    AppExact(r.configs, f.configs);
    AppExact(r.archives, f.archives);
    AppExact(r.hashes, f.hashes);
  }

  /** And conversely. */
  lemma DescribedIsValid(g: Given, ev: Evidence, e: Expected, f: Facts, flag: Json)
    requires Supported(g, ev, e, f) && TrueLike(flag)
    ensures Valid(g, ev, e, Describe(g, ev, e, f, flag))
    ensures IsDescribed(g, ev, e, Describe(g, ev, e, f, flag), f)
  {
    var r := Describe(g, ev, e, f, flag);
    ImagesExact(r.images, AllImages(g, f.images));
    AppExact(r.configs, f.configs);
    AppExact(r.archives, f.archives);
    AppExact(r.hashes, f.hashes);
    TheFlag(e, flag);
  }

  /** Bytes verify exactly when they are the canonical bytes of the described descriptor with its
      flag spelled true, 1 or 1.0. */
  lemma VerifiesIffDescribed(g: Given, ev: Evidence, e: Expected, data: Bytes)
    ensures Verifies(g, ev, e, data) <==> exists r, f :: Holds(g, data, r) && IsDescribed(g, ev, e, r, f)
  {
    if Verifies(g, ev, e, data) {
      var r :| Holds(g, data, r) && Valid(g, ev, e, r);
      var f := ValidIsDescribed(g, ev, e, r);
    }
    forall r, f | Holds(g, data, r) && IsDescribed(g, ev, e, r, f)
      ensures Verifies(g, ev, e, data)
    {
      DescribedIsValid(g, ev, e, f, DenyFlag(r.policy));
    }
  }

  lemma DescribedAlike(g: Given, ev: Evidence, e: Expected, f: Facts, first: Json, second: Json)
    requires TrueLike(first) && TrueLike(second)
    ensures PyEq(RootJson(Describe(g, ev, e, f, first)), RootJson(Describe(g, ev, e, f, second)))
  {
    SpelledAlike(e, first, second);
    RootAlike(Describe(g, ev, e, f, first), SigningPolicy(e, first), SigningPolicy(e, second));
  }

  lemma DescribedEqual(g: Given, ev: Evidence, e: Expected, a: Root, f: Facts, b: Root, h: Facts)
    requires IsDescribed(g, ev, e, a, f) && IsDescribed(g, ev, e, b, h)
    ensures f == h && PyEq(RootJson(a), RootJson(b))
    ensures a.(policy := b.policy) == b
    ensures DenyFlag(a.policy) == DenyFlag(b.policy) ==> a == b
  {
    FactsUnique(g, ev, e, f, h);
    DescribedAlike(g, ev, e, f, DenyFlag(a.policy), DenyFlag(b.policy));
  }

  /** At most one descriptor is valid for given evidence and expectations, as Python compares them:
      two valid ones differ at most in how the flag is spelled. */
  lemma AtMostOneDescriptor(g: Given, ev: Evidence, e: Expected, a: Root, b: Root)
    requires Valid(g, ev, e, a) && Valid(g, ev, e, b)
    ensures PyEq(RootJson(a), RootJson(b)) && a.(policy := b.policy) == b
    ensures DenyFlag(a.policy) == DenyFlag(b.policy) ==> a == b
  {
    var f := ValidIsDescribed(g, ev, e, a);
    var h := ValidIsDescribed(g, ev, e, b);
    DescribedEqual(g, ev, e, a, f, b, h);
  }

  // ----- rendering and verifying

  lemma EncodedHolds(g: Given, r: Root)
    requires Faithful(g) && Fits(g, RootJson(r))
    ensures Holds(g, g.encode(RootJson(r)).value, r)
  {
  }

  /** What is rendered names the published images, whatever was asked for; its canonical bytes
      verify; and it is the described descriptor with its flag literally true. */
  lemma RenderedVerifies(g: Given, ev: Evidence, e: Expected, apps: PerApp, r: Root)
    requires Faithful(g) && Renders(g, ev, e, apps, r)
    ensures g.encode(RootJson(r)).Some? && Verifies(g, ev, e, g.encode(RootJson(r)).value)
    ensures DenyFlag(r.policy) == Bool(true)
    ensures exists f :: IsDescribed(g, ev, e, r, f) && apps == f.images
  {
    var f := ValidIsDescribed(g, ev, e, r);
    EncodedHolds(g, r);
    RenderedSays(g, ev, e, apps, r, f);
  }

  lemma RenderedSays(g: Given, ev: Evidence, e: Expected, apps: PerApp, r: Root, f: Facts)
    requires Renders(g, ev, e, apps, r) && IsDescribed(g, ev, e, r, f)
    ensures DenyFlag(r.policy) == Bool(true) && apps == f.images
  {
    TheFlag(e, Bool(true));
    ImagesExact(r.images, AllImages(g, apps));
    ImagesExact(r.images, AllImages(g, f.images));
  }

  /** What verifies can be rendered from the published images, if it still fits with its flag
      spelled true; the rendered descriptor equals it as Python compares them, and has the same
      bytes exactly when its own flag is literally true. */
  lemma VerifiedIsRendered(g: Given, ev: Evidence, e: Expected, data: Bytes, r: Root, f: Facts)
    requires Faithful(g) && Holds(g, data, r) && IsDescribed(g, ev, e, r, f)
    requires Fits(g, RootJson(Describe(g, ev, e, f, Bool(true))))
    ensures var rendered := Describe(g, ev, e, f, Bool(true));
            && Renders(g, ev, e, f.images, rendered)
            && PyEq(RootJson(r), RootJson(rendered))
            && (g.encode(RootJson(rendered)).value == data <==> DenyFlag(r.policy) == Bool(true))
  {
    var rendered := Describe(g, ev, e, f, Bool(true));
    DescribedIsValid(g, ev, e, f, Bool(true));
    assert f.(images := f.images) == f;
    assert Renders(g, ev, e, f.images, rendered);
    DescribedEqual(g, ev, e, r, f, rendered, f);
    TheFlag(e, Bool(true));
    EncodedHolds(g, rendered);
    if g.encode(RootJson(rendered)).value == data {
      HoldsOnly(g, data, r);
    }
  }

  /** A descriptor that spells its flag 1 instead of true verifies too, and is not the rendered one. */
  lemma OneIsAccepted(g: Given, ev: Evidence, e: Expected, f: Facts)
    requires Faithful(g) && Supported(g, ev, e, f) && Fits(g, RootJson(Describe(g, ev, e, f, Int(1))))
    ensures Verifies(g, ev, e, g.encode(RootJson(Describe(g, ev, e, f, Int(1)))).value)
    ensures Describe(g, ev, e, f, Int(1)) != Describe(g, ev, e, f, Bool(true))
  {
    DescribedIsValid(g, ev, e, f, Int(1));
    EncodedHolds(g, Describe(g, ev, e, f, Int(1)));
    TheFlag(e, Int(1));
    TheFlag(e, Bool(true));
  }
}
