/** What a deploy descriptor that verifies says, field by field and in its own words, and which
    publications and expectations stand behind it. */
module DescriptorMeaning {

  import opened Wrappers
  import opened DeployDescriptor

  // ----- references

  /** `name@digest`. */
  predicate Refers(g: Given, v: Json, name: string, digest: string) {
    && v == Str(name + "@" + digest)
    && '@' !in name && '@' !in digest && g.isImageName(name) && g.isDigest(digest)
  }

  lemma {:induction false} FirstIs(name: string, rest: string)
    requires '@' !in name
    ensures FirstAt(name + "@" + rest) == |name|
  {
    var s := name + "@" + rest;
    if name == "" {
      assert s[0] == '@';
    } else {
      assert s[0] == name[0] && s[1..] == name[1..] + "@" + rest;
      FirstIs(name[1..], rest);
    }
  }

  /** A reference is read exactly where one is written. */
  lemma ReferenceIff(g: Given, v: Json, name: string, digest: string)
    ensures ImageReference(g, v) == Some(Reference(name, digest)) <==> Refers(g, v, name, digest)
  {
    if Refers(g, v, name, digest) {
      FirstIs(name, digest);
      assert v.s[..|name|] == name && v.s[|name| + 1..] == digest;
    }
  }

  // ----- what was published

  /** What was built for one component. */
  datatype Built = Built(digest: string, config: string, archive: string)

  function RegistryName(g: Given, e: Expected, component: string): string {
    "ghcr.io/" + g.lower(e.repository) + "-" + component
  }

  function Registry(g: Given, e: Expected, component: string, b: Built): Json {
    Str(RegistryName(g, e, component) + "@" + b.digest)
  }

  /** The thirteen fields of publication evidence. */
  function PublicationJson(g: Given, e: Expected, component: string, b: Built): Json {
    Object(map[
      SCHEMA_VERSION := Str("custombuild.published-image.v2"),
      COMPONENT := Str(component),
      REPOSITORY := Str(e.repository),
      GIT_REVISION := Str(e.revision),
      SOURCE_MANIFEST := Str(e.manifest),
      WORKFLOW_RUN_ID := Int(e.runId),
      WORKFLOW_RUN_ATTEMPT := Int(e.runAttempt),
      REGISTRY_IMAGE := Registry(g, e, component, b),
      REGISTRY_DIGEST := Str(b.digest),
      IMAGE_CONFIG_DIGEST := Str(b.config),
      ARCHIVE_SHA256 := Str(b.archive),
      COSIGN_VERIFIED := Bool(true),
      ATTESTATION_VERIFIED := Bool(true)])
  }

  /** Bytes that are the canonical text of this value, neither empty nor longer than this. */
  predicate Canonical(g: Given, data: Bytes, v: Json, limit: nat) {
    0 < |data| <= limit && g.parse(data) == Some(v) && g.encode(v) == Some(data)
  }

  /** There is publication evidence for the component, and it says that this was built. */
  predicate Published(g: Given, ev: Evidence, e: Expected, c: Name, component: string, b: Built) {
    && c in ev.publications
    && Canonical(g, ev.publications[c], PublicationJson(g, e, component, b), 32_768)
    && Buildable(g, e, component, b)
  }

  /** Its reference and its digests are well formed. */
  predicate Buildable(g: Given, e: Expected, component: string, b: Built) {
    && '@' !in RegistryName(g, e, component) && '@' !in b.digest
    && g.isImageName(RegistryName(g, e, component))
    && g.isDigest(b.digest) && g.isDigest(b.config) && g.isSha256(b.archive)
  }

  predicate Called(c: Name, component: string) {
    || (c == API && component == "api")
    || (c == WORKER && component == "worker")
    || (c == WEB && component == "web")
    || (c == SEAWEEDFS && component == "seaweedfs")
  }

  function ClaimOf(g: Given, ev: Evidence, e: Expected, c: Name, component: string, b: Built): Claim
    requires c in ev.publications
  {
    Claim(Registry(g, e, component, b), Str(b.config), Str(b.archive), Str(g.sha256(ev.publications[c])))
  }

  function ViewOf(g: Given, e: Expected, component: string, b: Built): Publication {
    Publication(Str("custombuild.published-image.v2"), Str(component), Str(e.repository), Str(e.revision),
                Str(e.manifest), Int(e.runId), Int(e.runAttempt), Registry(g, e, component, b), Str(b.digest),
                Str(b.config), Str(b.archive), Bool(true), Bool(true))
  }

  lemma PublicationKeys(g: Given, e: Expected, component: string, b: Built)
    ensures HasKeys(PublicationJson(g, e, component, b),
                    {SCHEMA_VERSION, COMPONENT, REPOSITORY, GIT_REVISION, SOURCE_MANIFEST, WORKFLOW_RUN_ID,
                     WORKFLOW_RUN_ATTEMPT, REGISTRY_IMAGE, REGISTRY_DIGEST, IMAGE_CONFIG_DIGEST, ARCHIVE_SHA256,
                     COSIGN_VERIFIED, ATTESTATION_VERIFIED})
  {
  }

  lemma ViewGiven(g: Given, e: Expected, component: string, b: Built)
    ensures PublicationView(PublicationJson(g, e, component, b)) == Some(ViewOf(g, e, component, b))
  {
    PublicationKeys(g, e, component, b);
  }

  lemma ViewTaken(g: Given, e: Expected, component: string, b: Built, v: Json)
    requires PublicationView(v) == Some(ViewOf(g, e, component, b))
    ensures v == PublicationJson(g, e, component, b)
  {
    assert v.members == PublicationJson(g, e, component, b).members;
  }

  lemma TheName(g: Given, e: Expected, c: Name, component: string)
    requires Called(c, component)
    ensures IsApplication(c) && !IsPinned(c) && Text(c) == component
    ensures ImageName(g, e.repository, c) == RegistryName(g, e, component)
  {
  }

  lemma BuildableIsValid(g: Given, e: Expected, c: Name, component: string, b: Built)
    requires Called(c, component) && Buildable(g, e, component, b)
    ensures PublicationValid(g, e, c, ViewOf(g, e, component, b))
  {
    TheName(g, e, c, component);
    ReferenceIff(g, Registry(g, e, component, b), RegistryName(g, e, component), b.digest);
  }

  lemma ValidIsBuildable(g: Given, e: Expected, c: Name, component: string, p: Publication) returns (b: Built)
    requires Called(c, component) && PublicationValid(g, e, c, p)
    ensures p == ViewOf(g, e, component, b) && Buildable(g, e, component, b)
  {
    var reference := ImageReference(g, p.image).value;
    ReferenceIff(g, p.image, reference.name, reference.digest);
    b := Built(reference.digest, p.config.s, p.archive.s);
  }

  lemma PublishedIsClaimed(g: Given, ev: Evidence, e: Expected, c: Name, component: string, b: Built)
    requires Called(c, component) && Published(g, ev, e, c, component, b)
    ensures PublishedClaim(g, ev, e, c) == Some(ClaimOf(g, ev, e, c, component, b))
  {
    var v := PublicationJson(g, e, component, b);
    assert ParseCanonical(g, ev.publications[c], MAX_PUBLICATION) == Some(v);
    ViewGiven(g, e, component, b);
    BuildableIsValid(g, e, c, component, b);
  }

  lemma ParsedPublication(g: Given, ev: Evidence, e: Expected, c: Name) returns (v: Json, p: Publication)
    requires PublicationOf(g, ev, e, c).Some?
    ensures c in ev.publications && Canonical(g, ev.publications[c], v, 32_768)
    ensures PublicationOf(g, ev, e, c) == Some(p) && PublicationView(v) == Some(p) && PublicationValid(g, e, c, p)
  {
    v := ParseCanonical(g, ev.publications[c], MAX_PUBLICATION).value;
    p := PublicationView(v).value;
  }

  lemma ClaimedIsPublished(g: Given, ev: Evidence, e: Expected, c: Name, component: string) returns (b: Built)
    requires Called(c, component) && PublishedClaim(g, ev, e, c).Some?
    ensures Published(g, ev, e, c, component, b)
    ensures PublishedClaim(g, ev, e, c) == Some(ClaimOf(g, ev, e, c, component, b))
  {
    var v, p := ParsedPublication(g, ev, e, c);
    b := ValidIsBuildable(g, e, c, component, p);
    ViewTaken(g, e, component, b, v);
  }

  /** Publication evidence is accepted for a component exactly when it is the canonical text of the
      thirteen fields, each with its one value, for something that was built. */
  lemma ClaimedIffPublished(g: Given, ev: Evidence, e: Expected, c: Name, component: string)
    requires Called(c, component)
    ensures PublishedClaim(g, ev, e, c).Some? <==> exists b :: Published(g, ev, e, c, component, b)
  {
    if PublishedClaim(g, ev, e, c).Some? {
      var b := ClaimedIsPublished(g, ev, e, c, component);
    }
    forall b | Published(g, ev, e, c, component, b)
      ensures PublishedClaim(g, ev, e, c).Some?
    {
      PublishedIsClaimed(g, ev, e, c, component, b);
    }
  }

  // ----- the descriptor

  /** What was built for the four application components, and the digests of the reviewed images. */
  datatype Release = Release(api: Built, worker: Built, web: Built, seaweedfs: Built,
                             postgres: string, redis: string, volumeInit: string)

  function ImageTexts(g: Given, e: Expected, r: Release): PerApp {
    PerApp(Registry(g, e, "api", r.api), Registry(g, e, "worker", r.worker),
           Registry(g, e, "web", r.web), Registry(g, e, "seaweedfs", r.seaweedfs))
  }

  function ConfigTexts(r: Release): PerApp {
    PerApp(Str(r.api.config), Str(r.worker.config), Str(r.web.config), Str(r.seaweedfs.config))
  }

  /** The twelve fields of a descriptor. */
  function DescriptorJson(g: Given, ev: Evidence, e: Expected, r: Release, deny: Json): Json
    requires API in ev.publications && WORKER in ev.publications
    requires WEB in ev.publications && SEAWEEDFS in ev.publications
  {
    Object(map[
      SCHEMA_VERSION := Str("custombuild.deploy-descriptor.v3"),
      REPOSITORY := Str(e.repository),
      GIT_REVISION := Str(e.revision),
      SOURCE_MANIFEST := Str(e.manifest),
      RELEASE_EVIDENCE := Object(map[
        SCHEMA_VERSION := Str("custombuild.release-readiness-evidence.v2"),
        SHA256 := Str(g.sha256(ev.release))]),
      RELEASE_WORKFLOW := Object(map[
        RUN_ID := Int(e.runId),
        RUN_ATTEMPT := Int(e.runAttempt),
        WORKFLOW_PATH := Str(".github/workflows/cd.yml"),
        SOURCE_REF := Str("refs/heads/main")]),
      IMAGES := Object(map[
        API := Registry(g, e, "api", r.api),
        WORKER := Registry(g, e, "worker", r.worker),
        WEB := Registry(g, e, "web", r.web),
        SEAWEEDFS := Registry(g, e, "seaweedfs", r.seaweedfs),
        POSTGRES := Str(g.postgres),
        REDIS := Str(g.redis),
        VOLUME_INIT := Str(g.volumeInit)]),
      CONFIG_DIGESTS := Object(map[
        API := Str(r.api.config),
        WORKER := Str(r.worker.config),
        WEB := Str(r.web.config),
        SEAWEEDFS := Str(r.seaweedfs.config)]),
      ARCHIVE_DIGESTS := Object(map[
        API := Str(r.api.archive),
        WORKER := Str(r.worker.archive),
        WEB := Str(r.web.archive),
        SEAWEEDFS := Str(r.seaweedfs.archive)]),
      PUBLICATION_DIGESTS := Object(map[
        API := Str(g.sha256(ev.publications[API])),
        WORKER := Str(g.sha256(ev.publications[WORKER])),
        WEB := Str(g.sha256(ev.publications[WEB])),
        SEAWEEDFS := Str(g.sha256(ev.publications[SEAWEEDFS]))]),
      ROLES := Object(map[
        API := Str("api"),
        MIGRATE := Str("api"),
        STORAGE_RECOVERY := Str("api"),
        CAPACITY_ATTESTOR := Str("api"),
        WORKER := Str("worker"),
        MAINTENANCE_WORKER := Str("worker"),
        REAPER_WORKER := Str("worker"),
        SCHEDULER := Str("worker"),
        WEB := Str("web"),
        OBJECT_STORAGE := Str("seaweedfs"),
        POSTGRES := Str("postgres"),
        REDIS := Str("redis"),
        OBJECT_STORAGE_INIT := Str("volume-init")]),
      SIGNING_POLICY := Object(map[
        COSIGN := Object(map[
          CERTIFICATE_IDENTITY := Str("https://github.com/" + (e.repository + "/" + ".github/workflows/cd.yml") + "@" + "refs/heads/main"),
          CERTIFICATE_ISSUER := Str("https://token.actions.githubusercontent.com")]),
        GITHUB_ATTESTATIONS := Object(map[
          REPOSITORY := Str(e.repository),
          SIGNER_WORKFLOW := Str(e.repository + "/" + ".github/workflows/cd.yml"),
          SOURCE_REF := Str("refs/heads/main"),
          SOURCE_DIGEST := Str(e.revision),
          DENY_SELF_HOSTED := deny])])])
  }

  predicate Wellformed(g: Given, e: Expected) {
    && g.isRepository(e.repository) && g.isRevision(e.revision) && g.isSha256(e.manifest)
    && 1 <= e.runId <= 9_223_372_036_854_775_807
    && 1 <= e.runAttempt <= 9_223_372_036_854_775_807
  }

  ghost predicate HasDigest(g: Given, reference: string, digest: string) {
    exists name :: Refers(g, Str(reference), name, digest)
  }

  /** The reviewed images are references with these digests. */
  ghost predicate Pinned(g: Given, r: Release) {
    && HasDigest(g, g.postgres, r.postgres) && HasDigest(g, g.redis, r.redis)
    && HasDigest(g, g.volumeInit, r.volumeInit)
  }

  predicate AllPublished(g: Given, ev: Evidence, e: Expected, r: Release) {
    && Published(g, ev, e, API, "api", r.api)
    && Published(g, ev, e, WORKER, "worker", r.worker)
    && Published(g, ev, e, WEB, "web", r.web)
    && Published(g, ev, e, SEAWEEDFS, "seaweedfs", r.seaweedfs)
    && ev.publications.Keys == {API, WORKER, WEB, SEAWEEDFS}
    && (forall c :: c in ev.publications ==> g.isSha256(g.sha256(ev.publications[c])))
  }

  function Digests(r: Release): seq<string> {
    [r.api.digest, r.worker.digest, r.web.digest, r.seaweedfs.digest, r.postgres, r.redis, r.volumeInit]
  }

  /** No two of the seven images have the same digest. */
  predicate Distinct(r: Release) {
    forall j, k :: 0 <= j < k < 7 ==> Digests(r)[j] != Digests(r)[k]
  }

  /** The expectations, the publications, the reviewed images and the release evidence support a
      descriptor of this release. */
  ghost predicate Backed(g: Given, ev: Evidence, e: Expected, r: Release) {
    && Wellformed(g, e) && AllPublished(g, ev, e, r) && Pinned(g, r) && Distinct(r)
    && g.releaseAccepted(ev.release, e.revision, e.manifest, ConfigTexts(r), r.postgres, r.redis, r.volumeInit)
  }

  function FactsOf(g: Given, ev: Evidence, e: Expected, r: Release): Facts
    requires ev.publications.Keys == {API, WORKER, WEB, SEAWEEDFS}
  {
    Facts(ImageTexts(g, e, r), ConfigTexts(r),
          PerApp(Str(r.api.archive), Str(r.worker.archive), Str(r.web.archive), Str(r.seaweedfs.archive)),
          PerApp(Str(g.sha256(ev.publications[API])), Str(g.sha256(ev.publications[WORKER])),
                 Str(g.sha256(ev.publications[WEB])), Str(g.sha256(ev.publications[SEAWEEDFS]))))
  }

  /** Describing this release gives these fields. */
  lemma DescribedJson(g: Given, ev: Evidence, e: Expected, r: Release, deny: Json)
    requires ev.publications.Keys == {API, WORKER, WEB, SEAWEEDFS}
    ensures RootJson(Describe(g, ev, e, FactsOf(g, ev, e, r), deny)) == DescriptorJson(g, ev, e, r, deny)
  {
  }

  lemma PublishedGet(g: Given, ev: Evidence, e: Expected, r: Release, c: Name)
    requires AllPublished(g, ev, e, r) && IsApplication(c)
    ensures PublishedClaim(g, ev, e, c) == Some(FactsOf(g, ev, e, r).Get(c))
  {
    match c
    case API => PublishedIsClaimed(g, ev, e, API, "api", r.api);
    case WORKER => PublishedIsClaimed(g, ev, e, WORKER, "worker", r.worker);
    case WEB => PublishedIsClaimed(g, ev, e, WEB, "web", r.web);
    case SEAWEEDFS => PublishedIsClaimed(g, ev, e, SEAWEEDFS, "seaweedfs", r.seaweedfs);
  }

  lemma PublishedShapes(g: Given, ev: Evidence, e: Expected, r: Release)
    requires AllPublished(g, ev, e, r)
    ensures DigestsShaped(g, FactsOf(g, ev, e, r))
  {
    assert API in ev.publications && WORKER in ev.publications && WEB in ev.publications && SEAWEEDFS in ev.publications;
  }

  /** The four publications are those claims. */
  lemma PublishedFacts(g: Given, ev: Evidence, e: Expected, r: Release)
    requires AllPublished(g, ev, e, r)
    ensures IsFacts(g, ev, e, FactsOf(g, ev, e, r))
  {
    assert ApplicationsOnly(ev);
    forall c | IsApplication(c)
      ensures PublishedClaim(g, ev, e, c) == Some(FactsOf(g, ev, e, r).Get(c))
    {
      PublishedGet(g, ev, e, r, c);
    }
  }

  lemma OnlyApplications(ev: Evidence)
    requires ApplicationsOnly(ev)
    requires API in ev.publications && WORKER in ev.publications && WEB in ev.publications && SEAWEEDFS in ev.publications
    ensures ev.publications.Keys == {API, WORKER, WEB, SEAWEEDFS}
  {
  }

  lemma ShapesPublished(g: Given, ev: Evidence, e: Expected, r: Release)
    requires Published(g, ev, e, API, "api", r.api) && Published(g, ev, e, WORKER, "worker", r.worker)
    requires Published(g, ev, e, WEB, "web", r.web) && Published(g, ev, e, SEAWEEDFS, "seaweedfs", r.seaweedfs)
    requires ApplicationsOnly(ev)
    requires forall c :: IsApplication(c) && c in ev.publications ==> g.isSha256(g.sha256(ev.publications[c]))
    ensures AllPublished(g, ev, e, r)
  {
    OnlyApplications(ev);
  }

  lemma HashesShaped(g: Given, ev: Evidence, e: Expected, f: Facts, c: Name)
    requires IsFacts(g, ev, e, f) && DigestsShaped(g, f) && IsApplication(c) && c in ev.publications
    ensures g.isSha256(g.sha256(ev.publications[c]))
  {
    assert f.Get(c).hash == Str(g.sha256(ev.publications[c]));
  }

  lemma FourPublished(g: Given, ev: Evidence, e: Expected, f: Facts, pins: Release) returns (r: Release)
    requires IsFacts(g, ev, e, f)
    ensures Published(g, ev, e, API, "api", r.api) && Published(g, ev, e, WORKER, "worker", r.worker)
    ensures Published(g, ev, e, WEB, "web", r.web) && Published(g, ev, e, SEAWEEDFS, "seaweedfs", r.seaweedfs)
    ensures r.postgres == pins.postgres && r.redis == pins.redis && r.volumeInit == pins.volumeInit
  {
    r := pins;
    assert PublishedClaim(g, ev, e, API) == Some(f.Get(API)) && PublishedClaim(g, ev, e, WORKER) == Some(f.Get(WORKER));
    assert PublishedClaim(g, ev, e, WEB) == Some(f.Get(WEB));
    assert PublishedClaim(g, ev, e, SEAWEEDFS) == Some(f.Get(SEAWEEDFS));
    var a := ClaimedIsPublished(g, ev, e, API, "api");
    var w := ClaimedIsPublished(g, ev, e, WORKER, "worker");
    var b := ClaimedIsPublished(g, ev, e, WEB, "web");
    var s := ClaimedIsPublished(g, ev, e, SEAWEEDFS, "seaweedfs");
    r := pins.(api := a, worker := w, web := b, seaweedfs := s);
  }

  /** Whatever the claims are, four releases were published that make them. */
  lemma FactsPublished(g: Given, ev: Evidence, e: Expected, f: Facts, pins: Release) returns (r: Release)
    requires IsFacts(g, ev, e, f) && DigestsShaped(g, f)
    ensures AllPublished(g, ev, e, r) && f == FactsOf(g, ev, e, r)
    ensures r.postgres == pins.postgres && r.redis == pins.redis && r.volumeInit == pins.volumeInit
  {
    r := FourPublished(g, ev, e, f, pins);
    forall c | IsApplication(c) && c in ev.publications
      ensures g.isSha256(g.sha256(ev.publications[c]))
    {
      HashesShaped(g, ev, e, f, c);
    }
    ShapesPublished(g, ev, e, r);
    PublishedFacts(g, ev, e, r);
    FactsUnique(g, ev, e, f, FactsOf(g, ev, e, r));
  }

  // ----- images

  function DigestOf(r: Release, c: Name): string {
    match c
    case API => r.api.digest
    case WORKER => r.worker.digest
    case WEB => r.web.digest
    case SEAWEEDFS => r.seaweedfs.digest
    case POSTGRES => r.postgres
    case REDIS => r.redis
    case VOLUME_INIT => r.volumeInit
    case _ => ""
  }

  predicate DigestIs(g: Given, e: Expected, c: Name, image: Json, digest: string) {
    ImageGood(g, e, c, image) && Digest(g, image) == digest
  }

  /** Every image is good, and these are the digests. */
  ghost predicate DigestsAre(g: Given, e: Expected, i: Images, r: Release) {
    forall c :: IsComponent(c) ==> DigestIs(g, e, c, i.Get(c), DigestOf(r, c))
  }

  lemma NamedImage(g: Given, e: Expected, c: Name, image: Json, name: string, digest: string)
    requires IsApplication(c) && !IsPinned(c) && name == ImageName(g, e.repository, c) && Refers(g, image, name, digest)
    ensures DigestIs(g, e, c, image, digest)
  {
    ReferenceIff(g, image, name, digest);
  }

  lemma ApplicationImage(g: Given, e: Expected, c: Name, component: string, b: Built)
    requires Called(c, component) && Buildable(g, e, component, b)
    ensures DigestIs(g, e, c, Registry(g, e, component, b), b.digest)
  {
    TheName(g, e, c, component);
    NamedImage(g, e, c, Registry(g, e, component, b), RegistryName(g, e, component), b.digest);
  }

  lemma PinnedIff(g: Given, e: Expected, c: Name, text: string, digest: string)
    requires IsPinned(c) && text == PinnedImage(g, c)
    ensures HasDigest(g, text, digest) <==> DigestIs(g, e, c, Str(text), digest)
  {
    forall name
      ensures Refers(g, Str(text), name, digest) <==> ImageReference(g, Str(text)) == Some(Reference(name, digest))
    {
      ReferenceIff(g, Str(text), name, digest);
    }
    if ImageReference(g, Str(text)).Some? {
      var reference := ImageReference(g, Str(text)).value;
      assert ImageReference(g, Str(text)) == Some(Reference(reference.name, reference.digest));
    }
  }

  lemma ApplicationDigest(g: Given, ev: Evidence, e: Expected, r: Release, c: Name)
    requires AllPublished(g, ev, e, r) && IsApplication(c)
    ensures DigestIs(g, e, c, AllImages(g, ImageTexts(g, e, r)).Get(c), DigestOf(r, c))
  {
    match c
    case API => ApplicationImage(g, e, API, "api", r.api);
    case WORKER => ApplicationImage(g, e, WORKER, "worker", r.worker);
    case WEB => ApplicationImage(g, e, WEB, "web", r.web);
    case SEAWEEDFS => ApplicationImage(g, e, SEAWEEDFS, "seaweedfs", r.seaweedfs);
  }

  lemma PinnedMeans(g: Given, r: Release)
    ensures Pinned(g, r) <==> forall c :: IsPinned(c) ==> HasDigest(g, PinnedImage(g, c), DigestOf(r, c))
  {
    assert IsPinned(POSTGRES) && IsPinned(REDIS) && IsPinned(VOLUME_INIT);
    assert PinnedImage(g, POSTGRES) == g.postgres && DigestOf(r, POSTGRES) == r.postgres;
    assert PinnedImage(g, REDIS) == g.redis && DigestOf(r, REDIS) == r.redis;
    assert PinnedImage(g, VOLUME_INIT) == g.volumeInit && DigestOf(r, VOLUME_INIT) == r.volumeInit;
  }

  lemma PinnedDigests(g: Given, e: Expected, i: Images, r: Release)
    requires i == AllImages(g, i.apps)
    ensures Pinned(g, r) <==> forall c :: IsPinned(c) ==> DigestIs(g, e, c, i.Get(c), DigestOf(r, c))
  {
    PinnedMeans(g, r);
    forall c | IsPinned(c)
      ensures HasDigest(g, PinnedImage(g, c), DigestOf(r, c)) <==> DigestIs(g, e, c, i.Get(c), DigestOf(r, c))
    {
      PinnedIff(g, e, c, PinnedImage(g, c), DigestOf(r, c));
      assert i.Get(c) == Str(PinnedImage(g, c));
    }
  }

  lemma BackedDigests(g: Given, ev: Evidence, e: Expected, r: Release)
    requires AllPublished(g, ev, e, r)
    ensures Pinned(g, r) <==> DigestsAre(g, e, AllImages(g, ImageTexts(g, e, r)), r)
  {
    var i := AllImages(g, ImageTexts(g, e, r));
    PinnedDigests(g, e, i, r);
    forall c | IsApplication(c)
      ensures DigestIs(g, e, c, i.Get(c), DigestOf(r, c))
    {
      ApplicationDigest(g, ev, e, r, c);
    }
  }

  const COMPONENTS: seq<Name> := [API, WORKER, WEB, SEAWEEDFS, POSTGRES, REDIS, VOLUME_INIT]

  lemma EveryComponent()
    ensures forall c :: IsComponent(c) <==> c in COMPONENTS
    ensures forall j, k :: 0 <= j < k < 7 ==> COMPONENTS[j] != COMPONENTS[k]
  {
    assert COMPONENTS[0] == API && COMPONENTS[1] == WORKER && COMPONENTS[2] == WEB && COMPONENTS[3] == SEAWEEDFS;
    assert COMPONENTS[4] == POSTGRES && COMPONENTS[5] == REDIS && COMPONENTS[6] == VOLUME_INIT;
  }

  /** Values at different names differ exactly when values at different places of the list do. */
  lemma DifferIff(names: seq<Name>, value: Name -> string)
    requires forall j, k :: 0 <= j < k < |names| ==> names[j] != names[k]
    ensures (forall a, b :: a in names && b in names && a != b ==> value(a) != value(b)) <==>
            (forall j, k :: 0 <= j < k < |names| ==> value(names[j]) != value(names[k]))
  {
    if forall j, k :: 0 <= j < k < |names| ==> value(names[j]) != value(names[k]) {
      forall a, b | a in names && b in names && a != b
        ensures value(a) != value(b)
      {
        var j :| 0 <= j < |names| && names[j] == a;
        var k :| 0 <= k < |names| && names[k] == b;
        assert if j < k then value(names[j]) != value(names[k]) else value(names[k]) != value(names[j]);
      }
    }
  }

  lemma DigestAt(r: Release, k: nat)
    requires k < 7
    ensures DigestOf(r, COMPONENTS[k]) == Digests(r)[k]
  {
  }

  lemma DistinctMeans(r: Release)
    ensures Distinct(r) <==>
            forall a, b :: IsComponent(a) && IsComponent(b) && a != b ==> DigestOf(r, a) != DigestOf(r, b)
  {
    EveryComponent();
    DifferIff(COMPONENTS, c => DigestOf(r, c));
    forall k | 0 <= k < 7
      ensures DigestOf(r, COMPONENTS[k]) == Digests(r)[k]
    {
      DigestAt(r, k);
    }
  }

  lemma DistinctIff(g: Given, e: Expected, i: Images, r: Release)
    requires DigestsAre(g, e, i, r)
    ensures ImagesGood(g, e, i) <==> Distinct(r)
  {
    DistinctMeans(r);
    assert forall c :: IsComponent(c) ==> Digest(g, i.Get(c)) == DigestOf(r, c) && ImageGood(g, e, c, i.Get(c));
  }

  lemma BackedIsSupported(g: Given, ev: Evidence, e: Expected, r: Release)
    requires Backed(g, ev, e, r)
    ensures Supported(g, ev, e, FactsOf(g, ev, e, r))
  {
    PublishedFacts(g, ev, e, r);
    PublishedShapes(g, ev, e, r);
    BackedDigests(g, ev, e, r);
    var i := AllImages(g, ImageTexts(g, e, r));
    DistinctIff(g, e, i, r);
    PinnedOf(g, e, i, r);
  }

  lemma PinnedOf(g: Given, e: Expected, i: Images, r: Release)
    requires DigestsAre(g, e, i, r)
    ensures Digest(g, i.postgres) == r.postgres && Digest(g, i.redis) == r.redis && Digest(g, i.volumeInit) == r.volumeInit
  {
    assert forall c :: IsPinned(c) ==> Digest(g, i.Get(c)) == DigestOf(r, c);
    assert IsPinned(POSTGRES) && IsPinned(REDIS) && IsPinned(VOLUME_INIT);
  }

  lemma SupportedIsBacked(g: Given, ev: Evidence, e: Expected, f: Facts) returns (r: Release)
    requires Supported(g, ev, e, f)
    ensures Backed(g, ev, e, r) && f == FactsOf(g, ev, e, r)
  {
    var i, none := AllImages(g, f.images), Built("", "", "");
    var pins := Release(none, none, none, none, Digest(g, i.postgres), Digest(g, i.redis), Digest(g, i.volumeInit));
    r := FactsPublished(g, ev, e, f, pins);
    assert i == AllImages(g, ImageTexts(g, e, r));
    GoodDigests(g, ev, e, i, r);
    BackedDigests(g, ev, e, r);
    DistinctIff(g, e, i, r);
  }

  lemma GoodDigests(g: Given, ev: Evidence, e: Expected, i: Images, r: Release)
    requires ImagesGood(g, e, i) && AllPublished(g, ev, e, r) && i == AllImages(g, ImageTexts(g, e, r))
    requires r.postgres == Digest(g, i.postgres) && r.redis == Digest(g, i.redis)
    requires r.volumeInit == Digest(g, i.volumeInit)
    ensures DigestsAre(g, e, i, r)
  {
    forall c | IsComponent(c)
      ensures DigestIs(g, e, c, i.Get(c), DigestOf(r, c))
    {
      if IsApplication(c) {
        ApplicationDigest(g, ev, e, r, c);
      } else {
        assert Digest(g, i.Get(c)) == DigestOf(r, c);
      }
    }
  }

  // ----- verifying and rendering, said in full

  /** The bytes are the canonical text, no longer than 128 KiB, of the twelve fields of this backed
      release, with the flag spelled true, 1 or 1.0. */
  ghost predicate Says(g: Given, ev: Evidence, e: Expected, data: Bytes, r: Release, deny: Json) {
    && Backed(g, ev, e, r) && deny in {Bool(true), Int(1), Whole(1)}
    && Canonical(g, data, DescriptorJson(g, ev, e, r, deny), 131_072)
  }

  lemma ReleaseDescribed(g: Given, ev: Evidence, e: Expected, r: Release, deny: Json, root: Root)
    requires ev.publications.Keys == {API, WORKER, WEB, SEAWEEDFS}
    ensures root == Describe(g, ev, e, FactsOf(g, ev, e, r), deny) <==> RootJson(root) == DescriptorJson(g, ev, e, r, deny)
  {
    var described := Describe(g, ev, e, FactsOf(g, ev, e, r), deny);
    DescribedJson(g, ev, e, r, deny);
    RootExact(RootJson(root), root);
    RootExact(RootJson(root), described);
  }

  lemma HoldsIff(g: Given, data: Bytes, root: Root, v: Json)
    requires RootJson(root) == v
    ensures Holds(g, data, root) <==> Canonical(g, data, v, 131_072)
  {
  }

  lemma ReleaseValid(g: Given, ev: Evidence, e: Expected, r: Release, deny: Json) returns (root: Root)
    requires Backed(g, ev, e, r) && TrueLike(deny)
    ensures Valid(g, ev, e, root) && RootJson(root) == DescriptorJson(g, ev, e, r, deny)
    ensures root == Describe(g, ev, e, FactsOf(g, ev, e, r), deny)
  {
    BackedIsSupported(g, ev, e, r);
    root := Describe(g, ev, e, FactsOf(g, ev, e, r), deny);
    DescribedIsValid(g, ev, e, FactsOf(g, ev, e, r), deny);
    DescribedJson(g, ev, e, r, deny);
  }

  lemma SaidVerifies(g: Given, ev: Evidence, e: Expected, data: Bytes, r: Release, deny: Json)
    requires Says(g, ev, e, data, r, deny)
    ensures Verifies(g, ev, e, data)
  {
    var root := ReleaseValid(g, ev, e, r, deny);
    HoldsIff(g, data, root, DescriptorJson(g, ev, e, r, deny));
  }

  lemma VerifiedSays(g: Given, ev: Evidence, e: Expected, data: Bytes) returns (r: Release, deny: Json)
    requires Verifies(g, ev, e, data)
    ensures Says(g, ev, e, data, r, deny)
  {
    var root :| Holds(g, data, root) && Valid(g, ev, e, root);
    var f := ValidIsDescribed(g, ev, e, root);
    r := SupportedIsBacked(g, ev, e, f);
    deny := DenyFlag(root.policy);
    ReleaseDescribed(g, ev, e, r, deny, root);
    HoldsIff(g, data, root, DescriptorJson(g, ev, e, r, deny));
  }

  /** Bytes verify exactly when they say this of some release. */
  lemma VerifiesIffSaid(g: Given, ev: Evidence, e: Expected, data: Bytes)
    ensures Verifies(g, ev, e, data) <==> exists r, deny :: Says(g, ev, e, data, r, deny)
  {
    if Verifies(g, ev, e, data) {
      var r, deny := VerifiedSays(g, ev, e, data);
    }
    forall r, deny | Says(g, ev, e, data, r, deny)
      ensures Verifies(g, ev, e, data)
    {
      SaidVerifies(g, ev, e, data, r, deny);
    }
  }

  /** The descriptor has the twelve fields of this backed release, its flag literally true, and fits;
      the images asked for are its own. */
  ghost predicate RendersAs(g: Given, ev: Evidence, e: Expected, apps: PerApp, root: Root, r: Release) {
    && Backed(g, ev, e, r) && apps == ImageTexts(g, e, r)
    && RootJson(root) == DescriptorJson(g, ev, e, r, Bool(true))
    && g.encode(RootJson(root)).Some? && |g.encode(RootJson(root)).value| <= 131_072
  }

  lemma RendersSaid(g: Given, ev: Evidence, e: Expected, apps: PerApp, root: Root) returns (r: Release)
    requires Renders(g, ev, e, apps, root)
    ensures RendersAs(g, ev, e, apps, root, r)
  {
    var f := ValidIsDescribed(g, ev, e, root);
    RenderedSays(g, ev, e, apps, root, f);
    r := SupportedIsBacked(g, ev, e, f);
    ReleaseDescribed(g, ev, e, r, Bool(true), root);
  }

  lemma SaidRenders(g: Given, ev: Evidence, e: Expected, apps: PerApp, root: Root, r: Release)
    requires RendersAs(g, ev, e, apps, root, r)
    ensures Renders(g, ev, e, apps, root)
  {
    var f := FactsOf(g, ev, e, r);
    var described := ReleaseValid(g, ev, e, r, Bool(true));
    ReleaseDescribed(g, ev, e, r, Bool(true), root);
    PublishedFacts(g, ev, e, r);
    assert f.(images := apps) == f;
  }

  /** Rendering gives exactly the fields of a backed release, and only for that release's images. */
  lemma RendersIffSaid(g: Given, ev: Evidence, e: Expected, apps: PerApp, root: Root)
    ensures Renders(g, ev, e, apps, root) <==> exists r :: RendersAs(g, ev, e, apps, root, r)
  {
    if Renders(g, ev, e, apps, root) {
      var r := RendersSaid(g, ev, e, apps, root);
    }
    forall r | RendersAs(g, ev, e, apps, root, r)
      ensures Renders(g, ev, e, apps, root)
    {
      SaidRenders(g, ev, e, apps, root, r);
    }
  }
}
