/** Provisioning of production identities (scripts/bootstrap_production_identity.py) over the tables
    of services/api/app/models.py: the three operations, what each leaves alone, and what holds
    over every run of them. */
module IdentityProvisioning {

  import opened Ordering
  import opened Wrappers

  // ----- tables

  datatype Role = OWNER | ADMIN | DESIGNER | REVIEWER | PRODUCTION | OPERATOR | VIEWER

  const INITIAL_ROLES: set<Role> := {OWNER, ADMIN}
  const ADDITIONAL_ROLES: set<Role> := {DESIGNER, REVIEWER}

  datatype Organization = Organization(slug: string, name: string)

  /** An `issuer` marks the user as bound; legacy rows have none. */
  datatype User = User(sub: string, issuer: Option<string>, email: string, name: string)

  datatype Payload = Payload(slug: string, orgNameDigest: string, role: Role, issuerDigest: string,
                             subjectDigest: string, emailDigest: string, userNameDigest: string,
                             operatorDigest: string, operation: string)

  datatype Audit = Audit(org: string, actor: string, action: string, entityType: string, entityId: string,
                         payload: Payload)

  type MemberKey = (string, string)     // organization and user

  datatype Database = Database(
    orgs: map<string, Organization>,
    users: map<string, User>,
    memberships: map<MemberKey, Role>,
    audits: map<string, Audit>)

  /** The unique and foreign keys of the tables. */
  predicate WellFormed(db: Database) {
    && (forall a, b :: a in db.orgs && b in db.orgs && a != b ==> db.orgs[a].slug != db.orgs[b].slug)
    && (forall a, b :: a in db.users && b in db.users && a != b ==>
          db.users[a].sub != db.users[b].sub && db.users[a].email != db.users[b].email)
    && (forall m :: m in db.memberships ==> m.0 in db.orgs && m.1 in db.users)
    && (forall e :: e in db.audits ==> db.audits[e].org in db.orgs && db.audits[e].actor in db.users)
  }

  // ----- requests

  datatype Request = Request(orgId: string, slug: string, orgName: string, userId: string, issuer: string,
                             subject: string, email: string, userName: string, role: Role, operatorReference: string)

  const BOOTSTRAP := "identity.bootstrap.production_admin"
  const MEMBER := "identity.bootstrap.production_member"
  const BINDING := "identity.bootstrap.legacy_oidc_issuer_binding"

  /** The digests, and the format checks on a request. */
  datatype Env = Env(
    key: (string, string) -> string,
    issuerHash: string -> string,
    auditId: (string, string, string, string, Role, string) -> string,
    digest: string -> string,
    formatted: Request -> bool)

  function KeyOf(env: Env, r: Request): string { env.key(r.issuer, r.subject) }

  function IssuerOf(env: Env, r: Request): string { env.issuerHash(r.issuer) }

  function AuditIdOf(env: Env, r: Request, action: string): string {
    env.auditId(r.orgId, r.userId, r.issuer, r.subject, r.role, action)
  }

  function AuditOf(env: Env, r: Request, action: string): Audit {
    Audit(r.orgId, r.userId, action, "user", r.userId,
          Payload(r.slug, env.digest(r.orgName), r.role, env.digest(r.issuer), env.digest(r.subject),
                  env.digest(r.email), env.digest(r.userName), env.digest(r.operatorReference), action))
  }

  function OrgOf(r: Request): Organization { Organization(r.slug, r.orgName) }

  function UserOf(env: Env, r: Request): User {
    User(KeyOf(env, r), Some(IssuerOf(env, r)), r.email, r.userName)
  }

  function MemberOf(r: Request): MemberKey { (r.orgId, r.userId) }

  // ----- what the queries find

  predicate OrgMatches(db: Database, r: Request, o: string) {
    o in db.orgs && (o == r.orgId || db.orgs[o].slug == r.slug)
  }

  predicate OrgAbsent(db: Database, r: Request) {
    forall o :: o in db.orgs ==> !OrgMatches(db, r, o)
  }

  predicate OrgExact(db: Database, r: Request) {
    && r.orgId in db.orgs && db.orgs[r.orgId] == OrgOf(r)
    && forall o :: o in db.orgs && OrgMatches(db, r, o) ==> o == r.orgId
  }

  predicate UserMatches(db: Database, r: Request, sub: string, u: string) {
    u in db.users && (u == r.userId || db.users[u].sub == sub || db.users[u].email == r.email)
  }

  predicate UserAbsent(db: Database, r: Request, sub: string) {
    forall u :: u in db.users ==> !UserMatches(db, r, sub, u)
  }

  predicate OnlyUser(db: Database, r: Request, sub: string) {
    r.userId in db.users && forall u :: u in db.users && UserMatches(db, r, sub, u) ==> u == r.userId
  }

  predicate ForeignIssuer(db: Database, issuer: string) {
    exists u :: u in db.users && db.users[u].issuer.Some? && db.users[u].issuer.value != issuer
  }

  predicate HasAdministrator(db: Database, org: string, issuer: string) {
    exists m :: m in db.memberships && m.0 == org && db.memberships[m] in INITIAL_ROLES
                && m.1 in db.users && db.users[m.1].issuer == Some(issuer)
  }

  /** The user's one membership in any organization is this one. */
  predicate OnlyMembership(db: Database, r: Request) {
    && MemberOf(r) in db.memberships && db.memberships[MemberOf(r)] == r.role
    && forall o :: o in db.orgs && (o, r.userId) in db.memberships ==> o == r.orgId
  }

  predicate AuditExact(env: Env, db: Database, r: Request, action: string) {
    AuditIdOf(env, r, action) in db.audits && db.audits[AuditIdOf(env, r, action)] == AuditOf(env, r, action)
  }

  /** Row-level security: an audit event of another organization is not seen, though its id is taken. */
  predicate AuditUnseen(db: Database, r: Request, id: string) {
    id in db.audits ==> db.audits[id].org != r.orgId
  }

  // ----- the operations, as functions of the database

  datatype Result = Created(auditId: string) | Bound(auditId: string) | Unchanged(auditId: string) | Refused | Aborted

  datatype Outcome = Outcome(result: Result, db: Database)

  predicate UserSettled(env: Env, db: Database, r: Request, action: string) {
    && OnlyUser(db, r, KeyOf(env, r)) && db.users[r.userId] == UserOf(env, r)
    && MemberOf(r) in db.memberships && db.memberships[MemberOf(r)] == r.role
    && AuditExact(env, db, r, action)
  }

  predicate UserFresh(env: Env, db: Database, r: Request, action: string) {
    && UserAbsent(db, r, KeyOf(env, r)) && MemberOf(r) !in db.memberships
    && AuditUnseen(db, r, AuditIdOf(env, r, action))
  }

  function WithMember(env: Env, db: Database, r: Request, action: string): Database {
    Database(db.orgs,
             db.users[r.userId := UserOf(env, r)],
             db.memberships[MemberOf(r) := r.role],
             db.audits[AuditIdOf(env, r, action) := AuditOf(env, r, action)])
  }

  function Bootstrap(env: Env, db: Database, r: Request): Outcome {
    if !env.formatted(r) || r.role !in INITIAL_ROLES || ForeignIssuer(db, IssuerOf(env, r)) then Outcome(Refused, db)
    else if OrgAbsent(db, r) && UserFresh(env, db, r, BOOTSTRAP) then
      if AuditIdOf(env, r, BOOTSTRAP) in db.audits then Outcome(Aborted, db)
      else Outcome(Created(AuditIdOf(env, r, BOOTSTRAP)),
                   WithMember(env, db.(orgs := db.orgs[r.orgId := OrgOf(r)]), r, BOOTSTRAP))
    else if OrgExact(db, r) && UserSettled(env, db, r, BOOTSTRAP) then
      Outcome(Unchanged(AuditIdOf(env, r, BOOTSTRAP)), db)
    else Outcome(Refused, db)
  }

  function Provision(env: Env, db: Database, r: Request): Outcome {
    if !env.formatted(r) || r.role !in ADDITIONAL_ROLES || !OrgExact(db, r) || ForeignIssuer(db, IssuerOf(env, r))
       || !HasAdministrator(db, r.orgId, IssuerOf(env, r)) then Outcome(Refused, db)
    else if UserFresh(env, db, r, MEMBER) then
      if AuditIdOf(env, r, MEMBER) in db.audits then Outcome(Aborted, db)
      else Outcome(Created(AuditIdOf(env, r, MEMBER)), WithMember(env, db, r, MEMBER))
    else if UserSettled(env, db, r, MEMBER) then
      Outcome(Unchanged(AuditIdOf(env, r, MEMBER)), db)
    else Outcome(Refused, db)
  }

  /** The legacy user, alone under its id, raw subject and e-mail, with its one membership. */
  predicate LegacyUser(db: Database, r: Request) {
    && OnlyUser(db, r, r.subject)
    && db.users[r.userId].email == r.email && db.users[r.userId].name == r.userName
    && OnlyMembership(db, r)
  }

  predicate BindReady(env: Env, db: Database, r: Request) {
    && LegacyUser(db, r) && db.users[r.userId].issuer.None?
    && (db.users[r.userId].sub == r.subject || db.users[r.userId].sub == KeyOf(env, r))
    && AuditUnseen(db, r, AuditIdOf(env, r, BINDING))
  }

  predicate BindSettled(env: Env, db: Database, r: Request) {
    && LegacyUser(db, r) && db.users[r.userId] == UserOf(env, r)
    && AuditExact(env, db, r, BINDING)
  }

  /** Nobody else holds the identity key the user is to get. */
  predicate KeyFree(env: Env, db: Database, r: Request) {
    forall u :: u in db.users && u != r.userId ==> db.users[u].sub != KeyOf(env, r)
  }

  function WithBinding(env: Env, db: Database, r: Request): Database {
    db.(users := db.users[r.userId := UserOf(env, r)],
        audits := db.audits[AuditIdOf(env, r, BINDING) := AuditOf(env, r, BINDING)])
  }

  function Bind(env: Env, db: Database, r: Request): Outcome {
    if !env.formatted(r) || !OrgExact(db, r) || ForeignIssuer(db, IssuerOf(env, r)) then Outcome(Refused, db)
    else if BindReady(env, db, r) then
      if KeyFree(env, db, r) && AuditIdOf(env, r, BINDING) !in db.audits
      then Outcome(Bound(AuditIdOf(env, r, BINDING)), WithBinding(env, db, r))
      else Outcome(Aborted, db)
    else if BindSettled(env, db, r) then Outcome(Unchanged(AuditIdOf(env, r, BINDING)), db)
    else Outcome(Refused, db)
  }

  // ----- the session

  class Session {
    var db: Database
    var tenant: string

    /** Row-level security: only the current tenant's memberships and audit events can be read. */
    function VisibleMembership(org: string, user: string): Option<Role>
      reads this
    {
      if tenant == org && (org, user) in db.memberships then Some(db.memberships[(org, user)]) else None
    }

    function VisibleAudit(id: string): Option<Audit>
      reads this
    {
      if id in db.audits && db.audits[id].org == tenant then Some(db.audits[id]) else None
    }

    /** Each insertion is flushed at once and fails on a key that is taken. */
    method InsertOrganization(id: string, row: Organization) returns (ok: bool)
      modifies this`db
      ensures ok <==> id !in old(db).orgs && forall o :: o in old(db).orgs ==> old(db).orgs[o].slug != row.slug
      ensures db == if ok then old(db).(orgs := old(db).orgs[id := row]) else old(db)
    {
      ok := id !in db.orgs && forall o :: o in db.orgs ==> db.orgs[o].slug != row.slug;
      if ok { db := db.(orgs := db.orgs[id := row]); }
    }

    method InsertUser(id: string, row: User) returns (ok: bool)
      modifies this`db
      ensures ok <==> id !in old(db).users && SubAndEmailFree(old(db), id, row)
      ensures db == if ok then old(db).(users := old(db).users[id := row]) else old(db)
    {
      ok := id !in db.users && SubAndEmailFree(db, id, row);
      if ok { db := db.(users := db.users[id := row]); }
    }

    method UpdateUser(id: string, row: User) returns (ok: bool)
      requires id in db.users
      modifies this`db
      ensures ok <==> SubAndEmailFree(old(db), id, row)
      ensures db == if ok then old(db).(users := old(db).users[id := row]) else old(db)
    {
      ok := SubAndEmailFree(db, id, row);
      if ok { db := db.(users := db.users[id := row]); }
    }

    method InsertMembership(key: MemberKey, role: Role) returns (ok: bool)
      modifies this`db
      ensures ok <==> key !in old(db).memberships && key.0 in old(db).orgs && key.1 in old(db).users
      ensures db == if ok then old(db).(memberships := old(db).memberships[key := role]) else old(db)
    {
      ok := key !in db.memberships && key.0 in db.orgs && key.1 in db.users;
      if ok { db := db.(memberships := db.memberships[key := role]); }
    }

    method InsertAudit(id: string, row: Audit) returns (ok: bool)
      modifies this`db
      ensures ok <==> id !in old(db).audits && row.org in old(db).orgs && row.actor in old(db).users
      ensures db == if ok then old(db).(audits := old(db).audits[id := row]) else old(db)
    {
      ok := id !in db.audits && row.org in db.orgs && row.actor in db.users;
      if ok { db := db.(audits := db.audits[id := row]); }
    }

    /** Every membership of the user, one tenant after the other; the tenant is put back. */
    method AllMemberships(user: string, restore: string) returns (found: seq<(string, Role)>)
      modifies this`tenant
      ensures found == MembershipsOf(db, user)
      ensures tenant == restore
    {
      var ids := InOrder(db.orgs.Keys);
      found := [];
      for i := 0 to |ids|
        invariant found == MembershipList(db, user, ids, i)
      {
        tenant := ids[i];
        var membership := VisibleMembership(ids[i], user);
        if membership.Some? {
          found := found + [(ids[i], membership.value)];
        }
      }
      tenant := restore;
    }

    /** User, membership and audit row, in dependency order.  Only an audit id that another
        organization holds can make the flush fail. */
    method InsertMember(env: Env, r: Request, action: string) returns (ok: bool)
      requires r.orgId in db.orgs && UserFresh(env, db, r, action)
      modifies this`db
      ensures ok <==> AuditIdOf(env, r, action) !in old(db).audits
      ensures ok ==> db == WithMember(env, old(db), r, action)
    {
      ok := InsertUser(r.userId, UserOf(env, r));
      var memberOk := InsertMembership(MemberOf(r), r.role);
      var auditOk := InsertAudit(AuditIdOf(env, r, action), AuditOf(env, r, action));
      ok := ok && memberOk && auditOk;
    }

    method BootstrapIdentity(env: Env, r: Request) returns (result: Result)
      requires WellFormed(db)
      modifies this
      ensures result == Bootstrap(env, old(db), r).result && db == Bootstrap(env, old(db), r).db
    {
      if !env.formatted(r) || r.role !in INITIAL_ROLES {
        return Refused;
      }
      tenant := r.orgId;
      var organizations := set o | o in db.orgs && OrgMatches(db, r, o);
      if |organizations| > 1 || (organizations != {} && !OrgExact(db, r)) {
        SeveralOrganizations(db, r, organizations);
        return Refused;
      }
      SeveralOrganizations(db, r, organizations);
      if ForeignIssuer(db, IssuerOf(env, r)) {
        return Refused;
      }
      var users := set u | u in db.users && UserMatches(db, r, KeyOf(env, r), u);
      SeveralUsers(db, r, KeyOf(env, r), users);
      if |users| > 1 || (users != {} && (users != {r.userId} || db.users[r.userId] != UserOf(env, r))) {
        return Refused;
      }
      var membership := VisibleMembership(r.orgId, r.userId);
      var auditId := AuditIdOf(env, r, BOOTSTRAP);
      var audit := VisibleAudit(auditId);
      if organizations == {} && users == {} && membership.None? && audit.None? {
        var before := db;
        var ok := InsertOrganization(r.orgId, OrgOf(r));
        var memberOk := InsertMember(env, r, BOOTSTRAP);
        if !ok || !memberOk {
          db := before;               // the caller rolls the transaction back
          return Aborted;
        }
        return Created(auditId);
      }
      if organizations == {} || users == {} || membership.None? || audit.None? {
        return Refused;
      }
      if membership.value != r.role || audit.value != AuditOf(env, r, BOOTSTRAP) {
        return Refused;
      }
      return Unchanged(auditId);
    }

    method ProvisionMember(env: Env, r: Request) returns (result: Result)
      requires WellFormed(db)
      modifies this
      ensures result == Provision(env, old(db), r).result && db == Provision(env, old(db), r).db
    {
      if !env.formatted(r) || r.role !in ADDITIONAL_ROLES {
        return Refused;
      }
      tenant := r.orgId;
      var organizations := set o | o in db.orgs && OrgMatches(db, r, o);
      SeveralOrganizations(db, r, organizations);
      if |organizations| != 1 || !OrgExact(db, r) {
        return Refused;
      }
      if ForeignIssuer(db, IssuerOf(env, r)) || !HasAdministrator(db, r.orgId, IssuerOf(env, r)) {
        return Refused;
      }
      result := FinishProvisioning(env, r);
    }

    /** The user's part: everything is there and exact, or nothing is and all of it is inserted. */
    method FinishProvisioning(env: Env, r: Request) returns (result: Result)
      requires WellFormed(db) && tenant == r.orgId && env.formatted(r) && r.role in ADDITIONAL_ROLES
      requires OrgExact(db, r) && !ForeignIssuer(db, IssuerOf(env, r))
      requires HasAdministrator(db, r.orgId, IssuerOf(env, r))
      modifies this`db
      ensures result == Provision(env, old(db), r).result && db == Provision(env, old(db), r).db
    {
      var users := set u | u in db.users && UserMatches(db, r, KeyOf(env, r), u);
      SeveralUsers(db, r, KeyOf(env, r), users);
      if |users| > 1 || (users != {} && (users != {r.userId} || db.users[r.userId] != UserOf(env, r))) {
        return Refused;
      }
      var membership := VisibleMembership(r.orgId, r.userId);
      var auditId := AuditIdOf(env, r, MEMBER);
      var audit := VisibleAudit(auditId);
      if users == {} && membership.None? && audit.None? {
        var before := db;
        var ok := InsertMember(env, r, MEMBER);
        if !ok {
          db := before;
          return Aborted;
        }
        return Created(auditId);
      }
      if users == {} || membership.None? || audit.None? {
        return Refused;
      }
      if membership.value != r.role || audit.value != AuditOf(env, r, MEMBER) {
        return Refused;
      }
      return Unchanged(auditId);
    }

    method BindLegacyIdentity(env: Env, r: Request) returns (result: Result)
      requires WellFormed(db)
      modifies this
      ensures result == Bind(env, old(db), r).result && db == Bind(env, old(db), r).db
    {
      if !env.formatted(r) {
        return Refused;
      }
      tenant := r.orgId;
      var organizations := set o | o in db.orgs && OrgMatches(db, r, o);
      SeveralOrganizations(db, r, organizations);
      if |organizations| != 1 || !OrgExact(db, r) {
        return Refused;
      }
      if ForeignIssuer(db, IssuerOf(env, r)) {
        return Refused;
      }
      var users := set u | u in db.users && UserMatches(db, r, r.subject, u);
      SeveralUsers(db, r, r.subject, users);
      if users != {r.userId} || db.users[r.userId].email != r.email || db.users[r.userId].name != r.userName {
        return Refused;
      }
      var user := db.users[r.userId];
      var legacyRaw := user.sub == r.subject && user.issuer.None?;
      var legacyOpaque := user.sub == KeyOf(env, r) && user.issuer.None?;
      var bound := user.sub == KeyOf(env, r) && user.issuer == Some(IssuerOf(env, r));
      if !legacyRaw && !legacyOpaque && !bound {
        return Refused;
      }
      var memberships := AllMemberships(r.userId, r.orgId);
      OneMembershipListed(db, r);
      if memberships != [(r.orgId, r.role)] {
        return Refused;
      }
      result := FinishBinding(env, r, legacyRaw || legacyOpaque, bound);
    }

    /** The last part: bind now, or confirm an earlier binding. */
    method FinishBinding(env: Env, r: Request, legacy: bool, bound: bool) returns (result: Result)
      requires WellFormed(db) && env.formatted(r) && OrgExact(db, r) && !ForeignIssuer(db, IssuerOf(env, r))
      requires LegacyUser(db, r) && tenant == r.orgId
      requires legacy <==> db.users[r.userId].issuer.None?
                           && (db.users[r.userId].sub == r.subject || db.users[r.userId].sub == KeyOf(env, r))
      requires bound <==> db.users[r.userId] == UserOf(env, r)
      modifies this`db
      ensures result == Bind(env, old(db), r).result && db == Bind(env, old(db), r).db
    {
      var auditId := AuditIdOf(env, r, BINDING);
      var audit := VisibleAudit(auditId);
      if legacy && audit.None? {
        var before := db;
        var updated := UpdateUser(r.userId, UserOf(env, r));
        var recorded := InsertAudit(auditId, AuditOf(env, r, BINDING));
        if !updated || !recorded {
          db := before;               // the caller rolls the transaction back
          return Aborted;
        }
        return Bound(auditId);
      }
      if !bound || audit.None? || audit.value != AuditOf(env, r, BINDING) {
        return Refused;
      }
      return Unchanged(auditId);
    }
  }

  predicate SubAndEmailFree(db: Database, id: string, row: User) {
    forall u :: u in db.users && u != id ==> db.users[u].sub != row.sub && db.users[u].email != row.email
  }

  lemma SeveralOrganizations(db: Database, r: Request, found: set<string>)
    requires found == set o | o in db.orgs && OrgMatches(db, r, o)
    ensures found == {} <==> OrgAbsent(db, r)
    ensures OrgExact(db, r) ==> found == {r.orgId} && |found| == 1
  {
    if OrgExact(db, r) {
      assert OrgMatches(db, r, r.orgId);
      assert found == {r.orgId};
    }
    if found == {} {
      forall o | o in db.orgs ensures !OrgMatches(db, r, o) { assert o !in found; }
    }
  }

  lemma SeveralUsers(db: Database, r: Request, sub: string, found: set<string>)
    requires found == set u | u in db.users && UserMatches(db, r, sub, u)
    ensures found == {} <==> UserAbsent(db, r, sub)
    ensures found == {r.userId} <==> OnlyUser(db, r, sub)
    ensures OnlyUser(db, r, sub) ==> |found| == 1
  {
    if OnlyUser(db, r, sub) {
      assert UserMatches(db, r, sub, r.userId);
      assert found == {r.userId};
    }
    if found == {r.userId} {
      forall u | u in db.users && UserMatches(db, r, sub, u) ensures u == r.userId { assert u in found; }
      assert r.userId in found;
    }
    if found == {} {
      forall u | u in db.users ensures !UserMatches(db, r, sub, u) { assert u !in found; }
    }
  }

  // ----- listing memberships

  /** The user's memberships in the first `n` of these organizations. */
  function MembershipList(db: Database, user: string, ids: seq<string>, n: nat): seq<(string, Role)>
    requires n <= |ids|
  {
    if n == 0 then []
    else
      var front := MembershipList(db, user, ids, n - 1);
      var key := (ids[n - 1], user);
      if key in db.memberships then front + [(ids[n - 1], db.memberships[key])] else front
  }

  function MembershipsOf(db: Database, user: string): seq<(string, Role)> {
    var ids := InOrder(db.orgs.Keys);
    MembershipList(db, user, ids, |ids|)
  }

  predicate MemberAt(db: Database, user: string, ids: seq<string>, i: nat)
    requires i < |ids|
  {
    (ids[i], user) in db.memberships
  }

  lemma {:induction false} ListEmpty(db: Database, user: string, ids: seq<string>, n: nat)
    requires n <= |ids|
    ensures MembershipList(db, user, ids, n) == [] <==> forall i :: 0 <= i < n ==> !MemberAt(db, user, ids, i)
  {
    if n > 0 {
      ListEmpty(db, user, ids, n - 1);
      assert MemberAt(db, user, ids, n - 1) ==> MembershipList(db, user, ids, n) != [];
    }
  }

  /** The listing is this one membership exactly when the user has it and no other. */
  lemma OneMembershipListed(db: Database, r: Request)
    requires WellFormed(db)
    ensures MembershipsOf(db, r.userId) == [(r.orgId, r.role)] <==> OnlyMembership(db, r)
  {
    var ids := InOrder(db.orgs.Keys);
    ListIsSingle(db, r.userId, ids, |ids|, r.orgId, r.role);
    forall o | o in db.orgs
      ensures exists i :: 0 <= i < |ids| && ids[i] == o
    {
      assert o in ids;
    }
    forall i | 0 <= i < |ids|
      ensures ids[i] in db.orgs
    {
      assert ids[i] in ids;
    }
  }

  ghost predicate OnlyAt(db: Database, user: string, ids: seq<string>, n: nat, org: string, role: Role)
    requires n <= |ids|
  {
    && (exists i :: 0 <= i < n && ids[i] == org)
    && (org, user) in db.memberships && db.memberships[(org, user)] == role
    && forall i :: 0 <= i < n && MemberAt(db, user, ids, i) ==> ids[i] == org
  }

  lemma {:induction false} ListIsSingle(db: Database, user: string, ids: seq<string>, n: nat, org: string, role: Role)
    requires n <= |ids|
    requires forall i, j :: 0 <= i < j < |ids| ==> ids[i] != ids[j]
    ensures MembershipList(db, user, ids, n) == [(org, role)] <==> OnlyAt(db, user, ids, n, org, role)
  {
    if n > 0 {
      ListIsSingle(db, user, ids, n - 1, org, role);
      ListEmpty(db, user, ids, n - 1);
      var front, key := MembershipList(db, user, ids, n - 1), (ids[n - 1], user);
      if key in db.memberships {
        assert MemberAt(db, user, ids, n - 1);
        var last := (ids[n - 1], db.memberships[key]);
        assert front + [last] == [(org, role)] <==> front == [] && last == (org, role) by {
          assert |front + [last]| == |front| + 1;
          assert front == [] ==> front + [last] == [last];
        }
      }
    }
  }

  // ----- runs

  datatype Operation = BootstrapOp(request: Request) | MemberOp(request: Request) | BindOp(request: Request)

  function Apply(env: Env, db: Database, op: Operation): Outcome {
    match op
    case BootstrapOp(r) => Bootstrap(env, db, r)
    case MemberOp(r) => Provision(env, db, r)
    case BindOp(r) => Bind(env, db, r)
  }

  /** Every operation in its own transaction: one that is refused or aborted changes nothing. */
  function RunAll(env: Env, db: Database, ops: seq<Operation>): Database
    decreases |ops|
  {
    if ops == [] then db else RunAll(env, Apply(env, db, ops[0]).db, ops[1..])
  }

  predicate IsBound(db: Database, u: string) {
    u in db.users && db.users[u].issuer.Some?
  }

  /** All bound users share one issuer. */
  predicate OneIssuer(db: Database) {
    forall a, b :: a in db.users && b in db.users && IsBound(db, a) && IsBound(db, b) ==>
      db.users[a].issuer == db.users[b].issuer
  }

  ghost predicate IsKey(env: Env, sub: string) {
    exists issuer, subject :: env.key(issuer, subject) == sub
  }

  predicate UserKept(a: Database, b: Database, u: string)
    requires u in a.users
  {
    && u in b.users
    && (b.users[u] == a.users[u]
        || (a.users[u].issuer.None? && b.users[u].issuer.Some?
            && b.users[u].email == a.users[u].email && b.users[u].name == a.users[u].name))
  }

  /** What no operation undoes: organizations, memberships and audit events stay as they are, users
      change only by being bound, existing users gain no membership, new identities are identity
      keys, and whoever becomes bound shares the issuer of those already bound. */
  ghost predicate Advances(env: Env, a: Database, b: Database) {
    && (forall o :: o in a.orgs ==> o in b.orgs && b.orgs[o] == a.orgs[o])
    && (forall m :: m in a.memberships ==> m in b.memberships && b.memberships[m] == a.memberships[m])
    && (forall e :: e in a.audits ==> e in b.audits && b.audits[e] == a.audits[e])
    && (forall u :: u in a.users ==> UserKept(a, b, u))
    && (forall m :: m in b.memberships && m.1 in a.users ==> m in a.memberships)
    && (forall u :: u in b.users ==> (u in a.users && b.users[u].sub == a.users[u].sub) || IsKey(env, b.users[u].sub))
    && (forall u, v :: u in b.users && v in a.users && IsBound(b, u) && IsBound(a, v) && !IsBound(a, u) ==>
          b.users[u].issuer == a.users[v].issuer)
  }

  lemma AdvancesRefl(env: Env, a: Database)
    ensures Advances(env, a, a)
  {
  }

  lemma AdvancesTrans(env: Env, a: Database, b: Database, c: Database)
    requires Advances(env, a, b) && Advances(env, b, c)
    ensures Advances(env, a, c)
  {
    forall u | u in a.users ensures UserKept(a, c, u) { assert UserKept(a, b, u) && UserKept(b, c, u); }
    forall u, v | u in c.users && v in a.users && IsBound(c, u) && IsBound(a, v) && !IsBound(a, u)
      ensures c.users[u].issuer == a.users[v].issuer
    {
      assert UserKept(a, b, v);
      assert IsBound(b, v);
      if IsBound(b, u) {
        assert UserKept(b, c, u);
      }
    }
  }

  lemma MemberAdvances(env: Env, db: Database, r: Request, action: string)
    requires UserFresh(env, db, r, action) && !ForeignIssuer(db, IssuerOf(env, r))
    requires AuditIdOf(env, r, action) !in db.audits
    requires forall m :: m in db.memberships ==> m.1 in db.users
    ensures Advances(env, db, WithMember(env, db, r, action))
  {
    var after := WithMember(env, db, r, action);
    assert env.key(r.issuer, r.subject) == after.users[r.userId].sub;
    assert r.userId !in db.users by { assert r.userId in db.users ==> UserMatches(db, r, KeyOf(env, r), r.userId); }
    forall u | u in db.users ensures UserKept(db, after, u) {}
  }

  lemma MemberWellFormed(env: Env, db: Database, r: Request, action: string)
    requires WellFormed(db) && r.orgId in db.orgs && UserFresh(env, db, r, action)
    ensures WellFormed(WithMember(env, db, r, action))
  {
    forall u | u in db.users
      ensures u != r.userId && db.users[u].sub != KeyOf(env, r) && db.users[u].email != r.email
    {
      assert !UserMatches(db, r, KeyOf(env, r), u);
    }
  }

  lemma OrganizationAdded(env: Env, db: Database, r: Request)
    requires WellFormed(db) && OrgAbsent(db, r)
    ensures WellFormed(db.(orgs := db.orgs[r.orgId := OrgOf(r)]))
    ensures Advances(env, db, db.(orgs := db.orgs[r.orgId := OrgOf(r)]))
    ensures OrgExact(db.(orgs := db.orgs[r.orgId := OrgOf(r)]), r)
  {
    forall o | o in db.orgs ensures o != r.orgId && db.orgs[o].slug != r.slug { assert !OrgMatches(db, r, o); }
  }

  lemma BindWellFormed(env: Env, db: Database, r: Request)
    requires WellFormed(db) && OrgExact(db, r) && BindReady(env, db, r) && KeyFree(env, db, r)
    ensures WellFormed(WithBinding(env, db, r))
  {
    var after := WithBinding(env, db, r);
    assert after.users[r.userId].email == db.users[r.userId].email;
    assert after.users.Keys == db.users.Keys;
  }

  lemma BindAdvances(env: Env, db: Database, r: Request)
    requires !ForeignIssuer(db, IssuerOf(env, r)) && BindReady(env, db, r)
    requires AuditIdOf(env, r, BINDING) !in db.audits
    ensures Advances(env, db, WithBinding(env, db, r))
  {
    var after := WithBinding(env, db, r);
    assert env.key(r.issuer, r.subject) == after.users[r.userId].sub;
    assert after.memberships == db.memberships && after.orgs == db.orgs;
    forall u | u in db.users ensures UserKept(db, after, u) {}
  }

  lemma BootstrapAdvances(env: Env, db: Database, r: Request)
    requires WellFormed(db) && Bootstrap(env, db, r).result.Created?
    ensures WellFormed(Bootstrap(env, db, r).db) && Advances(env, db, Bootstrap(env, db, r).db)
  {
    OrganizationAdded(env, db, r);
    var mid := db.(orgs := db.orgs[r.orgId := OrgOf(r)]);
    MemberAdvances(env, mid, r, BOOTSTRAP);
    MemberWellFormed(env, mid, r, BOOTSTRAP);
    AdvancesTrans(env, db, mid, Bootstrap(env, db, r).db);
  }

  /** Every operation keeps the keys of the tables and only advances. */
  lemma ApplyAdvances(env: Env, db: Database, op: Operation)
    requires WellFormed(db)
    ensures WellFormed(Apply(env, db, op).db)
    ensures Advances(env, db, Apply(env, db, op).db)
  {
    AdvancesRefl(env, db);
    var r := op.request;
    if Apply(env, db, op).result.Bound? {
      BindWellFormed(env, db, r);
      BindAdvances(env, db, r);
    } else if Apply(env, db, op).result.Created? {
      if op.MemberOp? {
        MemberAdvances(env, db, r, MEMBER);
        MemberWellFormed(env, db, r, MEMBER);
      } else {
        BootstrapAdvances(env, db, r);
      }
    }
  }

  lemma {:induction false} RunAdvances(env: Env, db: Database, ops: seq<Operation>)
    requires WellFormed(db)
    ensures WellFormed(RunAll(env, db, ops))
    ensures Advances(env, db, RunAll(env, db, ops))
    decreases |ops|
  {
    if ops == [] {
      AdvancesRefl(env, db);
    } else {
      var next := Apply(env, db, ops[0]).db;
      ApplyAdvances(env, db, ops[0]);
      RunAdvances(env, next, ops[1..]);
      AdvancesTrans(env, db, next, RunAll(env, db, ops));
    }
  }

  /** A success puts one bound user in place, of the request's issuer, and leaves no other issuer. */
  lemma SuccessLeavesOneIssuer(env: Env, db: Database, op: Operation)
    requires WellFormed(db)
    requires !Apply(env, db, op).result.Refused? && !Apply(env, db, op).result.Aborted?
    ensures var after := Apply(env, db, op).db;
            && op.request.userId in after.users
            && after.users[op.request.userId] == UserOf(env, op.request)
            && !ForeignIssuer(after, IssuerOf(env, op.request))
            && OneIssuer(after)
  {
    SuccessSetsUser(env, db, op);
  }

  lemma SuccessSetsUser(env: Env, db: Database, op: Operation)
    requires !Apply(env, db, op).result.Refused? && !Apply(env, db, op).result.Aborted?
    ensures !ForeignIssuer(db, IssuerOf(env, op.request))
    ensures Apply(env, db, op).db.users == db.users[op.request.userId := UserOf(env, op.request)]
  {
    match op
    case BootstrapOp(r) => assert Bootstrap(env, db, r).result.Unchanged? ==> UserSettled(env, db, r, BOOTSTRAP);
    case MemberOp(r) => assert Provision(env, db, r).result.Unchanged? ==> UserSettled(env, db, r, MEMBER);
    case BindOp(r) => assert Bind(env, db, r).result.Unchanged? ==> BindSettled(env, db, r);
  }

  lemma OneIssuerKept(env: Env, db: Database, op: Operation)
    requires WellFormed(db) && OneIssuer(db)
    ensures OneIssuer(Apply(env, db, op).db)
  {
    if Apply(env, db, op).result.Created? || Apply(env, db, op).result.Bound? {
      SuccessLeavesOneIssuer(env, db, op);
    }
  }

  /** Over any run the tables keep their keys and all bound users share one issuer; nothing is lost
      and no existing user gains a membership. */
  lemma {:induction false} RunKeepsInvariants(env: Env, db: Database, ops: seq<Operation>)
    requires WellFormed(db) && OneIssuer(db)
    ensures WellFormed(RunAll(env, db, ops)) && OneIssuer(RunAll(env, db, ops))
    ensures var later := RunAll(env, db, ops);
            && (forall m :: m in later.memberships ==> m.0 in later.orgs && m.1 in later.users)
            && (forall e :: e in later.audits ==> later.audits[e].org in later.orgs && later.audits[e].actor in later.users)
            && (forall a, b :: a in later.users && b in later.users && later.users[a].sub == later.users[b].sub ==> a == b)
            && (forall a, b :: a in later.users && b in later.users && later.users[a].email == later.users[b].email ==> a == b)
            && (forall a, b :: a in later.orgs && b in later.orgs && later.orgs[a].slug == later.orgs[b].slug ==> a == b)
            && (forall a, b :: a in later.users && b in later.users ==>
                  later.users[a].issuer == later.users[b].issuer
                  || later.users[a].issuer == None || later.users[b].issuer == None)
    ensures forall m :: m in RunAll(env, db, ops).memberships && m.1 in db.users ==> m in db.memberships
    decreases |ops|
  {
    RunAdvances(env, db, ops);
    if ops != [] {
      ApplyAdvances(env, db, ops[0]);
      OneIssuerKept(env, db, ops[0]);
      RunKeepsInvariants(env, Apply(env, db, ops[0]).db, ops[1..]);
    }
  }

  // ----- running a request again

  lemma OrgExactPersists(env: Env, a: Database, b: Database, r: Request)
    requires OrgExact(a, r) && WellFormed(b) && Advances(env, a, b)
    ensures OrgExact(b, r)
  {
  }

  lemma IssuerPersists(env: Env, a: Database, b: Database, u: string, issuer: string)
    requires Advances(env, a, b) && !ForeignIssuer(a, issuer)
    requires u in a.users && a.users[u].issuer == Some(issuer)
    ensures !ForeignIssuer(b, issuer)
  {
    forall v | v in b.users && b.users[v].issuer.Some?
      ensures b.users[v].issuer.value == issuer
    {
      if IsBound(a, v) {
        assert UserKept(a, b, v);
      } else {
        assert IsBound(b, v) && IsBound(a, u);
      }
    }
  }

  lemma SettledPersists(env: Env, a: Database, b: Database, r: Request, action: string)
    requires UserSettled(env, a, r, action) && WellFormed(b) && Advances(env, a, b)
    ensures UserSettled(env, b, r, action)
  {
    assert UserKept(a, b, r.userId);
  }

  lemma AdministratorPersists(env: Env, a: Database, b: Database, org: string, issuer: string)
    requires HasAdministrator(a, org, issuer) && Advances(env, a, b)
    ensures HasAdministrator(b, org, issuer)
  {
    var m :| m in a.memberships && m.0 == org && a.memberships[m] in INITIAL_ROLES
             && m.1 in a.users && a.users[m.1].issuer == Some(issuer);
    assert UserKept(a, b, m.1);
    assert m in b.memberships;
  }

  /** The state a request leaves behind and later finds again. */
  predicate Provisioned(env: Env, db: Database, r: Request, action: string) {
    OrgExact(db, r) && UserSettled(env, db, r, action) && !ForeignIssuer(db, IssuerOf(env, r))
  }

  lemma ProvisionedPersists(env: Env, a: Database, b: Database, r: Request, action: string)
    requires Provisioned(env, a, r, action) && WellFormed(b) && Advances(env, a, b)
    ensures Provisioned(env, b, r, action)
  {
    OrgExactPersists(env, a, b, r);
    SettledPersists(env, a, b, r, action);
    IssuerPersists(env, a, b, r.userId, IssuerOf(env, r));
  }

  lemma RunKeepsProvisioned(env: Env, db: Database, ops: seq<Operation>, r: Request, action: string)
    requires WellFormed(db) && Provisioned(env, db, r, action)
    ensures WellFormed(RunAll(env, db, ops)) && Provisioned(env, RunAll(env, db, ops), r, action)
  {
    RunAdvances(env, db, ops);
    ProvisionedPersists(env, db, RunAll(env, db, ops), r, action);
  }

  lemma RunKeepsAdministrator(env: Env, db: Database, ops: seq<Operation>, org: string, issuer: string)
    requires WellFormed(db) && HasAdministrator(db, org, issuer)
    ensures HasAdministrator(RunAll(env, db, ops), org, issuer)
  {
    RunAdvances(env, db, ops);
    AdministratorPersists(env, db, RunAll(env, db, ops), org, issuer);
  }

  lemma StepWellFormed(env: Env, db: Database, op: Operation)
    requires WellFormed(db)
    ensures WellFormed(Apply(env, db, op).db)
  {
    ApplyAdvances(env, db, op);
  }

  lemma MemberIsProvisioned(env: Env, db: Database, r: Request, action: string)
    requires OrgExact(db, r) && UserFresh(env, db, r, action) && !ForeignIssuer(db, IssuerOf(env, r))
    ensures Provisioned(env, WithMember(env, db, r, action), r, action)
  {
    var after := WithMember(env, db, r, action);
    forall u | u in after.users && UserMatches(after, r, KeyOf(env, r), u)
      ensures u == r.userId
    {
      if u != r.userId {
        assert UserMatches(db, r, KeyOf(env, r), u);
      }
    }
  }

  lemma BootstrapProvisions(env: Env, db: Database, r: Request)
    requires WellFormed(db) && (Bootstrap(env, db, r).result.Created? || Bootstrap(env, db, r).result.Unchanged?)
    ensures WellFormed(Bootstrap(env, db, r).db) && Provisioned(env, Bootstrap(env, db, r).db, r, BOOTSTRAP)
  {
    StepWellFormed(env, db, BootstrapOp(r));
    if Bootstrap(env, db, r).result.Created? {
      OrganizationAdded(env, db, r);
      MemberIsProvisioned(env, db.(orgs := db.orgs[r.orgId := OrgOf(r)]), r, BOOTSTRAP);
    }
  }

  lemma ProvisionProvisions(env: Env, db: Database, r: Request)
    requires WellFormed(db) && (Provision(env, db, r).result.Created? || Provision(env, db, r).result.Unchanged?)
    ensures WellFormed(Provision(env, db, r).db) && Provisioned(env, Provision(env, db, r).db, r, MEMBER)
  {
    StepWellFormed(env, db, MemberOp(r));
    if Provision(env, db, r).result.Created? {
      MemberIsProvisioned(env, db, r, MEMBER);
    }
  }

  lemma StillHasAdministrator(env: Env, db: Database, op: Operation, org: string, issuer: string)
    requires WellFormed(db) && HasAdministrator(db, org, issuer)
    ensures HasAdministrator(Apply(env, db, op).db, org, issuer)
  {
    ApplyAdvances(env, db, op);
    AdministratorPersists(env, db, Apply(env, db, op).db, org, issuer);
  }

  /** A bootstrap that succeeded, run again after any further operations, finds everything as it
      left it: the same audit id, and no change. */
  lemma BootstrapIsIdempotent(env: Env, db: Database, r: Request, ops: seq<Operation>)
    requires WellFormed(db) && (Bootstrap(env, db, r).result.Created? || Bootstrap(env, db, r).result.Unchanged?)
    ensures var later := RunAll(env, Bootstrap(env, db, r).db, ops);
            && Bootstrap(env, later, r).result == Unchanged(Bootstrap(env, db, r).result.auditId)
            && Bootstrap(env, later, r).db == later
  {
    var after := Bootstrap(env, db, r).db;
    BootstrapProvisions(env, db, r);
    RunKeepsProvisioned(env, after, ops, r, BOOTSTRAP);
  }

  /** So does the provisioning of a further member. */
  lemma ProvisionIsIdempotent(env: Env, db: Database, r: Request, ops: seq<Operation>)
    requires WellFormed(db) && (Provision(env, db, r).result.Created? || Provision(env, db, r).result.Unchanged?)
    ensures var later := RunAll(env, Provision(env, db, r).db, ops);
            && Provision(env, later, r).result == Unchanged(Provision(env, db, r).result.auditId)
            && Provision(env, later, r).db == later
  {
    var after := Provision(env, db, r).db;
    ProvisionProvisions(env, db, r);
    RunKeepsProvisioned(env, after, ops, r, MEMBER);
    StillHasAdministrator(env, db, MemberOp(r), r.orgId, IssuerOf(env, r));
    RunKeepsAdministrator(env, after, ops, r.orgId, IssuerOf(env, r));
  }

  // ----- binding again

  /** Nobody else has the raw subject of the request as identity. */
  predicate SubjectFree(db: Database, r: Request) {
    forall u :: u in db.users && u != r.userId ==> db.users[u].sub != r.subject
  }

  lemma OnlyUserIff(db: Database, r: Request)
    requires WellFormed(db) && r.userId in db.users && db.users[r.userId].email == r.email
    ensures OnlyUser(db, r, r.subject) <==> SubjectFree(db, r)
  {
    if OnlyUser(db, r, r.subject) {
      forall u | u in db.users && u != r.userId ensures db.users[u].sub != r.subject {
        assert !UserMatches(db, r, r.subject, u);
      }
    }
  }

  lemma MembershipPersists(env: Env, a: Database, b: Database, r: Request)
    requires OnlyMembership(a, r) && WellFormed(a) && r.userId in a.users && Advances(env, a, b)
    ensures OnlyMembership(b, r)
  {
    forall o | o in b.orgs && (o, r.userId) in b.memberships
      ensures o == r.orgId
    {
      assert (o, r.userId) in a.memberships;
    }
  }

  /** A bound legacy user, but for who else may hold its raw subject. */
  predicate BoundOnce(env: Env, db: Database, r: Request) {
    && OrgExact(db, r) && !ForeignIssuer(db, IssuerOf(env, r))
    && r.userId in db.users && db.users[r.userId] == UserOf(env, r)
    && OnlyMembership(db, r) && AuditExact(env, db, r, BINDING)
  }

  lemma BindBinds(env: Env, db: Database, r: Request)
    requires WellFormed(db) && (Bind(env, db, r).result.Bound? || Bind(env, db, r).result.Unchanged?)
    ensures WellFormed(Bind(env, db, r).db) && BoundOnce(env, Bind(env, db, r).db, r)
    ensures env.formatted(r) && Bind(env, db, r).result.auditId == AuditIdOf(env, r, BINDING)
  {
    StepWellFormed(env, db, BindOp(r));
  }

  lemma BoundPersists(env: Env, a: Database, b: Database, r: Request)
    requires BoundOnce(env, a, r) && WellFormed(a) && WellFormed(b) && Advances(env, a, b)
    ensures BoundOnce(env, b, r)
  {
    assert UserKept(a, b, r.userId);
    OrgExactPersists(env, a, b, r);
    IssuerPersists(env, a, b, r.userId, IssuerOf(env, r));
    MembershipPersists(env, a, b, r);
  }

  lemma RunKeepsBound(env: Env, db: Database, ops: seq<Operation>, r: Request)
    requires WellFormed(db) && BoundOnce(env, db, r)
    ensures WellFormed(RunAll(env, db, ops)) && BoundOnce(env, RunAll(env, db, ops), r)
  {
    RunAdvances(env, db, ops);
    BoundPersists(env, db, RunAll(env, db, ops), r);
  }

  lemma BoundFound(env: Env, db: Database, r: Request)
    requires BoundOnce(env, db, r) && WellFormed(db) && env.formatted(r)
    ensures Bind(env, db, r) ==
              Outcome(if SubjectFree(db, r) then Unchanged(AuditIdOf(env, r, BINDING)) else Refused, db)
  {
    OnlyUserIff(db, r);
  }

  lemma RunThenBound(env: Env, db: Database, ops: seq<Operation>, r: Request)
    requires WellFormed(db) && BoundOnce(env, db, r) && env.formatted(r)
    ensures var later := RunAll(env, db, ops);
            Bind(env, later, r) ==
              Outcome(if SubjectFree(later, r) then Unchanged(AuditIdOf(env, r, BINDING)) else Refused, later)
  {
    RunKeepsBound(env, db, ops, r);
    BoundFound(env, RunAll(env, db, ops), r);
  }

  /** A binding that succeeded, run again after any further operations, is unchanged exactly when
      nobody else has meanwhile taken the raw subject as identity. */
  lemma BindRerunIff(env: Env, db: Database, r: Request, ops: seq<Operation>)
    requires WellFormed(db) && (Bind(env, db, r).result.Bound? || Bind(env, db, r).result.Unchanged?)
    ensures var later := RunAll(env, Bind(env, db, r).db, ops);
            Bind(env, later, r) ==
              Outcome(if SubjectFree(later, r) then Unchanged(Bind(env, db, r).result.auditId) else Refused, later)
  {
    BindBinds(env, db, r);
    RunThenBound(env, Bind(env, db, r).db, ops, r);
  }

  lemma SubjectStaysFree(env: Env, db: Database, op: Operation, ops: seq<Operation>, r: Request)
    requires WellFormed(db) && SubjectFree(db, r) && !IsKey(env, r.subject)
    ensures SubjectFree(RunAll(env, Apply(env, db, op).db, ops), r)
  {
    ApplyAdvances(env, db, op);
    RunAdvances(env, Apply(env, db, op).db, ops);
  }

  /** Raw subjects that are not identity keys are never taken, so then it is always unchanged. */
  lemma BindIsIdempotent(env: Env, db: Database, r: Request, ops: seq<Operation>)
    requires WellFormed(db) && (Bind(env, db, r).result.Bound? || Bind(env, db, r).result.Unchanged?)
    requires !IsKey(env, r.subject)
    ensures var later := RunAll(env, Bind(env, db, r).db, ops);
            Bind(env, later, r) == Outcome(Unchanged(Bind(env, db, r).result.auditId), later)
  {
    OnlyUserIff(db, r);
    SubjectStaysFree(env, db, BindOp(r), ops, r);
    BindRerunIff(env, db, r, ops);
  }

  /** It can fail otherwise: a member provisioned later whose identity key is the raw subject. */
  lemma LaterMemberTakesSubject(env: Env, db: Database, r: Request, member: Request)
    requires WellFormed(db) && Bind(env, db, r).result.Bound?
    requires Provision(env, Bind(env, db, r).db, member).result.Created? && KeyOf(env, member) == r.subject
    ensures Bind(env, Provision(env, Bind(env, db, r).db, member).db, r).result == Refused
  {
    var after := Bind(env, db, r).db;
    var ops := [MemberOp(member)];
    var later := Provision(env, after, member).db;
    assert ops[1..] == [];
    assert RunAll(env, later, ops[1..]) == later;
    assert RunAll(env, after, ops) == later;
    BindRerunIff(env, db, r, ops);
    ApplyAdvances(env, db, BindOp(r));
    assert member.userId !in after.users by {
      assert member.userId in after.users ==> UserMatches(after, member, KeyOf(env, member), member.userId);
    }
    assert later.users[member.userId].sub == r.subject;
  }

  // ----- when a transaction aborts

  function ActionOf(op: Operation): string {
    match op
    case BootstrapOp(_) => BOOTSTRAP
    case MemberOp(_) => MEMBER
    case BindOp(_) => BINDING
  }

  /** The operation's audit id belongs to an event of another organization, which it cannot see. */
  predicate AuditHeldElsewhere(env: Env, db: Database, op: Operation) {
    var id := AuditIdOf(env, op.request, ActionOf(op));
    id in db.audits && db.audits[id].org != op.request.orgId
  }

  /** The user still has its raw subject while somebody else already holds the identity key. */
  predicate KeyTaken(env: Env, db: Database, r: Request) {
    && r.userId in db.users && db.users[r.userId].sub == r.subject != KeyOf(env, r)
    && exists u :: u in db.users && u != r.userId && db.users[u].sub == KeyOf(env, r)
  }

  /** A flush fails only on a taken key: an identity key for a binding, or an audit id. */
  lemma AbortMeansKeyTaken(env: Env, db: Database, op: Operation)
    requires WellFormed(db) && Apply(env, db, op).result.Aborted?
    ensures AuditHeldElsewhere(env, db, op) || (op.BindOp? && KeyTaken(env, db, op.request))
  {
    match op
    case BootstrapOp(r) => assert UserFresh(env, db, r, BOOTSTRAP);
    case MemberOp(r) => assert UserFresh(env, db, r, MEMBER);
    case BindOp(r) =>
      assert BindReady(env, db, r);
      if !KeyFree(env, db, r) {
        var u :| u in db.users && u != r.userId && db.users[u].sub == KeyOf(env, r);
        assert db.users[r.userId].sub != db.users[u].sub;
      }
  }

  /** Audit ids of different organizations differ. */
  ghost predicate IdsNameOrganization(env: Env) {
    forall q: Request, r: Request, a: string, b: string ::
      AuditIdOf(env, q, a) == AuditIdOf(env, r, b) ==> q.orgId == r.orgId
  }

  /** An id computed for a request is held, if at all, by its own organization. */
  ghost predicate OwnAudits(env: Env, db: Database) {
    forall r: Request, a: string :: AuditIdOf(env, r, a) in db.audits ==>
      db.audits[AuditIdOf(env, r, a)].org == r.orgId
  }

  /** So it stays over every run, and then only a binding aborts, on a taken identity key. */
  lemma {:induction false} RunKeepsOwnAudits(env: Env, db: Database, ops: seq<Operation>, op: Operation)
    requires WellFormed(db) && IdsNameOrganization(env) && OwnAudits(env, db)
    ensures OwnAudits(env, RunAll(env, db, ops))
    ensures Apply(env, RunAll(env, db, ops), op).result.Aborted? ==>
              op.BindOp? && KeyTaken(env, RunAll(env, db, ops), op.request)
    decreases |ops|
  {
    if ops == [] {
      if Apply(env, db, op).result.Aborted? { AbortMeansKeyTaken(env, db, op); }
    } else {
      ApplyAdvances(env, db, ops[0]);
      ApplyKeepsOwnAudits(env, db, ops[0]);
      RunKeepsOwnAudits(env, Apply(env, db, ops[0]).db, ops[1..], op);
    }
  }

  lemma ApplyKeepsOwnAudits(env: Env, db: Database, op: Operation)
    requires IdsNameOrganization(env) && OwnAudits(env, db)
    ensures OwnAudits(env, Apply(env, db, op).db)
  {
    var after, id := Apply(env, db, op).db, AuditIdOf(env, op.request, ActionOf(op));
    AuditsAfter(env, db, op);
    forall r: Request, a: string | AuditIdOf(env, r, a) in after.audits
      ensures after.audits[AuditIdOf(env, r, a)].org == r.orgId
    {
      if AuditIdOf(env, r, a) == id {
        assert r.orgId == op.request.orgId;
      }
    }
  }

  lemma AuditsAfter(env: Env, db: Database, op: Operation)
    ensures var after := Apply(env, db, op).db;
            || after.audits == db.audits
            || after.audits == db.audits[AuditIdOf(env, op.request, ActionOf(op)) := AuditOf(env, op.request, ActionOf(op))]
  {
  }

  // ----- runs in which this happens

  /** Digests under which the member "alice" has the identity key "k". */
  const SMALL: Env := Env(
    (issuer, subject) => if subject == "alice" then "k" else "key",
    issuer => issuer,
    (org, user, issuer, subject, role, action) => user,
    text => text,
    r => true)

  const OWNER_REQUEST: Request := Request("o", "slug", "name", "u", "issuer", "k", "u@x", "U", OWNER, "ref")
  const ALICE_REQUEST: Request := Request("o", "slug", "name", "v", "issuer", "alice", "v@x", "V", DESIGNER, "ref")

  /** One organization and its owner, whose identity is still the raw subject "k". */
  const LEGACY: Database := Database(
    map["o" := Organization("slug", "name")],
    map["u" := User("k", None, "u@x", "U")],
    map[("o", "u") := OWNER],
    map[])

  lemma LegacyBinds()
    ensures WellFormed(LEGACY)
    ensures Bind(SMALL, LEGACY, OWNER_REQUEST) ==
              Outcome(Bound("u"), WithBinding(SMALL, LEGACY, OWNER_REQUEST))
  {
    assert OrgMatches(LEGACY, OWNER_REQUEST, "o");
    assert UserMatches(LEGACY, OWNER_REQUEST, "k", "u");
    assert LegacyUser(LEGACY, OWNER_REQUEST);
  }

  lemma AliceIsProvisioned()
    ensures var after := WithBinding(SMALL, LEGACY, OWNER_REQUEST);
            Provision(SMALL, after, ALICE_REQUEST).result == Created("v")
  {
    var after := WithBinding(SMALL, LEGACY, OWNER_REQUEST);
    assert after.users == map["u" := User("key", Some("issuer"), "u@x", "U")];
    assert ("o", "u") in after.memberships && after.memberships[("o", "u")] == OWNER;
    assert OrgExact(after, ALICE_REQUEST) && HasAdministrator(after, "o", "issuer");
    assert UserFresh(SMALL, after, ALICE_REQUEST, MEMBER);
  }

  /** The owner is bound, then Alice is provisioned, and the binding run again is refused. */
  lemma RerunIsRefused()
    ensures Bind(SMALL, LEGACY, OWNER_REQUEST).result.Bound?
    ensures var later := RunAll(SMALL, LEGACY, [BindOp(OWNER_REQUEST), MemberOp(ALICE_REQUEST)]);
            Bind(SMALL, later, OWNER_REQUEST).result == Refused
  {
    LegacyBinds();
    AliceIsProvisioned();
    LaterMemberTakesSubject(SMALL, LEGACY, OWNER_REQUEST, ALICE_REQUEST);
    var ops := [BindOp(OWNER_REQUEST), MemberOp(ALICE_REQUEST)];
    var rest := [MemberOp(ALICE_REQUEST)];
    assert ops[1..] == rest && rest[1..] == [];
    var after := Bind(SMALL, LEGACY, OWNER_REQUEST).db;
    assert RunAll(SMALL, after, rest) == Provision(SMALL, after, ALICE_REQUEST).db;
  }

  /** Another user already holds the key the owner is to get: the binding aborts. */
  lemma BindingAborts()
    ensures var db := LEGACY.(users := LEGACY.users["w" := User("key", None, "w@x", "W")]);
            WellFormed(db) && Bind(SMALL, db, OWNER_REQUEST) == Outcome(Aborted, db)
  {
    var db := LEGACY.(users := LEGACY.users["w" := User("key", None, "w@x", "W")]);
    assert OrgMatches(db, OWNER_REQUEST, "o");
    assert UserMatches(db, OWNER_REQUEST, "k", "u");
    assert LegacyUser(db, OWNER_REQUEST);
    assert "w" in db.users && db.users["w"].sub == KeyOf(SMALL, OWNER_REQUEST);
  }

  /** Another organization holds the audit id: the first bootstrap of this one aborts. */
  lemma BootstrapAborts()
    ensures var other := Audit("p", "x", BOOTSTRAP, "user", "x", AuditOf(SMALL, OWNER_REQUEST, BOOTSTRAP).payload);
            var db := Database(map["p" := Organization("p", "P")], map["x" := User("x", None, "x@x", "X")], map[],
                               map["u" := other]);
            WellFormed(db) && Bootstrap(SMALL, db, OWNER_REQUEST) == Outcome(Aborted, db)
  {
  }
}
