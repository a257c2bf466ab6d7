/** When each provisioning operation succeeds and what rows it then leaves, said over the rows of
    the tables. */
module ProvisioningOutcomes {

  import opened IdentityProvisioning
  import opened Wrappers

  // ----- rows

  function EventRow(env: Env, r: Request, action: string): Audit {
    Audit(r.orgId, r.userId, action, "user", r.userId,
          Payload(r.slug, env.digest(r.orgName), r.role, env.digest(r.issuer), env.digest(r.subject),
                  env.digest(r.email), env.digest(r.userName), env.digest(r.operatorReference), action))
  }

  function EventId(env: Env, r: Request, action: string): string {
    env.auditId(r.orgId, r.userId, r.issuer, r.subject, r.role, action)
  }

  function UserRow(env: Env, r: Request): User {
    User(env.key(r.issuer, r.subject), Some(env.issuerHash(r.issuer)), r.email, r.userName)
  }

  /** The organization is there under its id, slug and name. */
  predicate HasOrganization(db: Database, r: Request) {
    r.orgId in db.orgs && db.orgs[r.orgId].slug == r.slug && db.orgs[r.orgId].name == r.orgName
  }

  /** No user is bound to any issuer but the request's. */
  predicate NoOtherIssuer(env: Env, db: Database, r: Request) {
    forall u :: u in db.users ==> db.users[u].issuer in {None, Some(env.issuerHash(r.issuer))}
  }

  /** No user has the id, the identity key or the e-mail address of the request. */
  predicate NoSuchUser(env: Env, db: Database, r: Request) {
    && r.userId !in db.users
    && forall u :: u in db.users ==> db.users[u].sub != env.key(r.issuer, r.subject) && db.users[u].email != r.email
  }

  /** An owner or an administrator of the organization is bound to the issuer of the request. */
  ghost predicate HasBoundAdministrator(env: Env, db: Database, r: Request) {
    exists u ::
      && (r.orgId, u) in db.memberships && db.memberships[(r.orgId, u)] in {OWNER, ADMIN}
      && u in db.users && db.users[u].issuer == Some(env.issuerHash(r.issuer))
  }

  /** The bound user, its membership and the event are there, just as this request would leave them. */
  predicate HasMember(env: Env, db: Database, r: Request, action: string) {
    && r.userId in db.users && db.users[r.userId] == UserRow(env, r)
    && (r.orgId, r.userId) in db.memberships && db.memberships[(r.orgId, r.userId)] == r.role
    && HasEvent(env, db, r, action)
  }

  predicate HasEvent(env: Env, db: Database, r: Request, action: string) {
    EventId(env, r, action) in db.audits && db.audits[EventId(env, r, action)] == EventRow(env, r, action)
  }

  /** The id of the event belongs to an event of another organization. */
  predicate EventElsewhere(env: Env, db: Database, r: Request, action: string) {
    EventId(env, r, action) in db.audits && db.audits[EventId(env, r, action)].org != r.orgId
  }

  lemma OrganizationIff(db: Database, r: Request)
    requires WellFormed(db)
    ensures OrgExact(db, r) <==> HasOrganization(db, r)
    ensures OrgAbsent(db, r) <==> r.orgId !in db.orgs && forall o :: o in db.orgs ==> db.orgs[o].slug != r.slug
  {
    if OrgAbsent(db, r) {
      forall o | o in db.orgs ensures o != r.orgId && db.orgs[o].slug != r.slug { assert !OrgMatches(db, r, o); }
    }
  }

  lemma IssuerIff(env: Env, db: Database, r: Request)
    ensures ForeignIssuer(db, IssuerOf(env, r)) <==> !NoOtherIssuer(env, db, r)
  {
  }

  lemma UserIff(env: Env, db: Database, r: Request, action: string)
    requires WellFormed(db)
    ensures UserAbsent(db, r, KeyOf(env, r)) <==> NoSuchUser(env, db, r)
    ensures UserSettled(env, db, r, action) <==> HasMember(env, db, r, action)
  {
    if UserAbsent(db, r, KeyOf(env, r)) {
      forall u | u in db.users
        ensures u != r.userId && db.users[u].sub != env.key(r.issuer, r.subject) && db.users[u].email != r.email
      {
        assert !UserMatches(db, r, KeyOf(env, r), u);
      }
    }
  }

  lemma AdministratorIff(env: Env, db: Database, r: Request)
    ensures HasAdministrator(db, r.orgId, IssuerOf(env, r)) <==> HasBoundAdministrator(env, db, r)
  {
    if HasAdministrator(db, r.orgId, IssuerOf(env, r)) {
      var m :| m in db.memberships && m.0 == r.orgId && db.memberships[m] in INITIAL_ROLES
               && m.1 in db.users && db.users[m.1].issuer == Some(IssuerOf(env, r));
      assert m == (r.orgId, m.1);
    }
  }

  // ----- the first administrator

  /** What bootstrapping needs of the tables to create everything. */
  predicate MayBootstrap(env: Env, db: Database, r: Request) {
    && env.formatted(r) && r.role in {OWNER, ADMIN} && NoOtherIssuer(env, db, r)
    && r.orgId !in db.orgs && (forall o :: o in db.orgs ==> db.orgs[o].slug != r.slug)
    && NoSuchUser(env, db, r)
  }

  /** It creates, aborts or finds everything there exactly then, and otherwise refuses; only a creation
      changes the tables, by these rows. */
  lemma BootstrapOutcome(env: Env, db: Database, r: Request)
    requires WellFormed(db)
    ensures var outcome := Bootstrap(env, db, r);
            var action := "identity.bootstrap.production_admin";
            var id := EventId(env, r, action);
            && (outcome.result == Created(id) <==> MayBootstrap(env, db, r) && id !in db.audits)
            && (outcome.result == Aborted <==> MayBootstrap(env, db, r) && EventElsewhere(env, db, r, action))
            && (outcome.result == Unchanged(id) <==>
                  && env.formatted(r) && r.role in {OWNER, ADMIN} && NoOtherIssuer(env, db, r)
                  && HasOrganization(db, r) && HasMember(env, db, r, action))
            && outcome.result in {Created(id), Aborted, Unchanged(id), Refused}
            && outcome.db == (
              if outcome.result != Created(id) then db
              else Database(db.orgs[r.orgId := Organization(r.slug, r.orgName)],
                            db.users[r.userId := UserRow(env, r)],
                            db.memberships[(r.orgId, r.userId) := r.role],
                            db.audits[id := EventRow(env, r, action)]))
  {
    var action := "identity.bootstrap.production_admin";
    OrganizationIff(db, r);
    IssuerIff(env, db, r);
    UserIff(env, db, r, action);
    if OrgAbsent(db, r) {
      assert r.orgId !in db.orgs;
      assert MemberOf(r) !in db.memberships;
    }
  }

  // ----- further members

  /** What provisioning a further member needs of the tables to create it. */
  ghost predicate MayProvision(env: Env, db: Database, r: Request) {
    && env.formatted(r) && r.role in {DESIGNER, REVIEWER} && NoOtherIssuer(env, db, r)
    && HasOrganization(db, r) && HasBoundAdministrator(env, db, r)
    && NoSuchUser(env, db, r)
  }

  /** So with a further member. */
  lemma ProvisionOutcome(env: Env, db: Database, r: Request)
    requires WellFormed(db)
    ensures var outcome := Provision(env, db, r);
            var action := "identity.bootstrap.production_member";
            var id := EventId(env, r, action);
            && (outcome.result == Created(id) <==> MayProvision(env, db, r) && id !in db.audits)
            && (outcome.result == Aborted <==> MayProvision(env, db, r) && EventElsewhere(env, db, r, action))
            && (outcome.result == Unchanged(id) <==>
                  && env.formatted(r) && r.role in {DESIGNER, REVIEWER} && NoOtherIssuer(env, db, r)
                  && HasOrganization(db, r) && HasBoundAdministrator(env, db, r) && HasMember(env, db, r, action))
            && outcome.result in {Created(id), Aborted, Unchanged(id), Refused}
            && outcome.db == (
              if outcome.result != Created(id) then db
              else Database(db.orgs,
                            db.users[r.userId := UserRow(env, r)],
                            db.memberships[(r.orgId, r.userId) := r.role],
                            db.audits[id := EventRow(env, r, action)]))
  {
    OrganizationIff(db, r);
    IssuerIff(env, db, r);
    UserIff(env, db, r, "identity.bootstrap.production_member");
    AdministratorIff(env, db, r);
  }

  // ----- legacy identities

  /** The user is there under its id, e-mail address and name, nobody else has its raw subject, and
      its one membership is the request's. */
  predicate HasLegacyUser(db: Database, r: Request) {
    && r.userId in db.users && db.users[r.userId].email == r.email && db.users[r.userId].name == r.userName
    && (forall u :: u in db.users && u != r.userId ==> db.users[u].sub != r.subject)
    && (r.orgId, r.userId) in db.memberships && db.memberships[(r.orgId, r.userId)] == r.role
    && (forall m :: m in db.memberships && m.1 == r.userId ==> m.0 == r.orgId)
  }

  predicate KeyElsewhere(env: Env, db: Database, r: Request) {
    exists u :: u in db.users && u != r.userId && db.users[u].sub == env.key(r.issuer, r.subject)
  }

  /** What binding needs of the tables to go ahead. */
  predicate MayBind(env: Env, db: Database, r: Request) {
    && env.formatted(r) && NoOtherIssuer(env, db, r) && HasOrganization(db, r) && HasLegacyUser(db, r)
    && db.users[r.userId].issuer == None
    && db.users[r.userId].sub in {r.subject, env.key(r.issuer, r.subject)}
  }

  lemma LegacyIff(db: Database, r: Request)
    requires WellFormed(db)
    ensures LegacyUser(db, r) <==> HasLegacyUser(db, r)
  {
    if LegacyUser(db, r) {
      forall u | u in db.users && u != r.userId ensures db.users[u].sub != r.subject {
        assert !UserMatches(db, r, r.subject, u);
      }
      forall m | m in db.memberships && m.1 == r.userId ensures m.0 == r.orgId {
        assert (m.0, r.userId) in db.memberships;
      }
    }
  }

  /** And with a binding. */
  lemma BindOutcome(env: Env, db: Database, r: Request)
    requires WellFormed(db)
    ensures var outcome := Bind(env, db, r);
            var action := "identity.bootstrap.legacy_oidc_issuer_binding";
            var id := EventId(env, r, action);
            && (outcome.result == Bound(id) <==>
                  MayBind(env, db, r) && id !in db.audits && !KeyElsewhere(env, db, r))
            && (outcome.result == Aborted <==>
                  && MayBind(env, db, r)
                  && (EventElsewhere(env, db, r, action) || (id !in db.audits && KeyElsewhere(env, db, r))))
            && (outcome.result == Unchanged(id) <==>
                  && env.formatted(r) && NoOtherIssuer(env, db, r) && HasOrganization(db, r) && HasLegacyUser(db, r)
                  && db.users[r.userId] == UserRow(env, r) && HasEvent(env, db, r, action))
            && outcome.result in {Bound(id), Aborted, Unchanged(id), Refused}
            && outcome.db == (
              if outcome.result != Bound(id) then db
              else Database(db.orgs,
                            db.users[r.userId := UserRow(env, r)],
                            db.memberships,
                            db.audits[id := EventRow(env, r, action)]))
  {
    OrganizationIff(db, r);
    IssuerIff(env, db, r);
    LegacyIff(db, r);
  }
}
