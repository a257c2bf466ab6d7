/** The database privileges of the untrusted runtimes (scripts/postgres_runtime_privileges.py): the
    ACL rebuild as a program of SQL statements, over a model of what those statements do. */
module RuntimeAcl {

  import opened Wrappers

  // ----- the database: its roles, schema public and what is in it

  datatype Grantee = Public | Role(name: string)

  datatype Kind = SCHEMA | TABLE | SEQUENCE | FUNCTION

  datatype Object = Object(kind: Kind, name: string)

  datatype Grant = Grant(grantee: Grantee, on: Object, privilege: string)

  /** What objects the migrator creates later will carry: defaults for every schema, and defaults
      for schema public, which only add to those. */
  datatype Scope = GLOBAL | IN_SCHEMA

  datatype Default = Default(scope: Scope, grantee: Grantee, kind: Kind, privilege: string)

  /** What exists. */
  datatype Catalog = Catalog(objects: set<Object>, roles: set<string>)

  datatype Database = Database(catalog: Catalog, grants: set<Grant>, defaults: set<Default>)

  /** `All` is ALL PRIVILEGES. */
  datatype Privileges = All | Only(privilege: string)

  datatype Statement =
    | Revoke(kind: Kind, privileges: Privileges, grantees: set<Grantee>)
    | RevokeDefault(scope: Scope, kind: Kind, privileges: Privileges, grantees: set<Grantee>)
    | GrantOn(granted: seq<string>, on: seq<Object>, grantees: set<Grantee>)

  predicate Covers(privileges: Privileges, privilege: string) {
    privileges.All? || privileges.privilege == privilege
  }

  predicate Revokes(st: Statement, g: Grant) {
    st.Revoke? && g.on.kind == st.kind && Covers(st.privileges, g.privilege) && g.grantee in st.grantees
  }

  predicate Undefaults(st: Statement, d: Default) {
    && st.RevokeDefault? && d.scope == st.scope && d.kind == st.kind
    && Covers(st.privileges, d.privilege) && d.grantee in st.grantees
  }

  function Granted(st: Statement): set<Grant> {
    if st.GrantOn?
    then set p, o, r | p in st.granted && o in st.on && r in st.grantees :: Grant(r, o, p)
    else {}
  }

  const PUBLIC_SCHEMA: Object := Object(SCHEMA, "public")
  const MIGRATOR := "custombuild_migrator"

  predicate Known(grantee: Grantee, c: Catalog) {
    grantee.Public? || grantee.name in c.roles
  }

  /** A grant must list something, and everything a statement names must exist: its roles, schema
      public, the granted objects, and the role whose defaults are altered. */
  predicate Executable(st: Statement, c: Catalog) {
    && st.grantees != {} && (forall r :: r in st.grantees ==> Known(r, c))
    && match st
       case Revoke(_, _, _) => PUBLIC_SCHEMA in c.objects
       case RevokeDefault(scope, _, _, _) => MIGRATOR in c.roles && (scope.IN_SCHEMA? ==> PUBLIC_SCHEMA in c.objects)
       case GrantOn(granted, on, _) => granted != [] && on != [] && forall o :: o in on ==> o in c.objects
  }

  function Execute(db: Database, st: Statement): Option<Database> {
    if !Executable(st, db.catalog) then None
    else Some(Database(
      db.catalog,
      (set g | g in db.grants && !Revokes(st, g)) + Granted(st),
      set d | d in db.defaults && !Undefaults(st, d)))
  }

  /** The first `n` statements in order; the first failure aborts. */
  function Run(db: Database, program: seq<Statement>, n: nat): Option<Database>
    requires n <= |program|
  {
    if n == 0 then Some(db)
    else
      match Run(db, program, n - 1)
      case None => None
      case Some(mid) => Execute(mid, program[n - 1])
  }

  // ----- the policy and its program

  datatype Entry = Entry(table: string, privileges: seq<string>)

  /** A dictionary from tables to privilege tuples, in its order. */
  type TablePolicy = seq<Entry>

  datatype RoleTables = RoleTables(role: string, tables: TablePolicy)
  datatype RoleFunctions = RoleFunctions(role: string, signatures: seq<string>)

  datatype Policy = Policy(
    runtimeRoles: seq<string>,
    attestor: string,
    roleTables: seq<RoleTables>,
    attestorTables: TablePolicy,
    roleFunctions: seq<RoleFunctions>,
    attestorFunctions: seq<string>)

  function Table(name: string): Object { Object(TABLE, name) }
  function Function(signature: string): Object { Object(FUNCTION, signature) }

  /** The privilege tuples among the first `n` entries, in the order they first appear. */
  function Tuples(tables: TablePolicy, n: nat): seq<seq<string>>
    requires n <= |tables|
  {
    if n == 0 then []
    else
      var front := Tuples(tables, n - 1);
      if tables[n - 1].privileges in front then front else front + [tables[n - 1].privileges]
  }

  /** The tables among the first `n` entries that have exactly this tuple. */
  function TablesWith(tables: TablePolicy, n: nat, privileges: seq<string>): seq<Object>
    requires n <= |tables|
  {
    if n == 0 then []
    else
      var front := TablesWith(tables, n - 1, privileges);
      if tables[n - 1].privileges == privileges then front + [Table(tables[n - 1].table)] else front
  }

  function TableGrants(role: string, tables: TablePolicy): seq<Statement> {
    var tuples := Tuples(tables, |tables|);
    seq(|tuples|, i requires 0 <= i < |tuples| =>
      GrantOn(tuples[i], TablesWith(tables, |tables|, tuples[i]), {Role(role)}))
  }

  function FunctionGrants(role: string, signatures: seq<string>): seq<Statement> {
    seq(|signatures|, i requires 0 <= i < |signatures| =>
      GrantOn(["EXECUTE"], [Function(signatures[i])], {Role(role)}))
  }

  function RoleTableGrants(roles: seq<RoleTables>, n: nat): seq<Statement>
    requires n <= |roles|
  {
    if n == 0 then []
    else RoleTableGrants(roles, n - 1) + TableGrants(roles[n - 1].role, roles[n - 1].tables)
  }

  function RoleFunctionGrants(roles: seq<RoleFunctions>, n: nat): seq<Statement>
    requires n <= |roles|
  {
    if n == 0 then []
    else RoleFunctionGrants(roles, n - 1) + FunctionGrants(roles[n - 1].role, roles[n - 1].signatures)
  }

  function Untrusted(policy: Policy): set<Grantee> {
    (set r | r in policy.runtimeRoles :: Role(r)) + {Role(policy.attestor)}
  }

  const PUBLIC: set<Grantee> := {Public}

  function Revocations(untrusted: set<Grantee>): seq<Statement> {
    [ Revoke(SCHEMA, Only("CREATE"), PUBLIC),
      RevokeDefault(IN_SCHEMA, TABLE, All, PUBLIC),
      RevokeDefault(IN_SCHEMA, SEQUENCE, All, PUBLIC),
      RevokeDefault(IN_SCHEMA, TABLE, All, untrusted),
      RevokeDefault(IN_SCHEMA, SEQUENCE, All, untrusted),
      RevokeDefault(GLOBAL, FUNCTION, Only("EXECUTE"), PUBLIC),
      RevokeDefault(GLOBAL, FUNCTION, Only("EXECUTE"), untrusted),
      RevokeDefault(IN_SCHEMA, FUNCTION, Only("EXECUTE"), PUBLIC),
      RevokeDefault(IN_SCHEMA, FUNCTION, Only("EXECUTE"), untrusted),
      Revoke(TABLE, All, PUBLIC),
      Revoke(SEQUENCE, All, PUBLIC),
      Revoke(FUNCTION, All, PUBLIC),
      Revoke(TABLE, All, untrusted),
      Revoke(SEQUENCE, All, untrusted),
      Revoke(FUNCTION, All, untrusted),
      Revoke(SCHEMA, All, untrusted) ]
  }

  function Grants(policy: Policy): seq<Statement> {
    [GrantOn(["USAGE"], [PUBLIC_SCHEMA], Untrusted(policy))]
    + RoleTableGrants(policy.roleTables, |policy.roleTables|)
    + TableGrants(policy.attestor, policy.attestorTables)
    + RoleFunctionGrants(policy.roleFunctions, |policy.roleFunctions|)
    + FunctionGrants(policy.attestor, policy.attestorFunctions)
  }

  function Program(policy: Policy): seq<Statement> {
    Revocations(Untrusted(policy)) + Grants(policy)
  }

  // ----- the loops that build it

  /** Tables are gathered under their privilege tuple, one statement a tuple. */
  method GroupTables(role: string, tables: TablePolicy) returns (statements: seq<Statement>)
    ensures statements == TableGrants(role, tables)
  {
    var order: seq<seq<string>> := [];
    var groups: map<seq<string>, seq<Object>> := map[];
    for n := 0 to |tables|
      invariant order == Tuples(tables, n)
      invariant forall t :: t in groups <==> t in order
      invariant forall t :: t in groups ==> groups[t] == TablesWith(tables, n, t)
      invariant forall t :: t !in groups ==> TablesWith(tables, n, t) == []
    {
      var entry := tables[n];
      if entry.privileges !in groups {
        order := order + [entry.privileges];
        groups := groups[entry.privileges := []];
      }
      groups := groups[entry.privileges := groups[entry.privileges] + [Table(entry.table)]];
    }
    statements := OnePerTuple(role, tables, groups);
  }

  method OnePerTuple(role: string, tables: TablePolicy, groups: map<seq<string>, seq<Object>>)
      returns (statements: seq<Statement>)
    requires forall t :: t in Tuples(tables, |tables|) ==> t in groups && groups[t] == TablesWith(tables, |tables|, t)
    ensures statements == TableGrants(role, tables)
  {
    statements := [];
    var order := Tuples(tables, |tables|);
    for i := 0 to |order|
      invariant statements == TableGrants(role, tables)[..i]
    {
      assert order[i] in order;
      statements := statements + [GrantOn(order[i], groups[order[i]], {Role(role)})];
    }
  }

  /** The base rebuild, then the function grants. */
  method Statements(policy: Policy) returns (statements: seq<Statement>)
    ensures statements == Program(policy)
  {
    var untrusted := Untrusted(policy);
    statements := Revocations(untrusted) + [GrantOn(["USAGE"], [PUBLIC_SCHEMA], untrusted)];
    ghost var prelude := statements;
    for n := 0 to |policy.roleTables|
      invariant statements == prelude + RoleTableGrants(policy.roleTables, n)
    {
      var more := GroupTables(policy.roleTables[n].role, policy.roleTables[n].tables);
      statements := statements + more;
    }
    var more := GroupTables(policy.attestor, policy.attestorTables);
    statements := statements + more
      + RoleFunctionGrants(policy.roleFunctions, |policy.roleFunctions|)
      + FunctionGrants(policy.attestor, policy.attestorFunctions);
    assert statements == Program(policy);
  }

  // ----- grouping neither adds nor drops a grant

  lemma {:induction false} TuplesAreThose(tables: TablePolicy, n: nat, t: seq<string>)
    requires n <= |tables|
    ensures t in Tuples(tables, n) <==> exists i :: 0 <= i < n && tables[i].privileges == t
  {
    if n > 0 {
      TuplesAreThose(tables, n - 1, t);
    }
  }

  lemma {:induction false} TablesWithAreThose(tables: TablePolicy, n: nat, t: seq<string>, o: Object)
    requires n <= |tables|
    ensures o in TablesWith(tables, n, t) <==>
              exists i :: 0 <= i < n && tables[i].privileges == t && o == Table(tables[i].table)
  {
    if n > 0 {
      TablesWithAreThose(tables, n - 1, t, o);
    }
  }

  ghost predicate GrantedBy(statements: seq<Statement>, g: Grant) {
    exists st :: st in statements && g in Granted(st)
  }

  predicate MapsTable(tables: TablePolicy, on: Object, privilege: string) {
    exists i :: 0 <= i < |tables| && on == Table(tables[i].table) && privilege in tables[i].privileges
  }

  /** The grouped statements grant exactly the mapped privileges, for any mapping. */
  lemma GroupingIsExact(role: string, tables: TablePolicy, g: Grant)
    ensures GrantedBy(TableGrants(role, tables), g) <==>
              g.grantee == Role(role) && MapsTable(tables, g.on, g.privilege)
  {
    var tuples, statements := Tuples(tables, |tables|), TableGrants(role, tables);
    if GrantedBy(statements, g) {
      var st :| st in statements && g in Granted(st);
      TablesWithAreThose(tables, |tables|, st.granted, g.on);
    }
    if g.grantee == Role(role) && MapsTable(tables, g.on, g.privilege) {
      var i :| 0 <= i < |tables| && g.on == Table(tables[i].table) && g.privilege in tables[i].privileges;
      var t := tables[i].privileges;
      TuplesAreThose(tables, |tables|, t);
      var k :| 0 <= k < |tuples| && tuples[k] == t;
      TablesWithAreThose(tables, |tables|, t, g.on);
      assert statements[k] in statements && g in Granted(statements[k]);
    }
  }

  lemma FunctionGrantsAreExact(role: string, signatures: seq<string>, g: Grant)
    ensures GrantedBy(FunctionGrants(role, signatures), g) <==>
              g.grantee == Role(role) && g.privilege == "EXECUTE" &&
              exists i :: 0 <= i < |signatures| && g.on == Function(signatures[i])
  {
    var statements := FunctionGrants(role, signatures);
    if i :| 0 <= i < |signatures| && g.on == Function(signatures[i]) {
      assert statements[i] in statements;
      assert g.grantee == Role(role) && g.privilege == "EXECUTE" ==> g in Granted(statements[i]);
    }
  }

  // ----- what the policy says

  predicate SaysTable(policy: Policy, g: Grant) {
    || (exists r :: r in policy.roleTables && g.grantee == Role(r.role) && MapsTable(r.tables, g.on, g.privilege))
    || (g.grantee == Role(policy.attestor) && MapsTable(policy.attestorTables, g.on, g.privilege))
  }

  predicate SaysFunction(policy: Policy, g: Grant) {
    g.on.Object? && g.on.kind == FUNCTION && g.privilege == "EXECUTE" &&
    (|| (exists r :: r in policy.roleFunctions && g.grantee == Role(r.role) && g.on.name in r.signatures)
     || (g.grantee == Role(policy.attestor) && g.on.name in policy.attestorFunctions))
  }

  predicate SaysSchema(policy: Policy, g: Grant) {
    g.on == PUBLIC_SCHEMA && g.privilege == "USAGE" && g.grantee in Untrusted(policy)
  }

  predicate Says(policy: Policy, g: Grant) {
    SaysTable(policy, g) || SaysFunction(policy, g) || SaysSchema(policy, g)
  }

  lemma GrantedByConcat(a: seq<Statement>, b: seq<Statement>, g: Grant)
    ensures GrantedBy(a + b, g) <==> GrantedBy(a, g) || GrantedBy(b, g)
  {
  }

  lemma {:induction false} RoleTableGrantsExact(roles: seq<RoleTables>, n: nat, g: Grant)
    requires n <= |roles|
    ensures GrantedBy(RoleTableGrants(roles, n), g) <==>
              exists i :: 0 <= i < n && g.grantee == Role(roles[i].role) && MapsTable(roles[i].tables, g.on, g.privilege)
  {
    if n > 0 {
      RoleTableGrantsExact(roles, n - 1, g);
      GroupingIsExact(roles[n - 1].role, roles[n - 1].tables, g);
      GrantedByConcat(RoleTableGrants(roles, n - 1), TableGrants(roles[n - 1].role, roles[n - 1].tables), g);
    }
  }

  lemma {:induction false} RoleFunctionGrantsExact(roles: seq<RoleFunctions>, n: nat, g: Grant)
    requires n <= |roles|
    ensures GrantedBy(RoleFunctionGrants(roles, n), g) <==>
              exists i :: 0 <= i < n && g.grantee == Role(roles[i].role) && g.privilege == "EXECUTE"
                          && g.on.kind == FUNCTION && g.on.name in roles[i].signatures
  {
    if n > 0 {
      var last := roles[n - 1];
      RoleFunctionGrantsExact(roles, n - 1, g);
      FunctionGrantsAreExact(last.role, last.signatures, g);
      GrantedByConcat(RoleFunctionGrants(roles, n - 1), FunctionGrants(last.role, last.signatures), g);
      assert (exists i :: 0 <= i < |last.signatures| && g.on == Function(last.signatures[i])) <==>
             g.on.kind == FUNCTION && g.on.name in last.signatures;
    }
  }

  lemma GrantsExact(policy: Policy, g: Grant)
    ensures GrantedBy(Grants(policy), g) <==> Says(policy, g)
  {
    var usage := [GrantOn(["USAGE"], [PUBLIC_SCHEMA], Untrusted(policy))];
    var tables := RoleTableGrants(policy.roleTables, |policy.roleTables|);
    var attested := TableGrants(policy.attestor, policy.attestorTables);
    var functions := RoleFunctionGrants(policy.roleFunctions, |policy.roleFunctions|);
    var attesting := FunctionGrants(policy.attestor, policy.attestorFunctions);
    GrantedByConcat(usage, tables, g);
    GrantedByConcat(usage + tables, attested, g);
    GrantedByConcat(usage + tables + attested, functions, g);
    GrantedByConcat(usage + tables + attested + functions, attesting, g);
    assert GrantedBy(usage, g) <==> SaysSchema(policy, g) by {
      assert usage[0] in usage;
    }
    RoleTableGrantsExact(policy.roleTables, |policy.roleTables|, g);
    GroupingIsExact(policy.attestor, policy.attestorTables, g);
    RoleFunctionGrantsExact(policy.roleFunctions, |policy.roleFunctions|, g);
    FunctionGrantsAreExact(policy.attestor, policy.attestorFunctions, g);
  }

  // ----- running revocations, then grants

  predicate RevokesThenGrants(program: seq<Statement>, m: nat)
    requires m <= |program|
  {
    && (forall i :: 0 <= i < m ==> !program[i].GrantOn?)
    && (forall i :: m <= i < |program| ==> program[i].GrantOn?)
  }

  predicate Runnable(program: seq<Statement>, c: Catalog) {
    forall st :: st in program ==> Executable(st, c)
  }

  function Min(a: nat, b: nat): nat { if a < b then a else b }

  ghost predicate Unrevoked(program: seq<Statement>, n: nat, g: Grant)
    requires n <= |program|
  {
    forall i :: 0 <= i < n ==> !Revokes(program[i], g)
  }

  ghost predicate GrantedWithin(program: seq<Statement>, lo: nat, hi: nat, g: Grant)
    requires hi <= |program|
  {
    exists i :: lo <= i < hi && g in Granted(program[i])
  }

  ghost predicate Undisturbed(program: seq<Statement>, n: nat, d: Default)
    requires n <= |program|
  {
    forall i :: 0 <= i < n ==> !Undefaults(program[i], d)
  }

  /** What a run of `m` revocations and then grants leaves after `n` statements. */
  lemma {:induction false} RunGrants(db: Database, program: seq<Statement>, m: nat, n: nat, g: Grant)
    requires m <= |program| && n <= |program| && RevokesThenGrants(program, m)
    requires Run(db, program, n).Some?
    ensures g in Run(db, program, n).value.grants <==>
              (g in db.grants && Unrevoked(program, Min(n, m), g)) || GrantedWithin(program, m, n, g)
  {
    if n > 0 {
      RunGrants(db, program, m, n - 1, g);
      var mid, last := Run(db, program, n - 1).value, program[n - 1];
      assert Execute(mid, last).Some?;
      assert g in Execute(mid, last).value.grants <==>
             (g in mid.grants && !Revokes(last, g)) || g in Granted(last);
    }
  }

  lemma {:induction false} RunDefaults(db: Database, program: seq<Statement>, n: nat, d: Default)
    requires n <= |program| && Run(db, program, n).Some?
    ensures Run(db, program, n).value.catalog == db.catalog
    ensures d in Run(db, program, n).value.defaults <==> d in db.defaults && Undisturbed(program, n, d)
  {
    if n > 0 {
      RunDefaults(db, program, n - 1, d);
    }
  }

  lemma {:induction false} RunCompletes(db: Database, program: seq<Statement>, n: nat)
    requires n <= |program|
    ensures Run(db, program, n).Some? ==> Run(db, program, n).value.catalog == db.catalog
    ensures Run(db, program, n).Some? <==> forall i :: 0 <= i < n ==> Executable(program[i], db.catalog)
  {
    if n > 0 {
      RunCompletes(db, program, n - 1);
    }
  }

  // ----- the rebuild

  predicate Cleared(untrusted: set<Grantee>, g: Grant) {
    || (g.grantee.Public? && (g.on.kind.SCHEMA? ==> g.privilege == "CREATE"))
    || g.grantee in untrusted
  }

  predicate DefaultCleared(untrusted: set<Grantee>, d: Default) {
    && (d.grantee.Public? || d.grantee in untrusted)
    && (|| (d.scope.IN_SCHEMA? && (d.kind.TABLE? || d.kind.SEQUENCE?))
        || (d.kind.FUNCTION? && d.privilege == "EXECUTE"))
  }

  lemma RevocationsClear(untrusted: set<Grantee>, g: Grant)
    ensures (exists i :: 0 <= i < 16 && Revokes(Revocations(untrusted)[i], g)) <==> Cleared(untrusted, g)
  {
    var r := Revocations(untrusted);
    if Cleared(untrusted, g) {
      var public := g.grantee.Public?;
      match g.on.kind {
        case SCHEMA => assert Revokes(r[0], g) || Revokes(r[15], g);
        case TABLE => assert Revokes(r[9], g) || Revokes(r[12], g);
        case SEQUENCE => assert Revokes(r[10], g) || Revokes(r[13], g);
        case FUNCTION => assert Revokes(r[11], g) || Revokes(r[14], g);
      }
    }
  }

  lemma RevocationsClearDefaults(untrusted: set<Grantee>, d: Default)
    ensures (exists i :: 0 <= i < 16 && Undefaults(Revocations(untrusted)[i], d)) <==> DefaultCleared(untrusted, d)
  {
    var r := Revocations(untrusted);
    if DefaultCleared(untrusted, d) {
      match d.kind {
        case TABLE => assert Undefaults(r[1], d) || Undefaults(r[3], d);
        case SEQUENCE => assert Undefaults(r[2], d) || Undefaults(r[4], d);
        case FUNCTION =>
          assert Undefaults(r[5], d) || Undefaults(r[6], d) || Undefaults(r[7], d) || Undefaults(r[8], d);
      }
    }
  }

  /** The database the policy asks for: untrusted roles hold exactly what it says, PUBLIC nothing
      but what it had on the schema other than CREATE, and nobody else loses anything. */
  ghost predicate Rebuilt(before: Database, policy: Policy, after: Database) {
    var untrusted := Untrusted(policy);
    && after.catalog == before.catalog
    && (forall g :: g in after.grants <==> (g in before.grants && !Cleared(untrusted, g)) || Says(policy, g))
    && (forall d :: d in after.defaults <==> d in before.defaults && !DefaultCleared(untrusted, d))
  }

  lemma ProgramShape(policy: Policy)
    ensures |Revocations(Untrusted(policy))| == 16 <= |Program(policy)|
    ensures forall i :: 0 <= i < 16 ==> Program(policy)[i] == Revocations(Untrusted(policy))[i]
    ensures RevokesThenGrants(Program(policy), 16)
    ensures forall g :: GrantedWithin(Program(policy), 16, |Program(policy)|, g) <==> GrantedBy(Grants(policy), g)
  {
    var revocations, grants, program := Revocations(Untrusted(policy)), Grants(policy), Program(policy);
    AllAreGrants(policy);
    forall i | 16 <= i < |program|
      ensures program[i] == grants[i - 16] && program[i] in grants
    {
    }
    forall g
      ensures GrantedWithin(program, 16, |program|, g) <==> GrantedBy(grants, g)
    {
      if GrantedBy(grants, g) {
        var st :| st in grants && g in Granted(st);
        var k :| 0 <= k < |grants| && grants[k] == st;
        assert program[16 + k] == st;
      }
    }
  }

  lemma AllAreGrants(policy: Policy)
    ensures forall st :: st in Grants(policy) ==> st.GrantOn?
  {
    RoleTableStatements(policy.roleTables, |policy.roleTables|);
    RoleFunctionStatements(policy.roleFunctions, |policy.roleFunctions|);
  }

  lemma {:induction false} RoleTableStatements(roles: seq<RoleTables>, n: nat)
    requires n <= |roles|
    ensures forall st :: st in RoleTableGrants(roles, n) ==> st.GrantOn?
  {
    if n > 0 {
      RoleTableStatements(roles, n - 1);
    }
  }

  lemma {:induction false} RoleFunctionStatements(roles: seq<RoleFunctions>, n: nat)
    requires n <= |roles|
    ensures forall st :: st in RoleFunctionGrants(roles, n) ==> st.GrantOn?
  {
    if n > 0 {
      RoleFunctionStatements(roles, n - 1);
    }
  }

  /** From any starting privileges, a rebuild that runs to its end leaves exactly the policy. */
  lemma RebuildIsExact(db: Database, policy: Policy)
    requires Run(db, Program(policy), |Program(policy)|).Some?
    ensures Rebuilt(db, policy, Run(db, Program(policy), |Program(policy)|).value)
  {
    var program, untrusted := Program(policy), Untrusted(policy);
    var after := Run(db, program, |program|).value;
    ProgramShape(policy);
    RunCompletes(db, program, |program|);
    forall g
      ensures g in after.grants <==> (g in db.grants && !Cleared(untrusted, g)) || Says(policy, g)
    {
      RunGrants(db, program, 16, |program|, g);
      RevocationsClear(untrusted, g);
      GrantsExact(policy, g);
      assert Unrevoked(program, 16, g) <==> !Cleared(untrusted, g);
    }
    forall d
      ensures d in after.defaults <==> d in db.defaults && !DefaultCleared(untrusted, d)
    {
      RunDefaults(db, program, |program|, d);
      RevocationsClearDefaults(untrusted, d);
      assert Undisturbed(program, |program|, d) <==> !DefaultCleared(untrusted, d);
    }
  }

  /** Two rebuilds are one. */
  lemma RebuildIsIdempotent(db: Database, policy: Policy)
    requires Run(db, Program(policy), |Program(policy)|).Some?
    ensures var after := Run(db, Program(policy), |Program(policy)|).value;
            Run(after, Program(policy), |Program(policy)|) == Some(after)
  {
    var program := Program(policy);
    var after := Run(db, program, |program|).value;
    RunCompletes(db, program, |program|);
    RunCompletes(after, program, |program|);
    var again := Run(after, program, |program|).value;
    RebuildIsExact(db, policy);
    RebuildIsExact(after, policy);
    assert again.grants == after.grants;
    assert again.defaults == after.defaults;
  }

  // ----- who holds what afterwards

  /** One of the runtime roles, or the attestor. */
  predicate IsUntrusted(policy: Policy, role: string) {
    role in policy.runtimeRoles || role == policy.attestor
  }

  lemma UntrustedIff(policy: Policy, role: string)
    ensures Role(role) in Untrusted(policy) <==> IsUntrusted(policy, role)
    ensures Public !in Untrusted(policy)
  {
    if role in policy.runtimeRoles {
      assert Role(role) in set r | r in policy.runtimeRoles :: Role(r);
    }
  }

  /** Whether a mapping lists the privilege for the table. */
  predicate Lists(tables: TablePolicy, table: string, privilege: string) {
    exists e :: e in tables && e.table == table && privilege in e.privileges
  }

  lemma ListsIff(tables: TablePolicy, on: Object, privilege: string)
    ensures MapsTable(tables, on, privilege) <==> on.kind.TABLE? && Lists(tables, on.name, privilege)
  {
    if on.kind.TABLE? && Lists(tables, on.name, privilege) {
      var e :| e in tables && e.table == on.name && privilege in e.privileges;
      var i :| 0 <= i < |tables| && tables[i] == e;
      assert on == Table(tables[i].table);
    }
  }

  /** What the policy maps for a role on an object. */
  predicate Mapped(policy: Policy, role: string, on: Object, privilege: string) {
    match on.kind
    case TABLE =>
      || (exists r :: r in policy.roleTables && r.role == role && Lists(r.tables, on.name, privilege))
      || (role == policy.attestor && Lists(policy.attestorTables, on.name, privilege))
    case FUNCTION =>
      && privilege == "EXECUTE"
      && (|| (exists r :: r in policy.roleFunctions && r.role == role && on.name in r.signatures)
          || (role == policy.attestor && on.name in policy.attestorFunctions))
    case SCHEMA => on.name == "public" && privilege == "USAGE" && IsUntrusted(policy, role)
    case SEQUENCE => false
  }

  lemma SaysIff(policy: Policy, role: string, on: Object, privilege: string)
    ensures Says(policy, Grant(Role(role), on, privilege)) <==> Mapped(policy, role, on, privilege)
    ensures !Says(policy, Grant(Public, on, privilege))
  {
    UntrustedIff(policy, role);
    ListsIff(policy.attestorTables, on, privilege);
    forall r | r in policy.roleTables
      ensures MapsTable(r.tables, on, privilege) <==> on.kind.TABLE? && Lists(r.tables, on.name, privilege)
    {
      ListsIff(r.tables, on, privilege);
    }
  }

  /** Afterwards an untrusted role holds exactly what the policy maps for it, on tables, sequences,
      functions and the schema; PUBLIC holds nothing but what it had on the schema other than CREATE;
      any other role keeps what it had, and gains what the policy maps. */
  lemma UntrustedHoldExactly(db: Database, policy: Policy, role: string, on: Object, privilege: string)
    requires Run(db, Program(policy), |Program(policy)|).Some?
    ensures var after, own, open := Run(db, Program(policy), |Program(policy)|).value,
                                    Grant(Role(role), on, privilege), Grant(Public, on, privilege);
            && (own in after.grants <==>
                  Mapped(policy, role, on, privilege) || (own in db.grants && !IsUntrusted(policy, role)))
            && (open in after.grants <==> open in db.grants && on.kind.SCHEMA? && privilege != "CREATE")
  {
    RebuildIsExact(db, policy);
    UntrustedIff(policy, role);
    SaysIff(policy, role, on, privilege);
  }

  /** So do the defaults: an untrusted role or PUBLIC has none left on tables and sequences of the
      schema, and none to execute functions. */
  lemma WhichDefaultsStay(db: Database, policy: Policy, d: Default)
    requires Run(db, Program(policy), |Program(policy)|).Some?
    ensures d in Run(db, Program(policy), |Program(policy)|).value.defaults <==>
              && d in db.defaults
              && ((d.grantee.Role? && !IsUntrusted(policy, d.grantee.name))
                  || (d.scope.GLOBAL? && (d.kind.TABLE? || d.kind.SEQUENCE?))
                  || (d.kind.FUNCTION? && d.privilege != "EXECUTE")
                  || d.kind.SCHEMA?)
  {
    RebuildIsExact(db, policy);
    if d.grantee.Role? {
      UntrustedIff(policy, d.grantee.name);
    }
  }

  // ----- objects created later

  /** A new object carries its default grants. */
  function Create(db: Database, o: Object): Database {
    Database(db.catalog.(objects := db.catalog.objects + {o}),
             db.grants + set d | d in db.defaults && d.kind == o.kind :: Grant(d.grantee, o, d.privilege),
             db.defaults)
  }

  /** A function created after the rebuild can be executed by no untrusted role and not by PUBLIC.
      A table or sequence created later is closed to them exactly when no default for all schemas
      opened it before: the rebuild withdraws only the defaults of schema public for these, and
      such defaults cannot take away what a default for all schemas gives. */
  lemma LaterObjectsPrivate(db: Database, policy: Policy, o: Object, r: Grantee, privilege: string)
    requires Run(db, Program(policy), |Program(policy)|).Some?
    requires r.Public? || IsUntrusted(policy, r.name)
    requires o !in db.catalog.objects && forall g :: g in db.grants ==> g.on in db.catalog.objects
    ensures var after := Create(Run(db, Program(policy), |Program(policy)|).value, o);
            && (o.kind.FUNCTION? && privilege == "EXECUTE" ==> Grant(r, o, privilege) !in after.grants)
            && (o.kind.TABLE? || o.kind.SEQUENCE? ==>
                  (Grant(r, o, privilege) in after.grants <==> Default(GLOBAL, r, o.kind, privilege) in db.defaults))
  {
    var program := Program(policy);
    var after := Run(db, program, |program|).value;
    RebuildIsExact(db, policy);
    if r.Role? { UntrustedIff(policy, r.name); }
    var g := Grant(r, o, privilege);
    RunCompletes(db, program, |program|);
    NothingSaidOfMissing(db, policy, g);
    assert g !in after.grants;
    forall d | d in after.defaults && d.kind == o.kind && Grant(d.grantee, o, d.privilege) == g
      ensures d == Default(d.scope, r, o.kind, privilege)
    {
    }
  }

  /** A program that runs names no missing object. */
  lemma NothingSaidOfMissing(db: Database, policy: Policy, g: Grant)
    requires Run(db, Program(policy), |Program(policy)|).Some? && g.on !in db.catalog.objects
    ensures !Says(policy, g)
  {
    var program := Program(policy);
    RunCompletes(db, program, |program|);
    ProgramShape(policy);
    GrantsExact(policy, g);
    forall i | 16 <= i < |program|
      ensures g !in Granted(program[i])
    {
      assert Executable(program[i], db.catalog);
    }
  }

  // ----- when it runs

  predicate EntryRuns(e: Entry, c: Catalog) {
    e.privileges != [] && Table(e.table) in c.objects
  }

  predicate TablesRun(tables: TablePolicy, c: Catalog) {
    forall e :: e in tables ==> EntryRuns(e, c)
  }

  predicate FunctionsRun(signatures: seq<string>, c: Catalog) {
    forall f :: f in signatures ==> Function(f) in c.objects
  }

  predicate RoleTablesRun(r: RoleTables, c: Catalog) {
    TablesRun(r.tables, c) && (r.tables != [] ==> Known(Role(r.role), c))
  }

  predicate RoleFunctionsRun(r: RoleFunctions, c: Catalog) {
    FunctionsRun(r.signatures, c) && (r.signatures != [] ==> Known(Role(r.role), c))
  }

  /** Everything the program names exists (the schema, the migrator, every untrusted role, every role
      with a table or a function, every table and function), and no table is mapped to an empty
      tuple. */
  predicate PolicyRuns(policy: Policy, c: Catalog) {
    && PUBLIC_SCHEMA in c.objects && MIGRATOR in c.roles
    && (forall g :: g in Untrusted(policy) ==> Known(g, c))
    && (forall r :: r in policy.roleTables ==> RoleTablesRun(r, c))
    && TablesRun(policy.attestorTables, c)
    && (forall r :: r in policy.roleFunctions ==> RoleFunctionsRun(r, c))
    && FunctionsRun(policy.attestorFunctions, c)
  }

  lemma TableGrantsRun(role: string, tables: TablePolicy, c: Catalog)
    ensures Runnable(TableGrants(role, tables), c) <==>
              TablesRun(tables, c) && (tables != [] ==> Known(Role(role), c))
  {
    if Runnable(TableGrants(role, tables), c) {
      forall e | e in tables ensures EntryRuns(e, c) && Known(Role(role), c) {
        var st := StatementOf(role, tables, e);
        assert Executable(st, c);
      }
      assert tables != [] ==> tables[0] in tables;
    }
    if TablesRun(tables, c) && (tables != [] ==> Known(Role(role), c)) {
      forall st | st in TableGrants(role, tables) ensures Executable(st, c) {
        StatementRuns(role, tables, c, st);
      }
    }
  }

  lemma StatementOf(role: string, tables: TablePolicy, e: Entry) returns (st: Statement)
    requires e in tables
    ensures st in TableGrants(role, tables) && st.GrantOn? && st.granted == e.privileges
    ensures Table(e.table) in st.on && Role(role) in st.grantees
  {
    var tuples := Tuples(tables, |tables|);
    var i :| 0 <= i < |tables| && tables[i] == e;
    TuplesAreThose(tables, |tables|, e.privileges);
    var k :| 0 <= k < |tuples| && tuples[k] == e.privileges;
    TablesWithAreThose(tables, |tables|, e.privileges, Table(e.table));
    st := TableGrants(role, tables)[k];
  }

  lemma StatementRuns(role: string, tables: TablePolicy, c: Catalog, st: Statement)
    requires TablesRun(tables, c) && (tables != [] ==> Known(Role(role), c)) && st in TableGrants(role, tables)
    ensures Executable(st, c)
  {
    var tuples, statements := Tuples(tables, |tables|), TableGrants(role, tables);
    var k :| 0 <= k < |tuples| && statements[k] == st;
    TuplesAreThose(tables, |tables|, tuples[k]);
    var i :| 0 <= i < |tables| && tables[i].privileges == tuples[k];
    TablesWithAreThose(tables, |tables|, tuples[k], Table(tables[i].table));
    forall o | o in st.on ensures o in c.objects {
      TablesWithAreThose(tables, |tables|, tuples[k], o);
      var m :| 0 <= m < |tables| && tables[m].privileges == tuples[k] && o == Table(tables[m].table);
      assert EntryRuns(tables[m], c);
    }
    assert tables[i] in tables;
    assert st.grantees == {Role(role)};
  }

  lemma FunctionGrantsRun(role: string, signatures: seq<string>, c: Catalog)
    ensures Runnable(FunctionGrants(role, signatures), c) <==>
              FunctionsRun(signatures, c) && (signatures != [] ==> Known(Role(role), c))
  {
    var statements := FunctionGrants(role, signatures);
    forall i | 0 <= i < |signatures|
      ensures statements[i] in statements
      ensures Executable(statements[i], c) <==> Function(signatures[i]) in c.objects && Known(Role(role), c)
    {
      assert statements[i].on == [Function(signatures[i])] && statements[i].grantees == {Role(role)};
      assert statements[i].on[0] in statements[i].on && Role(role) in statements[i].grantees;
    }
    if signatures != [] {
      assert statements[0] in statements;
    }
  }

  lemma {:induction false} RoleTableGrantsRun(roles: seq<RoleTables>, n: nat, c: Catalog)
    requires n <= |roles|
    ensures Runnable(RoleTableGrants(roles, n), c) <==>
              forall i :: 0 <= i < n ==> RoleTablesRun(roles[i], c)
  {
    if n > 0 {
      RoleTableGrantsRun(roles, n - 1, c);
      TableGrantsRun(roles[n - 1].role, roles[n - 1].tables, c);
      RunnableConcat(RoleTableGrants(roles, n - 1), TableGrants(roles[n - 1].role, roles[n - 1].tables), c);
    }
  }

  lemma {:induction false} RoleFunctionGrantsRun(roles: seq<RoleFunctions>, n: nat, c: Catalog)
    requires n <= |roles|
    ensures Runnable(RoleFunctionGrants(roles, n), c) <==>
              forall i :: 0 <= i < n ==> RoleFunctionsRun(roles[i], c)
  {
    if n > 0 {
      var last := roles[n - 1];
      RoleFunctionGrantsRun(roles, n - 1, c);
      FunctionGrantsRun(last.role, last.signatures, c);
      RunnableConcat(RoleFunctionGrants(roles, n - 1), FunctionGrants(last.role, last.signatures), c);
    }
  }

  lemma RunnableConcat(a: seq<Statement>, b: seq<Statement>, c: Catalog)
    ensures Runnable(a + b, c) <==> Runnable(a, c) && Runnable(b, c)
  {
    forall st | st in a || st in b ensures st in a + b {}
  }

  lemma UsageRuns(policy: Policy, c: Catalog)
    ensures Runnable([GrantOn(["USAGE"], [PUBLIC_SCHEMA], Untrusted(policy))], c) <==>
              PUBLIC_SCHEMA in c.objects && forall g :: g in Untrusted(policy) ==> Known(g, c)
  {
    var usage := [GrantOn(["USAGE"], [PUBLIC_SCHEMA], Untrusted(policy))];
    assert usage[0] in usage && usage[0].on[0] in usage[0].on;
    assert Role(policy.attestor) in Untrusted(policy);
  }

  lemma RevocationsRun(policy: Policy, c: Catalog)
    ensures Runnable(Revocations(Untrusted(policy)), c) <==>
              && PUBLIC_SCHEMA in c.objects && MIGRATOR in c.roles
              && forall g :: g in Untrusted(policy) ==> Known(g, c)
  {
    var revocations := Revocations(Untrusted(policy));
    assert Role(policy.attestor) in Untrusted(policy);
    assert revocations[1] in revocations && revocations[15] in revocations;
    if Runnable(revocations, c) {
      assert Executable(revocations[1], c) && Executable(revocations[15], c);
    }
  }

  lemma GrantsRun(policy: Policy, c: Catalog)
    ensures Runnable(Grants(policy), c) && Runnable(Revocations(Untrusted(policy)), c) <==>
              PolicyRuns(policy, c)
  {
    var usage := [GrantOn(["USAGE"], [PUBLIC_SCHEMA], Untrusted(policy))];
    var tables := RoleTableGrants(policy.roleTables, |policy.roleTables|);
    var attested := TableGrants(policy.attestor, policy.attestorTables);
    var functions := RoleFunctionGrants(policy.roleFunctions, |policy.roleFunctions|);
    var attesting := FunctionGrants(policy.attestor, policy.attestorFunctions);
    RunnableConcat(usage, tables, c);
    RunnableConcat(usage + tables, attested, c);
    RunnableConcat(usage + tables + attested, functions, c);
    RunnableConcat(usage + tables + attested + functions, attesting, c);
    UsageRuns(policy, c);
    RevocationsRun(policy, c);
    assert Role(policy.attestor) in Untrusted(policy);
    RoleTableGrantsRun(policy.roleTables, |policy.roleTables|, c);
    TableGrantsRun(policy.attestor, policy.attestorTables, c);
    RoleFunctionGrantsRun(policy.roleFunctions, |policy.roleFunctions|, c);
    FunctionGrantsRun(policy.attestor, policy.attestorFunctions, c);
  }

  /** The rebuild completes exactly when everything it names exists, roles included, and no tuple is
      empty. */
  lemma RebuildCompletesIff(db: Database, policy: Policy)
    ensures Run(db, Program(policy), |Program(policy)|).Some? <==> PolicyRuns(policy, db.catalog)
  {
    var program, revocations := Program(policy), Revocations(Untrusted(policy));
    RunCompletes(db, program, |program|);
    assert (forall i :: 0 <= i < |program| ==> Executable(program[i], db.catalog)) <==> Runnable(program, db.catalog);
    RunnableConcat(revocations, Grants(policy), db.catalog);
    GrantsRun(policy, db.catalog);
  }
}
