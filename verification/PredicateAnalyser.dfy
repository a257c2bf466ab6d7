/** The release-readiness check on the return expressions of a generation predicate
    (scripts/release_readiness.py), against a semantics of the expressions it reads. */
module PredicateAnalyser {

  import opened Wrappers

  // ----- expressions

  datatype Comparison = Is | IsNot | Eq | NotEq | In | NotIn

  datatype Display = TUPLE | LIST | SET

  datatype Expr =
    | Const(value: Value)
    | Collection(display: Display, elements: seq<Expr>)
    | Name(id: string)
    | Attribute(owner: Expr, attr: string)
    | Subscript(container: Expr, index: Expr)
    | Call(func: Expr, args: seq<Expr>)
    | Compare(left: Expr, ops: seq<Comparison>, comparators: seq<Expr>)
    | And(values: seq<Expr>)
    | Other(tag: int)                       // any other expression

  type Bindings = map<string, Expr>

  // ----- values

  datatype Value =
    | None_
    | Bool(b: bool)
    | Int(n: int)
    | Str(s: string)
    | Sequence(display: Display, items: seq<Value>)
    | Mapping(entries: map<string, Value>)
    | Type(name: string)
    | Object(tag: int)

  /** Evaluation may raise. */
  datatype Result = Raised | Is_(value: Value)

  /** An environment.  Attribute reads, calls other than a mapping's `get`, expressions outside the
      modelled subset, and the truth and equality of objects may be anything, but are functions of
      the environment. */
  datatype Env = Env(
    vars: map<string, Value>,
    identical: (Value, Value) -> bool,
    equal: (Value, Value) -> bool,
    truths: int -> bool,
    attributes: (Value, string) -> Result,
    calls: (Value, seq<Value>) -> Result,
    methods: (Value, string, seq<Value>) -> Result,
    others: int -> Result)

  predicate Truthy(env: Env, v: Value) {
    match v
    case None_ => false
    case Bool(b) => b
    case Int(n) => n != 0
    case Str(s) => s != ""
    case Sequence(_, items) => items != []
    case Mapping(entries) => entries != map[]
    case Type(_) => true
    case Object(tag) => env.truths(tag)
  }

  /** Python `==`: booleans are integers, a sequence equals only one of its own kind, and an object
      may claim to equal anything. */
  predicate PyEq(env: Env, a: Value, b: Value)
    decreases a
  {
    if a.Object? || b.Object? then env.equal(a, b)
    else
      match (a, b)
      case (Bool(x), Int(n)) => n == if x then 1 else 0
      case (Int(n), Bool(x)) => n == if x then 1 else 0
      case (Sequence(d, xs), Sequence(e, ys)) =>
        && d == e
        && if d == SET then
             && (forall i :: 0 <= i < |xs| ==> exists k :: 0 <= k < |ys| && PyEq(env, xs[i], ys[k]))
             && (forall k :: 0 <= k < |ys| ==> exists i :: 0 <= i < |xs| && PyEq(env, xs[i], ys[k]))
           else |xs| == |ys| && forall i :: 0 <= i < |xs| ==> PyEq(env, xs[i], ys[i])
      case (Mapping(xs), Mapping(ys)) =>
        xs.Keys == ys.Keys && forall key :: key in xs ==> PyEq(env, xs[key], ys[key])
      case _ => a == b
  }

  /** Python `is`: there is one `None` and one of each boolean; elsewhere, at least the same value. */
  predicate Identical(env: Env, a: Value, b: Value) {
    a == b && (a.Bool? || a.None_? || env.identical(a, b))
  }

  predicate Member(env: Env, v: Value, items: seq<Value>) {
    exists i :: 0 <= i < |items| && (Identical(env, v, items[i]) || PyEq(env, v, items[i]))
  }

  function CompareValues(env: Env, a: Value, op: Comparison, b: Value): Result {
    match op
    case Is => Is_(Bool(Identical(env, a, b)))
    case IsNot => Is_(Bool(!Identical(env, a, b)))
    case Eq => Is_(Bool(PyEq(env, a, b)))
    case NotEq => Is_(Bool(!PyEq(env, a, b)))
    case In => Contains(env, a, b, false)
    case NotIn => Contains(env, a, b, true)
  }

  function Contains(env: Env, a: Value, b: Value, negate: bool): Result {
    match b
    case Sequence(_, items) => Is_(Bool(Member(env, a, items) != negate))
    case Mapping(entries) =>
      if a.Object? then Is_(Bool((exists key :: key in entries && env.equal(a, Str(key))) != negate))
      else Is_(Bool((a.Str? && a.s in entries) != negate))
    case _ => Raised
  }

  // ----- evaluation

  function Eval(e: Expr, env: Env): Result
    decreases e, 1
  {
    match e
    case Const(v) => Is_(v)
    case Collection(display, elements) =>
      (match EvalAll(elements, env)
       case None => Raised
       case Some(vs) => Is_(Sequence(display, vs)))
    case Name(id) => if id in env.vars then Is_(env.vars[id]) else Raised
    case Attribute(owner, attr) =>
      (match Eval(owner, env)
       case Raised => Raised
       case Is_(v) => env.attributes(v, attr))
    case Subscript(container, index) =>
      (match Eval(container, env)
       case Raised => Raised
       case Is_(c) =>
         match Eval(index, env)
         case Raised => Raised
         case Is_(i) =>
           if c.Mapping? && !i.Object? then
             if i.Str? && i.s in c.entries then Is_(c.entries[i.s]) else Raised
           else env.methods(c, "__getitem__", [i]))
    case Call(func, args) =>
      if func.Attribute? then
        (match Eval(func.owner, env)
         case Raised => Raised
         case Is_(receiver) =>
           match EvalAll(args, env)
           case None => Raised
           case Some(vs) => CallMethod(env, receiver, func.attr, vs))
      else
        (match Eval(func, env)
         case Raised => Raised
         case Is_(f) =>
           match EvalAll(args, env)
           case None => Raised
           case Some(vs) => env.calls(f, vs))
    case Compare(left, ops, comparators) =>
      (match Eval(left, env)
       case Raised => Raised
       case Is_(v) => EvalChain(v, ops, comparators, env))
    case And(values) => EvalAnd(values, env)
    case Other(tag) => env.others(tag)
  }

  function EvalAll(es: seq<Expr>, env: Env): (r: Option<seq<Value>>)
    ensures r.Some? ==> |r.value| == |es|
    decreases es, 0
  {
    if es == [] then Some([])
    else
      match Eval(es[0], env)
      case Raised => None
      case Is_(v) =>
        match EvalAll(es[1..], env)
        case None => None
        case Some(vs) => Some([v] + vs)
  }

  /** Only a mapping's `get` is interpreted. */
  function CallMethod(env: Env, receiver: Value, name: string, args: seq<Value>): Result {
    if receiver.Mapping? && name == "get" && (args == [] || !args[0].Object?) then
      if |args| == 0 || |args| > 2 then Raised
      else if args[0].Str? && args[0].s in receiver.entries then Is_(receiver.entries[args[0].s])
      else if |args| == 2 then Is_(args[1])
      else Is_(None_)
    else env.methods(receiver, name, args)
  }

  /** `a op b op c`: each comparison in turn, stopping at the first that is falsy. */
  function EvalChain(v: Value, ops: seq<Comparison>, comparators: seq<Expr>, env: Env): Result
    decreases comparators, 0
  {
    if ops == [] || comparators == [] then Raised
    else
      match Eval(comparators[0], env)
      case Raised => Raised
      case Is_(w) =>
        match CompareValues(env, v, ops[0], w)
        case Raised => Raised
        case Is_(r) =>
          if |ops| == 1 || !Truthy(env, r) then Is_(r) else EvalChain(w, ops[1..], comparators[1..], env)
  }

  /** The first falsy operand, or the last one. */
  function EvalAnd(values: seq<Expr>, env: Env): Result
    decreases values, 0
  {
    if values == [] then Is_(Bool(true))
    else
      match Eval(values[0], env)
      case Raised => Raised
      case Is_(v) => if |values| == 1 || !Truthy(env, v) then Is_(v) else EvalAnd(values[1..], env)
  }

  predicate Holds(e: Expr, env: Env) {
    Eval(e, env).Is_? && Truthy(env, Eval(e, env).value)
  }

  /** Every name that is bound once still has the value of its binding. */
  ghost predicate Agrees(env: Env, bindings: Bindings) {
    forall x :: x in bindings ==> Eval(bindings[x], env) == Eval(Name(x), env)
  }

  // ----- the analyser

  function ResolveFrom(e: Expr, bindings: Bindings, seen: set<string>): Expr
    decreases bindings.Keys - seen
  {
    if e.Name? && e.id !in seen && e.id in bindings
    then ResolveFrom(bindings[e.id], bindings, seen + {e.id})
    else e
  }

  function Resolve(e: Expr, bindings: Bindings): Expr {
    ResolveFrom(e, bindings, {})
  }

  /** Literal evaluation: constants and displays of literals. */
  function Static(e: Expr): Option<Value>
    decreases e, 1
  {
    match e
    case Const(v) => if v.Type? || v.Object? then None else Some(v)
    case Collection(display, elements) =>
      (match StaticAll(elements)
       case None => None
       case Some(vs) => Some(Sequence(display, vs)))
    case _ => None
  }

  function StaticAll(es: seq<Expr>): Option<seq<Value>>
    decreases es, 0
  {
    if es == [] then Some([])
    else
      match Static(es[0])
      case None => None
      case Some(v) =>
        match StaticAll(es[1..])
        case None => None
        case Some(vs) => Some([v] + vs)
  }

  const RESULT: Expr := Name("result_json")

  predicate MappingAccess(e: Expr, key: string, bindings: Bindings) {
    var r := Resolve(e, bindings);
    if r.Call? && r.func.Attribute? && r.func.attr == "get" && r.func.owner == RESULT && r.args != []
    then Static(r.args[0]) == Some(Str(key))
    else r.Subscript? && r.container == RESULT && Static(r.index) == Some(Str(key))
  }

  predicate IdentityComparison(e: Expr, key: string, bindings: Bindings) {
    var r := Resolve(e, bindings);
    && r.Compare? && |r.ops| == 1 && r.ops[0].Is? && |r.comparators| == 1
    && (|| (MappingAccess(r.left, key, bindings) && Static(r.comparators[0]) == Some(Bool(true)))
        || (Static(r.left) == Some(Bool(true)) && MappingAccess(r.comparators[0], key, bindings)))
  }

  /** The literal is a sequence of exactly these strings, in any order and number. */
  predicate ExactStrings(v: Value, expected: set<string>) {
    && v.Sequence?
    && (forall i :: 0 <= i < |v.items| ==> v.items[i].Str?)
    && (set i | 0 <= i < |v.items| && v.items[i].Str? :: v.items[i].s) == expected
  }

  predicate StringMembership(e: Expr, key: string, expected: set<string>, bindings: Bindings) {
    var r := Resolve(e, bindings);
    && r.Compare? && |r.ops| == 1 && r.ops[0].In? && |r.comparators| == 1
    && MappingAccess(r.left, key, bindings)
    && var values := Static(r.comparators[0]);
       values.Some? && ExactStrings(values.value, expected)
  }

  function CallName(e: Expr): Option<string> {
    if !e.Call? then None
    else if e.func.Name? then Some(e.func.id)
    else if e.func.Attribute? then Some(e.func.attr)
    else None
  }

  predicate IsStringCheck(e: Expr, key: string, bindings: Bindings) {
    var r := Resolve(e, bindings);
    && r.Call? && CallName(r) == Some("isinstance") && |r.args| == 2
    && MappingAccess(r.args[0], key, bindings)
    && Resolve(r.args[1], bindings) == Name("str")
  }

  /** Conjuncts after resolving names, level by level.  Each level forgets the names already
      followed, so the recursion is bounded only by the interpreter: `depth` is what is left of its
      recursion limit, and running out raises. */
  function Flatten(e: Expr, bindings: Bindings, depth: nat): Option<seq<Expr>>
    decreases depth, 0
  {
    if depth == 0 then None
    else
      var r := Resolve(e, bindings);
      if r.And? then FlattenAll(r.values, bindings, depth - 1, |r.values|) else Some([r])
  }

  /** The conjuncts of the first `n` operands. */
  function FlattenAll(es: seq<Expr>, bindings: Bindings, depth: nat, n: nat): Option<seq<Expr>>
    requires n <= |es|
    decreases depth, n + 1
  {
    if n == 0 then Some([])
    else
      match FlattenAll(es, bindings, depth, n - 1)
      case None => None
      case Some(terms) =>
        match Flatten(es[n - 1], bindings, depth)
        case None => None
        case Some(more) => Some(terms + more)
  }

  const GEOMETRY := "authoritative_geometry"
  const DFM_STATUS := "dfm_status"
  const SAFE_STATUSES: set<string> := {"PASS", "WARNING"}

  /** The verdict on one return expression; `None` when the recursion limit was hit. */
  function SafeReturn(e: Expr, bindings: Bindings, depth: nat): Option<bool> {
    var r := Resolve(e, bindings);
    if Static(r) == Some(Bool(false)) then Some(true)
    else
      match Flatten(r, bindings, depth)
      case None => None
      case Some(terms) => Some(
        && (exists i :: 0 <= i < |terms| && IdentityComparison(terms[i], GEOMETRY, bindings))
        && (exists i :: 0 <= i < |terms| && IsStringCheck(terms[i], DFM_STATUS, bindings))
        && (exists i :: 0 <= i < |terms| && StringMembership(terms[i], DFM_STATUS, SAFE_STATUSES, bindings)))
  }

  // ----- following names preserves values

  lemma {:induction false} ResolveKeepsValue(e: Expr, bindings: Bindings, seen: set<string>, env: Env)
    requires Agrees(env, bindings)
    ensures Eval(ResolveFrom(e, bindings, seen), env) == Eval(e, env)
    decreases bindings.Keys - seen
  {
    if e.Name? && e.id !in seen && e.id in bindings {
      ResolveKeepsValue(bindings[e.id], bindings, seen + {e.id}, env);
    }
  }

  /** A literal evaluates to its static value in every environment. */
  lemma {:induction false} StaticIsValue(e: Expr, env: Env)
    requires Static(e).Some?
    ensures Eval(e, env) == Is_(Static(e).value)
    decreases e, 1
  {
    if e.Collection? {
      StaticAllAreValues(e.elements, env);
    }
  }

  lemma {:induction false} StaticAllAreValues(es: seq<Expr>, env: Env)
    requires StaticAll(es).Some?
    ensures EvalAll(es, env) == Some(StaticAll(es).value)
    decreases es, 0
  {
    if es != [] {
      StaticIsValue(es[0], env);
      StaticAllAreValues(es[1..], env);
    }
  }

  // ----- flattening preserves truth

  ghost predicate AllHold(terms: seq<Expr>, env: Env) {
    forall i :: 0 <= i < |terms| ==> Holds(terms[i], env)
  }

  /** A conjunction is truthy exactly when it has a value and every operand is truthy. */
  lemma {:induction false} AndHolds(values: seq<Expr>, env: Env)
    ensures EvalAnd(values, env).Is_? && Truthy(env, EvalAnd(values, env).value) <==> AllHold(values, env)
    decreases |values|
  {
    if values != [] {
      AndHolds(values[1..], env);
      assert values == [values[0]] + values[1..];
      assert AllHold(values, env) <==> Holds(values[0], env) && AllHold(values[1..], env) by {
        if AllHold(values, env) {
          forall i | 0 <= i < |values[1..]|
            ensures Holds(values[1..][i], env)
          {
            assert Holds(values[i + 1], env);
          }
        }
      }
    }
  }

  /** Flattening keeps truth in both directions, for any bindings, cyclic ones included. */
  lemma {:induction false} FlattenKeepsTruth(e: Expr, bindings: Bindings, depth: nat, env: Env)
    requires Agrees(env, bindings) && Flatten(e, bindings, depth).Some?
    ensures Holds(e, env) <==> AllHold(Flatten(e, bindings, depth).value, env)
    decreases depth, 0
  {
    ResolveKeepsValue(e, bindings, {}, env);
    var r := Resolve(e, bindings);
    if r.And? {
      FlattenAllKeepTruth(r.values, bindings, depth - 1, |r.values|, env);
      AndHolds(r.values, env);
      assert r.values[..|r.values|] == r.values;
      assert Eval(r, env) == EvalAnd(r.values, env);
    } else {
      var terms := [r];
      assert Flatten(e, bindings, depth) == Some(terms);
      assert terms[0] == r;
      assert AllHold(terms, env) <==> Holds(r, env);
    }
  }

  lemma {:induction false} FlattenAllKeepTruth(es: seq<Expr>, bindings: Bindings, depth: nat, n: nat, env: Env)
    requires Agrees(env, bindings) && n <= |es| && FlattenAll(es, bindings, depth, n).Some?
    ensures AllHold(es[..n], env) <==> AllHold(FlattenAll(es, bindings, depth, n).value, env)
    decreases depth, n + 1
  {
    if n > 0 {
      FlattenAllKeepTruth(es, bindings, depth, n - 1, env);
      FlattenKeepsTruth(es[n - 1], bindings, depth, env);
      var terms := FlattenAll(es, bindings, depth, n - 1).value;
      var more := Flatten(es[n - 1], bindings, depth).value;
      assert es[..n] == es[..n - 1] + [es[n - 1]];
      AllHoldConcat(terms, more, env);
      AllHoldConcat(es[..n - 1], [es[n - 1]], env);
      assert AllHold([es[n - 1]], env) <==> Holds([es[n - 1]][0], env);
    }
  }

  lemma AllHoldConcat(a: seq<Expr>, b: seq<Expr>, env: Env)
    ensures AllHold(a + b, env) <==> AllHold(a, env) && AllHold(b, env)
  {
    if AllHold(a + b, env) {
      forall i | 0 <= i < |a| ensures Holds(a[i], env) { assert Holds((a + b)[i], env); }
      forall i | 0 <= i < |b| ensures Holds(b[i], env) { assert Holds((a + b)[|a| + i], env); }
    }
  }

  // ----- what the recognised terms say

  /** One comparison evaluates its two sides and compares them. */
  lemma OneComparison(r: Expr, env: Env)
    requires r.Compare? && |r.ops| == 1 && |r.comparators| == 1
    requires Holds(r, env)
    ensures Eval(r.left, env).Is_? && Eval(r.comparators[0], env).Is_?
    ensures CompareValues(env, Eval(r.left, env).value, r.ops[0], Eval(r.comparators[0], env).value).Is_?
    ensures Truthy(env, CompareValues(env, Eval(r.left, env).value, r.ops[0], Eval(r.comparators[0], env).value).value)
  {
    assert Eval(r, env) == EvalChain(Eval(r.left, env).value, r.ops, r.comparators, env);
  }

  /** The two sides of a single comparison. */
  function Operands(e: Expr, bindings: Bindings): set<Expr> {
    var r := Resolve(e, bindings);
    if r.Compare? && |r.comparators| == 1 then {r.left, r.comparators[0]} else {}
  }

  lemma IdentityMeans(e: Expr, key: string, bindings: Bindings, env: Env) returns (access: Expr)
    requires Agrees(env, bindings) && IdentityComparison(e, key, bindings) && Holds(e, env)
    ensures access in Operands(e, bindings)
    ensures MappingAccess(access, key, bindings) && Eval(access, env) == Is_(Bool(true))
  {
    ResolveKeepsValue(e, bindings, {}, env);
    var r := Resolve(e, bindings);
    OneComparison(r, env);
    if MappingAccess(r.left, key, bindings) && Static(r.comparators[0]) == Some(Bool(true)) {
      StaticIsValue(r.comparators[0], env);
      access := r.left;
    } else {
      StaticIsValue(r.left, env);
      access := r.comparators[0];
    }
  }

  predicate EqualsOneOf(env: Env, v: Value, expected: set<string>) {
    exists s :: s in expected && PyEq(env, v, Str(s))
  }

  lemma StringEqualsOne(env: Env, v: Value, expected: set<string>)
    requires v.Str?
    ensures EqualsOneOf(env, v, expected) <==> v.s in expected
  {
    if v.s in expected {
      assert PyEq(env, v, Str(v.s));
    }
  }

  /** Membership says only that the value equals one of the strings, which an object may claim. */
  lemma MembershipMeans(e: Expr, key: string, expected: set<string>, bindings: Bindings, env: Env)
      returns (access: Expr)
    requires Agrees(env, bindings) && StringMembership(e, key, expected, bindings) && Holds(e, env)
    ensures access in Operands(e, bindings)
    ensures MappingAccess(access, key, bindings)
    ensures Eval(access, env).Is_? && EqualsOneOf(env, Eval(access, env).value, expected)
  {
    ResolveKeepsValue(e, bindings, {}, env);
    var r := Resolve(e, bindings);
    OneComparison(r, env);
    StaticIsValue(r.comparators[0], env);
    access := r.left;
    var items := Static(r.comparators[0]).value.items;
    var v := Eval(access, env).value;
    assert Member(env, v, items);
    var i :| 0 <= i < |items| && (Identical(env, v, items[i]) || PyEq(env, v, items[i]));
    assert items[i].s in expected && PyEq(env, v, Str(items[i].s));
  }

  /** The names `isinstance` and `str` mean the builtins, unless the function itself binds them.  A
      `Str` stands for a string and for an instance of a subclass that keeps the equality of strings. */
  ghost predicate BuiltinsBound(env: Env, bindings: Bindings) {
    && ("isinstance" !in bindings ==> "isinstance" in env.vars && env.vars["isinstance"] == Type("isinstance"))
    && ("str" !in bindings ==> "str" in env.vars && env.vars["str"] == Type("str"))
    && forall v :: env.calls(Type("isinstance"), [v, Type("str")]) == Is_(Bool(v.Str?))
  }

  /** The check is written as a call of the name `isinstance`, not of an attribute of that name, and
      the function does not bind the names it is made of. */
  predicate PlainCheck(e: Expr, key: string, bindings: Bindings) {
    && IsStringCheck(e, key, bindings) && Resolve(e, bindings).func.Name?
    && "isinstance" !in bindings && "str" !in bindings
  }

  lemma StringCheckMeans(e: Expr, key: string, bindings: Bindings, env: Env) returns (access: Expr)
    requires Agrees(env, bindings) && BuiltinsBound(env, bindings)
    requires PlainCheck(e, key, bindings) && Holds(e, env)
    ensures MappingAccess(access, key, bindings)
    ensures Eval(access, env).Is_? && Eval(access, env).value.Str?
  {
    ResolveKeepsValue(e, bindings, {}, env);
    var r := Resolve(e, bindings);
    access := r.args[0];
    ResolveKeepsValue(r.args[1], bindings, {}, env);
    assert Eval(r.args[1], env) == Is_(Type("str"));
    assert r.args == [r.args[0], r.args[1]];
    if Eval(access, env).Is_? {
      PairEvaluates(r.args[0], r.args[1], Eval(access, env).value, Type("str"), env);
    } else {
      assert false;                            // a call whose argument raises has no value
    }
  }

  predicate SomeCheck(terms: seq<Expr>, bindings: Bindings) {
    exists i :: 0 <= i < |terms| && IsStringCheck(terms[i], DFM_STATUS, bindings)
  }

  predicate SomePlainCheck(terms: seq<Expr>, bindings: Bindings) {
    exists i :: 0 <= i < |terms| && PlainCheck(terms[i], DFM_STATUS, bindings)
  }

  /** If the conjuncts hold a string check at all, they hold a plain one. */
  predicate NotOnlyBorrowed(e: Expr, bindings: Bindings, depth: nat) {
    var terms := Flatten(Resolve(e, bindings), bindings, depth);
    terms.Some? && SomeCheck(terms.value, bindings) ==> SomePlainCheck(terms.value, bindings)
  }

  ghost predicate Recognised(terms: seq<Expr>, bindings: Bindings) {
    && (exists i :: 0 <= i < |terms| && IdentityComparison(terms[i], GEOMETRY, bindings))
    && (exists i :: 0 <= i < |terms| && StringMembership(terms[i], DFM_STATUS, SAFE_STATUSES, bindings))
    && SomeCheck(terms, bindings)
  }

  /** A truthy accepted return is not the literal False, and all its conjuncts are truthy. */
  lemma AcceptedTermsHold(e: Expr, bindings: Bindings, depth: nat, env: Env) returns (terms: seq<Expr>)
    requires Agrees(env, bindings)
    requires SafeReturn(e, bindings, depth) == Some(true) && Holds(e, env)
    ensures Flatten(Resolve(e, bindings), bindings, depth) == Some(terms)
    ensures Recognised(terms, bindings) && AllHold(terms, env)
  {
    ResolveKeepsValue(e, bindings, {}, env);
    var r := Resolve(e, bindings);
    if Static(r) == Some(Bool(false)) {
      StaticIsValue(r, env);
      assert false;
    }
    FlattenKeepsTruth(r, bindings, depth, env);
    terms := Flatten(r, bindings, depth).value;
  }

  ghost predicate OperandOfSome(access: Expr, terms: seq<Expr>, bindings: Bindings) {
    exists i :: 0 <= i < |terms| && access in Operands(terms[i], bindings)
  }

  lemma RecognisedTermsMean(terms: seq<Expr>, bindings: Bindings, env: Env) returns (geometry: Expr, status: Expr)
    requires Agrees(env, bindings) && Recognised(terms, bindings) && AllHold(terms, env)
    ensures OperandOfSome(geometry, terms, bindings) && OperandOfSome(status, terms, bindings)
    ensures MappingAccess(geometry, GEOMETRY, bindings) && Eval(geometry, env) == Is_(Bool(true))
    ensures MappingAccess(status, DFM_STATUS, bindings)
    ensures Eval(status, env).Is_? && EqualsOneOf(env, Eval(status, env).value, SAFE_STATUSES)
  {
    var i :| 0 <= i < |terms| && IdentityComparison(terms[i], GEOMETRY, bindings);
    geometry := IdentityMeans(terms[i], GEOMETRY, bindings, env);
    var k :| 0 <= k < |terms| && StringMembership(terms[k], DFM_STATUS, SAFE_STATUSES, bindings);
    status := MembershipMeans(terms[k], DFM_STATUS, SAFE_STATUSES, bindings, env);
  }

  lemma PlainTermMeans(terms: seq<Expr>, bindings: Bindings, env: Env) returns (checked: Expr)
    requires Agrees(env, bindings) && BuiltinsBound(env, bindings) && AllHold(terms, env)
    requires SomePlainCheck(terms, bindings)
    ensures MappingAccess(checked, DFM_STATUS, bindings) && Eval(checked, env).Is_? && Eval(checked, env).value.Str?
  {
    var i :| 0 <= i < |terms| && PlainCheck(terms[i], DFM_STATUS, bindings);
    checked := StringCheckMeans(terms[i], DFM_STATUS, bindings, env);
  }

  /** An accepted return that is truthy has read `authoritative_geometry` as True and a `dfm_status`
      that equals a safe status; and unless all its string checks are borrowed, it has read a
      `dfm_status` that is a string.  Where both readings give the same value, it is a safe status. */
  lemma AcceptedReturnIsSafe(e: Expr, bindings: Bindings, depth: nat, env: Env)
      returns (geometry: Expr, status: Expr, checked: Expr)
    requires Agrees(env, bindings) && BuiltinsBound(env, bindings)
    requires SafeReturn(e, bindings, depth) == Some(true) && Holds(e, env)
    ensures MappingAccess(geometry, GEOMETRY, bindings) && Eval(geometry, env) == Is_(Bool(true))
    ensures MappingAccess(status, DFM_STATUS, bindings)
    ensures Eval(status, env).Is_? && EqualsOneOf(env, Eval(status, env).value, SAFE_STATUSES)
    ensures NotOnlyBorrowed(e, bindings, depth) ==>
              MappingAccess(checked, DFM_STATUS, bindings) && Eval(checked, env).Is_? && Eval(checked, env).value.Str?
    ensures NotOnlyBorrowed(e, bindings, depth) && Eval(checked, env) == Eval(status, env) ==>
              Eval(status, env).value.s in SAFE_STATUSES
  {
    var terms := AcceptedTermsHold(e, bindings, depth, env);
    geometry, status := RecognisedTermsMean(terms, bindings, env);
    checked := status;
    if NotOnlyBorrowed(e, bindings, depth) {
      checked := PlainTermMeans(terms, bindings, env);
      if Eval(checked, env) == Eval(status, env) {
        StringEqualsOne(env, Eval(status, env).value, SAFE_STATUSES);
      }
    }
  }

  // ----- what that says about the mapping itself

  /** Reading a key that is present gives the entry, however the access is written. */
  lemma AccessReadsEntry(access: Expr, key: string, bindings: Bindings, env: Env, entries: map<string, Value>)
    requires Agrees(env, bindings) && MappingAccess(access, key, bindings)
    requires Eval(RESULT, env) == Is_(Mapping(entries)) && key in entries
    requires Eval(access, env).Is_?
    ensures Eval(access, env).value == entries[key]
  {
    ResolveKeepsValue(access, bindings, {}, env);
    var r := Resolve(access, bindings);
    if r.Call? {
      StaticIsValue(r.args[0], env);
      assert EvalAll(r.args, env).Some?;
    } else {
      StaticIsValue(r.index, env);
    }
  }

  ghost predicate EntriesSafe(entries: map<string, Value>) {
    && GEOMETRY in entries && entries[GEOMETRY] == Bool(true)
    && DFM_STATUS in entries && entries[DFM_STATUS].Str? && entries[DFM_STATUS].s in SAFE_STATUSES
  }

  /** An accepted, truthy return whose string checks are not all borrowed vouches for the entries of
      `result_json` exactly when both keys are present: a `get` with a default can otherwise supply
      the answer. */
  lemma EntriesSafeIffPresent(e: Expr, bindings: Bindings, depth: nat, env: Env, entries: map<string, Value>)
    requires Agrees(env, bindings) && BuiltinsBound(env, bindings) && Eval(RESULT, env) == Is_(Mapping(entries))
    requires SafeReturn(e, bindings, depth) == Some(true) && NotOnlyBorrowed(e, bindings, depth) && Holds(e, env)
    ensures EntriesSafe(entries) <==> GEOMETRY in entries && DFM_STATUS in entries
  {
    var geometry, status, checked := AcceptedReturnIsSafe(e, bindings, depth, env);
    if GEOMETRY in entries && DFM_STATUS in entries {
      AccessReadsEntry(geometry, GEOMETRY, bindings, env, entries);
      AccessReadsEntry(status, DFM_STATUS, bindings, env, entries);
      AccessReadsEntry(checked, DFM_STATUS, bindings, env, entries);
    }
  }

  // ----- when it vouches for every mapping

  /** The return vouches for the entries of `result_json`, whatever the environment and the mapping. */
  ghost predicate Vouches(e: Expr, bindings: Bindings) {
    forall env: Env, entries: map<string, Value> ::
      TruthyOn(e, bindings, env, entries) ==> EntriesSafe(entries)
  }

  ghost predicate TruthyOn(e: Expr, bindings: Bindings, env: Env, entries: map<string, Value>) {
    && Agrees(env, bindings) && BuiltinsBound(env, bindings)
    && Eval(RESULT, env) == Is_(Mapping(entries)) && Holds(e, env)
  }

  /** A value that the comparison on this key lets pass. */
  predicate Passes(key: string, v: Value) {
    if key == GEOMETRY then v == Bool(true) else v.Str? && v.s in SAFE_STATUSES
  }

  /** A default, if there is one, is a literal that would not pass. */
  predicate HarmlessRead(access: Expr, key: string, bindings: Bindings) {
    var r := Resolve(access, bindings);
    r.Call? && |r.args| == 2 ==> Static(r.args[1]).Some? && !Passes(key, Static(r.args[1]).value)
  }

  /** So it is with every access that is compared in the return. */
  ghost predicate HarmlessDefaults(e: Expr, bindings: Bindings, depth: nat) {
    var terms := Flatten(Resolve(e, bindings), bindings, depth);
    terms.Some? ==>
      forall access, key :: OperandOfSome(access, terms.value, bindings) && MappingAccess(access, key, bindings) ==>
        HarmlessRead(access, key, bindings)
  }

  /** Then a reading that passes has found its key. */
  lemma PassingReadFindsKey(access: Expr, key: string, bindings: Bindings, env: Env, entries: map<string, Value>)
    requires Agrees(env, bindings) && Eval(RESULT, env) == Is_(Mapping(entries))
    requires MappingAccess(access, key, bindings) && HarmlessRead(access, key, bindings)
    requires Eval(access, env).Is_?
    requires if key == GEOMETRY then Eval(access, env).value == Bool(true)
             else EqualsOneOf(env, Eval(access, env).value, SAFE_STATUSES)
    ensures key in entries
  {
    ResolveKeepsValue(access, bindings, {}, env);
    var r := Resolve(access, bindings);
    if r.Call? {
      StaticIsValue(r.args[0], env);
      assert EvalAll(r.args, env).Some?;
      if key !in entries {
        if |r.args| == 2 {
          var default := Static(r.args[1]).value;
          StaticIsValue(r.args[1], env);
          assert r.args == [r.args[0], r.args[1]];
          PairEvaluates(r.args[0], r.args[1], Str(key), default, env);
          assert Eval(r, env) == Is_(default);
          StaticIsNoObject(r.args[1]);
          DefaultDoesNotPass(default, key, env);
        } else {
          DefaultDoesNotPass(None_, key, env);
        }
      }
    } else {
      StaticIsValue(r.index, env);
    }
  }

  lemma StaticIsNoObject(e: Expr)
    requires Static(e).Some?
    ensures !Static(e).value.Object?
  {
  }

  lemma DefaultDoesNotPass(v: Value, key: string, env: Env)
    requires !v.Object? && !Passes(key, v)
    ensures if key == GEOMETRY then v != Bool(true) else !EqualsOneOf(env, v, SAFE_STATUSES)
  {
    if v.Str? { StringEqualsOne(env, v, SAFE_STATUSES); }
  }

  /** An accepted return with a plain string check vouches for the entries of every mapping, if no
      default could itself give the answer. */
  lemma HarmlessDefaultsVouch(e: Expr, bindings: Bindings, depth: nat)
    requires SafeReturn(e, bindings, depth) == Some(true)
    requires NotOnlyBorrowed(e, bindings, depth) && HarmlessDefaults(e, bindings, depth)
    ensures Vouches(e, bindings)
  {
    forall env: Env, entries: map<string, Value> | TruthyOn(e, bindings, env, entries)
      ensures EntriesSafe(entries)
    {
      var terms := AcceptedTermsHold(e, bindings, depth, env);
      var geometry, status := RecognisedTermsMean(terms, bindings, env);
      PassingReadFindsKey(geometry, GEOMETRY, bindings, env, entries);
      PassingReadFindsKey(status, DFM_STATUS, bindings, env, entries);
      EntriesSafeIffPresent(e, bindings, depth, env, entries);
    }
  }

  // ----- a family of returns for which all of that is exact

  datatype Reading = Entry | Get | GetOr(default: Value)

  function Read(key: string, how: Reading): Expr {
    match how
    case Entry => Subscript(RESULT, Const(Str(key)))
    case Get => Call(Attribute(RESULT, "get"), [Const(Str(key))])
    case GetOr(default) => Call(Attribute(RESULT, "get"), [Const(Str(key)), Const(default)])
  }

  const SAFE_LITERAL: Expr := Collection(TUPLE, [Const(Str("PASS")), Const(Str("WARNING"))])
  const LITERAL: Value := Sequence(TUPLE, [Str("PASS"), Str("WARNING")])

  /** `<geometry> is True and check(<status>, str) and <status> in ("PASS", "WARNING")`. */
  function ReturnOf(check: Expr, geometry: Reading, status: Reading): Expr {
    And([Compare(Read(GEOMETRY, geometry), [Is], [Const(Bool(true))]),
         Call(check, [Read(DFM_STATUS, status), Name("str")]),
         Compare(Read(DFM_STATUS, status), [In], [SAFE_LITERAL])])
  }

  predicate IsCheck(check: Expr) {
    check == Name("isinstance") || (check.Attribute? && check.attr == "isinstance" && check.owner.Name?)
  }

  /** A default, if there is one, is a literal. */
  predicate LiteralReading(how: Reading) {
    how.GetOr? ==> !how.default.Object? && !how.default.Type?
  }

  predicate HarmlessReading(key: string, how: Reading) {
    how.GetOr? ==> !Passes(key, how.default)
  }

  /** The function binds nothing, or the name `isinstance` to another name. */
  ghost predicate FewBindings(bindings: Bindings) {
    bindings == map[] || exists helper :: bindings == map["isinstance" := Name(helper)]
  }

  lemma SafeLiteral()
    ensures Static(SAFE_LITERAL) == Some(LITERAL) && ExactStrings(LITERAL, SAFE_STATUSES)
  {
    PairsAreStatic(Str("PASS"), Str("WARNING"));
    assert LITERAL.items[0].s == "PASS" && LITERAL.items[1].s == "WARNING";
  }

  lemma ReadIsAccess(key: string, how: Reading, bindings: Bindings)
    ensures MappingAccess(Read(key, how), key, bindings)
    ensures forall other :: MappingAccess(Read(key, how), other, bindings) ==> other == key
  {
  }

  lemma TermsAreRecognised(check: Expr, geometry: Reading, status: Reading, bindings: Bindings)
    requires IsCheck(check) && FewBindings(bindings)
    ensures var terms := ReturnOf(check, geometry, status).values;
            && IdentityComparison(terms[0], GEOMETRY, bindings)
            && IsStringCheck(terms[1], DFM_STATUS, bindings)
            && StringMembership(terms[2], DFM_STATUS, SAFE_STATUSES, bindings)
  {
    SafeLiteral();
    ReadIsAccess(GEOMETRY, geometry, bindings);
    ReadIsAccess(DFM_STATUS, status, bindings);
    assert Resolve(Name("str"), bindings) == Name("str");
  }

  lemma ReturnIsAccepted(check: Expr, geometry: Reading, status: Reading, bindings: Bindings)
    requires IsCheck(check) && FewBindings(bindings)
    ensures SafeReturn(ReturnOf(check, geometry, status), bindings, 2) == Some(true)
    ensures Flatten(ReturnOf(check, geometry, status), bindings, 2) == Some(ReturnOf(check, geometry, status).values)
  {
    var e := ReturnOf(check, geometry, status);
    TermsAreRecognised(check, geometry, status, bindings);
    FlatTerms(e.values, bindings, 1, 3);
    assert e.values[..3] == e.values;
    assert Resolve(e, bindings) == e;
  }

  lemma OperandsOfReturn(check: Expr, geometry: Reading, status: Reading, access: Expr)
    requires OperandOfSome(access, ReturnOf(check, geometry, status).values, map[])
    ensures access in {Read(GEOMETRY, geometry), Const(Bool(true)), Read(DFM_STATUS, status), SAFE_LITERAL}
  {
  }

  lemma OperandIsHarmless(geometry: Reading, status: Reading, access: Expr, key: string)
    requires LiteralReading(geometry) && LiteralReading(status)
    requires HarmlessReading(GEOMETRY, geometry) && HarmlessReading(DFM_STATUS, status)
    requires OperandOfSome(access, ReturnOf(Name("isinstance"), geometry, status).values, map[])
    requires MappingAccess(access, key, map[])
    ensures HarmlessRead(access, key, map[])
  {
    OperandsOfReturn(Name("isinstance"), geometry, status, access);
    ReadIsAccess(GEOMETRY, geometry, map[]);
    ReadIsAccess(DFM_STATUS, status, map[]);
  }

  /** One half: a plain check and harmless defaults. */
  lemma HarmlessReturnVouches(geometry: Reading, status: Reading)
    requires LiteralReading(geometry) && LiteralReading(status)
    requires HarmlessReading(GEOMETRY, geometry) && HarmlessReading(DFM_STATUS, status)
    ensures Vouches(ReturnOf(Name("isinstance"), geometry, status), map[])
  {
    var e := ReturnOf(Name("isinstance"), geometry, status);
    var terms := e.values;
    TermsAreRecognised(Name("isinstance"), geometry, status, map[]);
    ReturnIsAccepted(Name("isinstance"), geometry, status, map[]);
    assert Resolve(e, map[]) == e;
    assert PlainCheck(terms[1], DFM_STATUS, map[]);
    forall access, key | OperandOfSome(access, terms, map[]) && MappingAccess(access, key, map[])
      ensures HarmlessRead(access, key, map[])
    {
      OperandIsHarmless(geometry, status, access, key);
    }
    HarmlessDefaultsVouch(e, map[], 2);
  }

  // The other half: environments in which such a return is truthy although the entries are not safe.

  /** A mapping with these entries, objects that equal everything, and any other callable than the
      builtin answering yes. */
  function Gullible(entries: map<string, Value>, bindings: Bindings, helper: string): Env {
    var names := map[helper := Object(1)] + map["result_json" := Mapping(entries), "str" := Type("str")];
    var check := if "isinstance" !in bindings then Type("isinstance")
                 else if helper == "isinstance" then Object(1) else names[helper];
    Env(names["isinstance" := check],
        (a, b) => true, (a, b) => true, tag => true,
        (v, name) => Raised,
        (f: Value, args: seq<Value>) =>
          Is_(Bool(f == Type("isinstance") ==> |args| > 0 && args[0].Str?)),
        (v, name, args) => Is_(Bool(true)),
        tag => Raised)
  }

  lemma GullibleIsBound(entries: map<string, Value>, bindings: Bindings, helper: string)
    requires bindings == map[] || bindings == map["isinstance" := Name(helper)]
    ensures BuiltinsBound(Gullible(entries, bindings, helper), bindings)
    ensures Agrees(Gullible(entries, bindings, helper), bindings)
    ensures Eval(RESULT, Gullible(entries, bindings, helper)) == Is_(Mapping(entries))
  {
  }

  /** What a reading gives: the entry, or else its default. */
  lemma ReadGives(key: string, how: Reading, env: Env, entries: map<string, Value>)
    requires Eval(RESULT, env) == Is_(Mapping(entries))
    ensures key in entries ==> Eval(Read(key, how), env) == Is_(entries[key])
    ensures key !in entries && how.GetOr? ==> Eval(Read(key, how), env) == Is_(how.default)
  {
    match how {
      case Entry =>
      case Get =>
        var one, none := [Const(Str(key))], [];
        assert one[1..] == none && EvalAll(none, env) == Some([]);
        assert [Str(key)] + [] == [Str(key)];
        assert EvalAll(one, env) == Some([Str(key)]);
      case GetOr(default) =>
        PairEvaluates(Const(Str(key)), Const(default), Str(key), default, env);
    }
  }

  /** With a status that is a string, or a check that is not the builtin, all three terms hold. */
  lemma ReturnHolds(check: Expr, geometry: Reading, status: Reading, entries: map<string, Value>,
                    bindings: Bindings, helper: string)
    requires IsCheck(check) && (check.Attribute? ==> check.owner == Name(helper))
    requires bindings == map[] || bindings == map["isinstance" := Name(helper)]
    requires var env := Gullible(entries, bindings, helper);
             && Eval(Read(GEOMETRY, geometry), env) == Is_(Bool(true))
             && Eval(Read(DFM_STATUS, status), env).Is_?
             && var v := Eval(Read(DFM_STATUS, status), env).value;
                || Passes(DFM_STATUS, v)
                || (v.Object? && (check.Attribute? || "isinstance" in bindings))
    ensures Holds(ReturnOf(check, geometry, status), Gullible(entries, bindings, helper))
  {
    var env := Gullible(entries, bindings, helper);
    var terms := ReturnOf(check, geometry, status).values;
    var v := Eval(Read(DFM_STATUS, status), env).value;
    IdentityHolds(Read(GEOMETRY, geometry), env);
    PairEvaluates(Read(DFM_STATUS, status), Name("str"), v, Type("str"), env);
    CheckHolds(check, geometry, status, entries, bindings, helper, v);
    MembershipHolds(Read(DFM_STATUS, status), v, env);
    ThreeHold(terms, env);
  }

  lemma CheckHolds(check: Expr, geometry: Reading, status: Reading, entries: map<string, Value>,
                   bindings: Bindings, helper: string, v: Value)
    requires IsCheck(check) && (check.Attribute? ==> check.owner == Name(helper))
    requires bindings == map[] || bindings == map["isinstance" := Name(helper)]
    requires var env := Gullible(entries, bindings, helper);
             EvalAll([Read(DFM_STATUS, status), Name("str")], env) == Some([v, Type("str")])
    requires v.Str? || check.Attribute? || "isinstance" in bindings
    ensures Holds(ReturnOf(check, geometry, status).values[1], Gullible(entries, bindings, helper))
  {
  }

  lemma MembershipHolds(access: Expr, v: Value, env: Env)
    requires Eval(access, env) == Is_(v)
    requires Passes(DFM_STATUS, v) || (v.Object? && forall w :: env.equal(v, w))
    ensures Holds(Compare(access, [In], [SAFE_LITERAL]), env)
  {
    SafeLiteral();
    StaticIsValue(SAFE_LITERAL, env);
    var k := if v == Str("WARNING") then 1 else 0;
    assert PyEq(env, v, LITERAL.items[k]);
  }

  lemma NotVouched(e: Expr, bindings: Bindings, env: Env, entries: map<string, Value>)
    requires TruthyOn(e, bindings, env, entries) && !EntriesSafe(entries)
    ensures !Vouches(e, bindings)
  {
  }

  /** The return does not vouch if the check is borrowed from an object or bound by the function ... */
  lemma UnsureCheckDoesNot(check: Expr, geometry: Reading, status: Reading, bindings: Bindings)
    requires IsCheck(check) && FewBindings(bindings)
    requires check.Attribute? || "isinstance" in bindings
    requires bindings == map[] || check.Name?
    ensures !Vouches(ReturnOf(check, geometry, status), bindings)
  {
    var helper := if check.Attribute? then check.owner.id else bindings["isinstance"].id;
    var entries := map[GEOMETRY := Bool(true), DFM_STATUS := Object(0)];
    var env := Gullible(entries, bindings, helper);
    GullibleIsBound(entries, bindings, helper);
    ReadGives(GEOMETRY, geometry, env, entries);
    ReadGives(DFM_STATUS, status, env, entries);
    ReturnHolds(check, geometry, status, entries, bindings, helper);
    NotVouched(ReturnOf(check, geometry, status), bindings, env, entries);
  }

  /** ... or if a default passes where the key is missing. */
  lemma PassingDefaultDoesNot(check: Expr, geometry: Reading, status: Reading)
    requires check == Name("isinstance")
    requires !HarmlessReading(GEOMETRY, geometry) || !HarmlessReading(DFM_STATUS, status)
    ensures !Vouches(ReturnOf(check, geometry, status), map[])
  {
    var entries: map<string, Value> :=
      if !HarmlessReading(GEOMETRY, geometry) then map[DFM_STATUS := Str("PASS")] else map[GEOMETRY := Bool(true)];
    var env := Gullible(entries, map[], "helper");
    GullibleIsBound(entries, map[], "helper");
    ReadGives(GEOMETRY, geometry, env, entries);
    ReadGives(DFM_STATUS, status, env, entries);
    ReturnHolds(check, geometry, status, entries, map[], "helper");
    NotVouched(ReturnOf(check, geometry, status), map[], env, entries);
  }

  /** The analyser accepts every one of these returns.  It vouches for the entries of all mappings
      exactly when the check is the plain name, which the function does not bind, and no default
      would itself pass. */
  lemma VouchesIff(check: Expr, geometry: Reading, status: Reading, bindings: Bindings)
    requires IsCheck(check) && FewBindings(bindings) && (bindings == map[] || check.Name?)
    requires LiteralReading(geometry) && LiteralReading(status)
    ensures SafeReturn(ReturnOf(check, geometry, status), bindings, 2) == Some(true)
    ensures Vouches(ReturnOf(check, geometry, status), bindings) <==>
              && check.Name? && "isinstance" !in bindings
              && HarmlessReading(GEOMETRY, geometry) && HarmlessReading(DFM_STATUS, status)
  {
    ReturnIsAccepted(check, geometry, status, bindings);
    if check.Attribute? || "isinstance" in bindings {
      UnsureCheckDoesNot(check, geometry, status, bindings);
    } else if HarmlessReading(GEOMETRY, geometry) && HarmlessReading(DFM_STATUS, status) {
      HarmlessReturnVouches(geometry, status);
    } else {
      PassingDefaultDoesNot(check, geometry, status);
    }
  }

  ghost predicate EmptyResult(env: Env) {
    BuiltinsBound(env, map[]) && Eval(RESULT, env) == Is_(Mapping(map[]))
  }

  /** `result_json.get("authoritative_geometry", True) is True and ...` with a default each time. */
  const DEFAULTED: Expr := ReturnOf(Name("isinstance"), GetOr(Bool(true)), GetOr(Str("PASS")))

  /** In particular such a return is accepted and is truthy on an empty mapping. */
  lemma DefaultsCanAnswer(env: Env)
    requires EmptyResult(env)
    ensures SafeReturn(DEFAULTED, map[], 2) == Some(true) && Holds(DEFAULTED, env)
    ensures !EntriesSafe(map[])
  {
    var terms := DEFAULTED.values;
    var geometry, status := Read(GEOMETRY, GetOr(Bool(true))), Read(DFM_STATUS, GetOr(Str("PASS")));
    ReturnIsAccepted(Name("isinstance"), GetOr(Bool(true)), GetOr(Str("PASS")), map[]);
    ReadGives(GEOMETRY, GetOr(Bool(true)), env, map[]);
    ReadGives(DFM_STATUS, GetOr(Str("PASS")), env, map[]);
    IdentityHolds(geometry, env);
    PlainCheckHolds(status, "PASS", env);
    MembershipHolds(status, Str("PASS"), env);
    ThreeHold(terms, env);
  }

  lemma IdentityHolds(access: Expr, env: Env)
    requires Eval(access, env) == Is_(Bool(true))
    ensures Holds(Compare(access, [Is], [Const(Bool(true))]), env)
  {
  }

  lemma PlainCheckHolds(access: Expr, s: string, env: Env)
    requires BuiltinsBound(env, map[]) && Eval(access, env) == Is_(Str(s))
    ensures Holds(Call(Name("isinstance"), [access, Name("str")]), env)
  {
    PairEvaluates(access, Name("str"), Str(s), Type("str"), env);
  }

  lemma ThreeHold(terms: seq<Expr>, env: Env)
    requires |terms| == 3 && Holds(terms[0], env) && Holds(terms[1], env) && Holds(terms[2], env)
    ensures Holds(And(terms), env)
  {
    assert AllHold(terms, env);
    AndHolds(terms, env);
  }

  lemma PairEvaluates(a: Expr, b: Expr, v: Value, w: Value, env: Env)
    requires Eval(a, env) == Is_(v) && Eval(b, env) == Is_(w)
    ensures EvalAll([a, b], env) == Some([v, w])
  {
    var pair, rest, none := [a, b], [b], [];
    assert pair[1..] == rest && rest[1..] == none;
    assert EvalAll(none, env) == Some([]);
    assert [w] + [] == [w];
    assert EvalAll(rest, env) == Some([w]);
    assert [v] + [w] == [v, w];
  }

  lemma PairsAreStatic(v: Value, w: Value)
    requires !v.Type? && !v.Object? && !w.Type? && !w.Object?
    ensures StaticAll([Const(v), Const(w)]) == Some([v, w])
  {
    var pair, rest, none := [Const(v), Const(w)], [Const(w)], [];
    assert pair[1..] == rest && rest[1..] == none;
    assert StaticAll(none) == Some([]);
    assert [w] + [] == [w];
    assert StaticAll(rest) == Some([w]);
    assert [v] + [w] == [v, w];
  }

  /** Terms that are neither names nor conjunctions flatten to themselves. */
  lemma {:induction false} FlatTerms(es: seq<Expr>, bindings: Bindings, depth: nat, n: nat)
    requires depth > 0 && n <= |es|
    requires forall i :: 0 <= i < |es| ==> !es[i].Name? && !es[i].And?
    ensures FlattenAll(es, bindings, depth, n) == Some(es[..n])
    decreases n
  {
    if n > 0 {
      FlatTerms(es, bindings, depth, n - 1);
      assert es[..n] == es[..n - 1] + [es[n - 1]];
    }
  }

  // ----- names are followed

  /** `e` is this expression, or a name bound to it through `n` bindings. */
  predicate Stands(e: Expr, target: Expr, bindings: Bindings, n: nat)
    decreases n
  {
    if n == 0 then e == target
    else e.Name? && e.id in bindings && Stands(bindings[e.id], target, bindings, n - 1)
  }

  ghost predicate StandsFor(e: Expr, target: Expr, bindings: Bindings) {
    exists n: nat :: Stands(e, target, bindings, n)
  }

  ghost predicate Farther(x: string, target: Expr, bindings: Bindings, n: nat) {
    exists m: nat :: m > n && Stands(Name(x), target, bindings, m)
  }

  /** Nothing is bound to what is reached. */
  predicate Final(target: Expr, bindings: Bindings) {
    target.Name? ==> target.id !in bindings
  }

  lemma {:induction false} OneLength(e: Expr, target: Expr, bindings: Bindings, m: nat, n: nat)
    requires Stands(e, target, bindings, m) && Stands(e, target, bindings, n) && Final(target, bindings)
    ensures m == n
    decreases m
  {
    if m > 0 && n > 0 {
      OneLength(bindings[e.id], target, bindings, m - 1, n - 1);
    }
  }

  lemma {:induction false} StandsResolves(e: Expr, target: Expr, bindings: Bindings, seen: set<string>, n: nat)
    requires Stands(e, target, bindings, n) && Final(target, bindings)
    requires forall x :: x in seen ==> Farther(x, target, bindings, n)
    ensures ResolveFrom(e, bindings, seen) == target
    decreases n
  {
    if n > 0 {
      if e.id in seen {
        var m: nat :| m > n && Stands(Name(e.id), target, bindings, m);
        OneLength(e, target, bindings, m, n);
        assert false;
      }
      assert Stands(Name(e.id), target, bindings, n);
      forall x | x in seen + {e.id}
        ensures Farther(x, target, bindings, n - 1)
      {
        if x != e.id {
          var m: nat :| m > n && Stands(Name(x), target, bindings, m);
        }
      }
      StandsResolves(bindings[e.id], target, bindings, seen + {e.id}, n - 1);
    }
  }

  lemma {:induction false} ResolvedStands(e: Expr, bindings: Bindings, seen: set<string>)
    ensures StandsFor(e, ResolveFrom(e, bindings, seen), bindings)
    decreases bindings.Keys - seen
  {
    if e.Name? && e.id !in seen && e.id in bindings {
      ResolvedStands(bindings[e.id], bindings, seen + {e.id});
      var n: nat :| Stands(bindings[e.id], ResolveFrom(e, bindings, seen), bindings, n);
      assert Stands(e, ResolveFrom(e, bindings, seen), bindings, n + 1);
    } else {
      assert Stands(e, e, bindings, 0);
    }
  }

  /** Resolution follows names to the end, and nowhere else. */
  lemma ResolvesIff(e: Expr, target: Expr, bindings: Bindings)
    ensures Resolve(e, bindings) == target ==> StandsFor(e, target, bindings)
    ensures StandsFor(e, target, bindings) && Final(target, bindings) ==> Resolve(e, bindings) == target
  {
    ResolvedStands(e, bindings, {});
    if StandsFor(e, target, bindings) && Final(target, bindings) {
      var n: nat :| Stands(e, target, bindings, n);
      StandsResolves(e, target, bindings, {}, n);
    }
  }

  /** `x` is `result_json.get(key, ...)` or `result_json[key]`, or a name for one of them. */
  ghost predicate Accesses(x: Expr, key: string, bindings: Bindings) {
    || (exists more ::
          StandsFor(x, Call(Attribute(Name("result_json"), "get"), [Const(Str(key))] + more), bindings))
    || StandsFor(x, Subscript(Name("result_json"), Const(Str(key))), bindings)
  }

  lemma AccessIff(x: Expr, key: string, bindings: Bindings)
    ensures MappingAccess(x, key, bindings) <==> Accesses(x, key, bindings)
  {
    if MappingAccess(x, key, bindings) {
      var r := Resolve(x, bindings);
      ResolvesIff(x, r, bindings);
      if r.Call? {
        assert r == Call(Attribute(Name("result_json"), "get"), [Const(Str(key))] + r.args[1..]);
      }
    }
    if Accesses(x, key, bindings) {
      if more :| StandsFor(x, Call(Attribute(Name("result_json"), "get"), [Const(Str(key))] + more), bindings) {
        ResolvesIff(x, Call(Attribute(Name("result_json"), "get"), [Const(Str(key))] + more), bindings);
      } else {
        ResolvesIff(x, Subscript(Name("result_json"), Const(Str(key))), bindings);
      }
    }
  }

  /** `<x> is True`, or the other way round. */
  ghost predicate SaysGeometry(t: Expr, bindings: Bindings) {
    exists x ::
      && Accesses(x, "authoritative_geometry", bindings)
      && t in {Compare(x, [Is], [Const(Bool(true))]), Compare(Const(Bool(true)), [Is], [x])}
  }

  /** `isinstance(<x>, str)`, whoever owns the `isinstance`. */
  ghost predicate SaysString(t: Expr, bindings: Bindings) {
    && t.Call? && |t.args| == 2
    && (t.func == Name("isinstance") || (t.func.Attribute? && t.func.attr == "isinstance"))
    && Accesses(t.args[0], "dfm_status", bindings)
    && StandsFor(t.args[1], Name("str"), bindings)
  }

  /** A literal display of strings that are these. */
  predicate Lists(e: Expr, strings: set<string>) {
    || (&& e.Collection?
        && (forall x :: x in e.elements ==> x.Const? && x.value.Str? && x.value.s in strings)
        && (forall s :: s in strings ==> Const(Str(s)) in e.elements))
    || (&& e.Const? && e.value.Sequence?
        && (forall v :: v in e.value.items ==> v.Str? && v.s in strings)
        && (forall s :: s in strings ==> Str(s) in e.value.items))
  }

  /** `<x> in ("PASS", "WARNING")`. */
  ghost predicate SaysStatus(t: Expr, bindings: Bindings) {
    exists x, literal ::
      && Accesses(x, "dfm_status", bindings)
      && t == Compare(x, [In], [literal])
      && Lists(literal, {"PASS", "WARNING"})
  }

  lemma {:induction false} StaticAllAt(es: seq<Expr>, i: nat)
    requires StaticAll(es).Some? && i < |es|
    ensures |StaticAll(es).value| == |es| && Static(es[i]) == Some(StaticAll(es).value[i])
    decreases |es|
  {
    if i > 0 {
      StaticAllAt(es[1..], i - 1);
    } else if |es| > 1 {
      StaticAllAt(es[1..], 0);
    }
  }

  lemma {:induction false} StaticOfStrings(es: seq<Expr>)
    requires forall x :: x in es ==> x.Const? && x.value.Str?
    ensures StaticAll(es).Some?
  {
    if es != [] {
      assert forall x :: x in es[1..] ==> x in es;
      StaticOfStrings(es[1..]);
    }
  }

  lemma ListsIff(e: Expr, strings: set<string>)
    ensures Lists(e, strings) <==> Static(e).Some? && ExactStrings(Static(e).value, strings)
  {
    if e.Collection? {
      if forall x :: x in e.elements ==> x.Const? && x.value.Str? {
        StaticOfStrings(e.elements);
      }
      if Static(e).Some? {
        var vs := StaticAll(e.elements).value;
        if e.elements != [] {
          StaticAllAt(e.elements, 0);
        }
        assert forall i :: 0 <= i < |e.elements| ==> Static(e.elements[i]) == Some(vs[i]) by {
          forall i | 0 <= i < |e.elements|
            ensures Static(e.elements[i]) == Some(vs[i])
          {
            StaticAllAt(e.elements, i);
          }
        }
        StringsOf(e, vs, strings);
      }
    } else if e.Const? && e.value.Sequence? {
      ItemsOf(e.value.items, strings);
    }
  }

  lemma ItemsOf(vs: seq<Value>, strings: set<string>)
    ensures ExactStrings(Sequence(TUPLE, vs), strings) <==>
            && (forall v :: v in vs ==> v.Str? && v.s in strings)
            && (forall s :: s in strings ==> Str(s) in vs)
  {
    var those := set i | 0 <= i < |vs| && vs[i].Str? :: vs[i].s;
    assert forall s :: s in those <==> Str(s) in vs;
  }

  lemma StringsOf(e: Expr, vs: seq<Value>, strings: set<string>)
    requires e.Collection? && |vs| == |e.elements|
    requires forall i :: 0 <= i < |vs| ==> Static(e.elements[i]) == Some(vs[i])
    ensures Lists(e, strings) <==> ExactStrings(Sequence(e.display, vs), strings)
  {
    ItemsOf(vs, strings);
    assert forall i :: 0 <= i < |vs| && vs[i].Str? ==> e.elements[i] == Const(vs[i]);
    assert forall i :: 0 <= i < |vs| && e.elements[i].Const? ==> vs[i] == e.elements[i].value;
  }

  /** What each recogniser finds in a term that is not a name. */
  lemma WhatIsRecognised(t: Expr, bindings: Bindings)
    requires !t.Name?
    ensures IdentityComparison(t, GEOMETRY, bindings) <==> SaysGeometry(t, bindings)
    ensures IsStringCheck(t, DFM_STATUS, bindings) ==> SaysString(t, bindings)
    ensures SaysString(t, bindings) && "str" !in bindings ==> IsStringCheck(t, DFM_STATUS, bindings)
    ensures StringMembership(t, DFM_STATUS, SAFE_STATUSES, bindings) <==> SaysStatus(t, bindings)
  {
    if t.Compare? && |t.ops| == 1 && |t.comparators| == 1 {
      var a, b := t.left, t.comparators[0];
      assert t == Compare(a, [t.ops[0]], [b]);
      AccessIff(a, GEOMETRY, bindings);
      AccessIff(b, GEOMETRY, bindings);
      AccessIff(a, DFM_STATUS, bindings);
      ListsIff(b, SAFE_STATUSES);
    }
    if t.Call? && |t.args| == 2 {
      AccessIff(t.args[0], DFM_STATUS, bindings);
      ResolvesIff(t.args[1], Name("str"), bindings);
    }
  }

  /** `t` is a conjunct of `e`: each conjunction on the way written out or held in names. */
  ghost predicate Conjunct(t: Expr, e: Expr, bindings: Bindings, depth: nat)
    decreases depth
  {
    || StandsFor(e, t, bindings)
    || (depth > 0 && exists values, v ::
          StandsFor(e, And(values), bindings) && v in values && Conjunct(t, v, bindings, depth - 1))
  }

  /** Flattening lists exactly the conjuncts that are neither names nor conjunctions. */
  lemma {:induction false} FlattenLists(t: Expr, e: Expr, bindings: Bindings, depth: nat)
    requires Flatten(e, bindings, depth).Some? && !t.Name? && !t.And?
    ensures t in Flatten(e, bindings, depth).value <==> Conjunct(t, e, bindings, depth)
    decreases depth, 0
  {
    var r := Resolve(e, bindings);
    ResolvesIff(e, r, bindings);
    ResolvesIff(e, t, bindings);
    if r.And? {
      FlattenAllLists(t, r.values, bindings, depth - 1, |r.values|);
      assert r.values[..|r.values|] == r.values;
      assert r == And(r.values);
      forall values | StandsFor(e, And(values), bindings)
        ensures values == r.values
      {
        ResolvesIff(e, And(values), bindings);
      }
    } else {
      forall values | StandsFor(e, And(values), bindings)
        ensures false
      {
        ResolvesIff(e, And(values), bindings);
      }
    }
  }

  lemma {:induction false} FlattenAllLists(t: Expr, es: seq<Expr>, bindings: Bindings, depth: nat, n: nat)
    requires n <= |es| && FlattenAll(es, bindings, depth, n).Some? && !t.Name? && !t.And?
    ensures t in FlattenAll(es, bindings, depth, n).value <==>
            exists v :: v in es[..n] && Conjunct(t, v, bindings, depth)
    decreases depth, n + 1
  {
    if n > 0 {
      FlattenAllLists(t, es, bindings, depth, n - 1);
      FlattenLists(t, es[n - 1], bindings, depth);
      assert es[..n] == es[..n - 1] + [es[n - 1]];
    }
  }

  /** `e` has three conjuncts that say what a generation predicate must say. */
  ghost predicate SaysAll(e: Expr, bindings: Bindings, depth: nat) {
    && (exists t :: SaysGeometry(t, bindings) && Conjunct(t, e, bindings, depth))
    && (exists t :: SaysString(t, bindings) && Conjunct(t, e, bindings, depth))
    && (exists t :: SaysStatus(t, bindings) && Conjunct(t, e, bindings, depth))
  }

  lemma {:induction false} StandsOn(e: Expr, via: Expr, target: Expr, bindings: Bindings, n: nat)
    requires Stands(e, via, bindings, n) && StandsFor(via, target, bindings)
    ensures StandsFor(e, target, bindings)
    decreases n
  {
    if n > 0 {
      StandsOn(bindings[e.id], via, target, bindings, n - 1);
      var m: nat :| Stands(bindings[e.id], target, bindings, m);
      assert Stands(e, target, bindings, m + 1);
    }
  }

  /** A name that resolution ends in leads to names only. */
  lemma DeadName(e: Expr, bindings: Bindings)
    requires Resolve(e, bindings).Name?
    ensures Resolve(Resolve(e, bindings), bindings).Name?
  {
    var r := Resolve(e, bindings);
    var target := Resolve(r, bindings);
    ResolvesIff(e, r, bindings);
    ResolvesIff(r, target, bindings);
    var n: nat :| Stands(e, r, bindings, n);
    StandsOn(e, r, target, bindings, n);
    ResolvesIff(e, target, bindings);
  }

  lemma {:induction false} FlatNames(e: Expr, bindings: Bindings, depth: nat)
    requires Flatten(e, bindings, depth).Some?
    ensures forall t :: t in Flatten(e, bindings, depth).value ==>
              !t.And? && (t.Name? ==> Resolve(t, bindings).Name?)
    decreases depth, 0
  {
    var r := Resolve(e, bindings);
    if r.And? {
      FlatNamesOfAll(r.values, bindings, depth - 1, |r.values|);
    } else if r.Name? {
      DeadName(e, bindings);
    }
  }

  lemma {:induction false} FlatNamesOfAll(es: seq<Expr>, bindings: Bindings, depth: nat, n: nat)
    requires n <= |es| && FlattenAll(es, bindings, depth, n).Some?
    ensures forall t :: t in FlattenAll(es, bindings, depth, n).value ==>
              !t.And? && (t.Name? ==> Resolve(t, bindings).Name?)
    decreases depth, n + 1
  {
    if n > 0 {
      FlatNamesOfAll(es, bindings, depth, n - 1);
      FlatNames(es[n - 1], bindings, depth);
    }
  }

  /** What each recogniser finds in the terms of a flattened expression. */
  lemma TermsSay(e: Expr, terms: seq<Expr>, bindings: Bindings, depth: nat)
    requires Flatten(e, bindings, depth) == Some(terms)
    ensures (exists i :: 0 <= i < |terms| && IdentityComparison(terms[i], GEOMETRY, bindings)) <==>
            (exists t :: SaysGeometry(t, bindings) && Conjunct(t, e, bindings, depth))
    ensures (exists i :: 0 <= i < |terms| && IsStringCheck(terms[i], DFM_STATUS, bindings)) ==>
            (exists t :: SaysString(t, bindings) && Conjunct(t, e, bindings, depth))
    ensures (exists t :: SaysString(t, bindings) && Conjunct(t, e, bindings, depth)) && "str" !in bindings ==>
            (exists i :: 0 <= i < |terms| && IsStringCheck(terms[i], DFM_STATUS, bindings))
    ensures (exists i :: 0 <= i < |terms| && StringMembership(terms[i], DFM_STATUS, SAFE_STATUSES, bindings)) <==>
            (exists t :: SaysStatus(t, bindings) && Conjunct(t, e, bindings, depth))
  {
    FlatNames(e, bindings, depth);
    forall t: Expr | !t.Name? && !t.And?
      ensures t in terms <==> Conjunct(t, e, bindings, depth)
    {
      FlattenLists(t, e, bindings, depth);
    }
    forall t: Expr | !t.Name?
      ensures IdentityComparison(t, GEOMETRY, bindings) <==> SaysGeometry(t, bindings)
      ensures IsStringCheck(t, DFM_STATUS, bindings) ==> SaysString(t, bindings)
      ensures SaysString(t, bindings) && "str" !in bindings ==> IsStringCheck(t, DFM_STATUS, bindings)
      ensures StringMembership(t, DFM_STATUS, SAFE_STATUSES, bindings) <==> SaysStatus(t, bindings)
    {
      WhatIsRecognised(t, bindings);
    }
    forall i | 0 <= i < |terms|
      ensures terms[i] in terms
    {
    }
  }

  /** Exactly the returns that are `False` or say the three things are accepted, however names are used. */
  lemma AcceptedIffSaid(e: Expr, bindings: Bindings, depth: nat)
    requires Flatten(e, bindings, depth).Some?
    ensures SafeReturn(e, bindings, depth) == Some(true) ==>
              StandsFor(e, Const(Bool(false)), bindings) || SaysAll(e, bindings, depth)
    ensures StandsFor(e, Const(Bool(false)), bindings) ==> SafeReturn(e, bindings, depth) == Some(true)
    ensures SaysAll(e, bindings, depth) && "str" !in bindings ==> SafeReturn(e, bindings, depth) == Some(true)
  {
    ResolvesIff(e, Const(Bool(false)), bindings);
    SafeWhenTermsAre(e, bindings, depth);
    TermsSay(e, Flatten(e, bindings, depth).value, bindings, depth);
  }

  lemma SafeWhenTermsAre(e: Expr, bindings: Bindings, depth: nat)
    requires Flatten(e, bindings, depth).Some?
    ensures var terms := Flatten(e, bindings, depth).value;
            SafeReturn(e, bindings, depth) == Some(
              || Resolve(e, bindings) == Const(Bool(false))
              || (&& (exists i :: 0 <= i < |terms| && IdentityComparison(terms[i], GEOMETRY, bindings))
                  && (exists i :: 0 <= i < |terms| && IsStringCheck(terms[i], DFM_STATUS, bindings))
                  && (exists i :: 0 <= i < |terms| && StringMembership(terms[i], DFM_STATUS, SAFE_STATUSES, bindings))))
  {
    var r := Resolve(e, bindings);
    if r.Name? {
      DeadName(e, bindings);
      DeadName(r, bindings);
      assert Flatten(e, bindings, depth) == Some([r]);
      assert Flatten(r, bindings, depth) == Some([Resolve(r, bindings)]);
    } else {
      assert Flatten(r, bindings, depth) == Flatten(e, bindings, depth);
    }
  }

  /** The three things said of `x` and `y`. */
  function SayingReturn(x: Expr, y: Expr): Expr {
    And([Compare(x, [Is], [Const(Bool(true))]),
         Call(Name("isinstance"), [y, Name("str")]),
         Compare(y, [In], [Collection(TUPLE, [Const(Str("PASS")), Const(Str("WARNING"))])])])
  }

  lemma OperandIsConjunct(v: Expr, values: seq<Expr>, bindings: Bindings, depth: nat)
    requires v in values && depth > 0
    ensures Conjunct(v, And(values), bindings, depth)
  {
    assert Stands(v, v, bindings, 0);
    assert Conjunct(v, v, bindings, depth - 1);
    assert Stands(And(values), And(values), bindings, 0);
    assert StandsFor(And(values), And(values), bindings) && v in values && Conjunct(v, v, bindings, depth - 1);
  }

  /** It is accepted whatever names stand for the accesses. */
  lemma NamedAccessesAreAccepted(x: Expr, y: Expr, bindings: Bindings)
    requires Accesses(x, "authoritative_geometry", bindings) && Accesses(y, "dfm_status", bindings)
    requires "str" !in bindings
    ensures SafeReturn(SayingReturn(x, y), bindings, 2) == Some(true)
  {
    var e := SayingReturn(x, y);
    FlatTerms(e.values, bindings, 1, 3);
    assert Stands(Name("str"), Name("str"), bindings, 0);
    assert Lists(e.values[2].comparators[0], {"PASS", "WARNING"});
    assert SaysGeometry(e.values[0], bindings) && SaysString(e.values[1], bindings) && SaysStatus(e.values[2], bindings);
    OperandIsConjunct(e.values[0], e.values, bindings, 2);
    OperandIsConjunct(e.values[1], e.values, bindings, 2);
    OperandIsConjunct(e.values[2], e.values, bindings, 2);
    AcceptedIffSaid(e, bindings, 2);
  }

  lemma GetAccesses(x: Expr, key: string, bindings: Bindings, n: nat)
    requires Stands(x, Call(Attribute(Name("result_json"), "get"), [Const(Str(key))]), bindings, n)
    ensures Accesses(x, key, bindings)
  {
    assert [Const(Str(key))] + [] == [Const(Str(key))];
    assert StandsFor(x, Call(Attribute(Name("result_json"), "get"), [Const(Str(key))] + []), bindings);
  }

  /** The predicate of services/api/app/api.py: `dfm_status = result_json.get("dfm_status")`, and
      `result_json.get("authoritative_geometry") is True and isinstance(dfm_status, str) and
      dfm_status in ("PASS", "WARNING")`. */
  lemma RepositoryReturnIsAccepted()
    ensures var get := Attribute(Name("result_json"), "get");
            var bindings := map["dfm_status" := Call(get, [Const(Str("dfm_status"))])];
            var geometry := Call(get, [Const(Str("authoritative_geometry"))]);
            SafeReturn(SayingReturn(geometry, Name("dfm_status")), bindings, 2) == Some(true)
  {
    var get := Attribute(Name("result_json"), "get");
    var status, geometry := Call(get, [Const(Str("dfm_status"))]), Call(get, [Const(Str("authoritative_geometry"))]);
    var bindings := map["dfm_status" := status];
    assert Stands(bindings["dfm_status"], status, bindings, 0);
    GetAccesses(geometry, "authoritative_geometry", bindings, 0);
    GetAccesses(Name("dfm_status"), "dfm_status", bindings, 1);
    NamedAccessesAreAccepted(geometry, Name("dfm_status"), bindings);
  }

  // ----- when the analyser terminates

  lemma {:induction false} DeeperIsFine(e: Expr, bindings: Bindings, depth: nat, deeper: nat)
    requires depth <= deeper && Flatten(e, bindings, depth).Some?
    ensures Flatten(e, bindings, deeper) == Flatten(e, bindings, depth)
    decreases depth, 0
  {
    var r := Resolve(e, bindings);
    if r.And? {
      DeeperIsFineForAll(r.values, bindings, depth - 1, deeper - 1, |r.values|);
    }
  }

  lemma {:induction false} DeeperIsFineForAll(es: seq<Expr>, bindings: Bindings, depth: nat, deeper: nat, n: nat)
    requires depth <= deeper && n <= |es| && FlattenAll(es, bindings, depth, n).Some?
    ensures FlattenAll(es, bindings, deeper, n) == FlattenAll(es, bindings, depth, n)
    decreases depth, n + 1
  {
    if n > 0 {
      DeeperIsFineForAll(es, bindings, depth, deeper, n - 1);
      DeeperIsFine(es[n - 1], bindings, depth, deeper);
    }
  }

  /** Ranks of bound names that stand for conjunctions. */
  type Ranks = map<string, nat>

  /** Every name that occurs as a conjunct of `e` and stands for a conjunction is ranked below `limit`. */
  ghost predicate Falls(e: Expr, bindings: Bindings, ranks: Ranks, limit: nat)
    decreases e
  {
    match e
    case Name(id) => Resolve(e, bindings).And? ==> id in ranks && ranks[id] < limit
    case And(values) => forall v :: v in values ==> Falls(v, bindings, ranks, limit)
    case _ => true
  }

  /** Ranks fall from every ranked name to the conjuncts of what it stands for. */
  ghost predicate Ranked(bindings: Bindings, ranks: Ranks) {
    forall x :: x in ranks ==>
      var r := Resolve(Name(x), bindings);
      r.And? ==> forall v :: v in r.values ==> Falls(v, bindings, ranks, ranks[x])
  }

  lemma {:induction false} FallsBelowMore(e: Expr, bindings: Bindings, ranks: Ranks, low: nat, high: nat)
    requires Falls(e, bindings, ranks, low) && low <= high
    ensures Falls(e, bindings, ranks, high)
    decreases e
  {
    if e.And? {
      forall v | v in e.values ensures Falls(v, bindings, ranks, high) {
        FallsBelowMore(v, bindings, ranks, low, high);
      }
    }
  }

  /** With ranks some depth suffices. */
  lemma {:induction false} RankedTerminates(e: Expr, bindings: Bindings, ranks: Ranks, limit: nat)
      returns (depth: nat)
    requires Ranked(bindings, ranks) && Falls(e, bindings, ranks, limit)
    ensures Flatten(e, bindings, depth).Some?
    decreases limit, e, 0
  {
    var r := Resolve(e, bindings);
    depth := 1;
    if e.Name? && r.And? {
      var inner := RankedTerminatesForAll(r, bindings, ranks, ranks[e.id], |r.values|);
      depth := inner + 1;
    } else if e.And? {
      var inner := RankedTerminatesForAll(e, bindings, ranks, limit, |e.values|);
      depth := inner + 1;
    }
  }

  lemma {:induction false} RankedTerminatesForAll(r: Expr, bindings: Bindings, ranks: Ranks, limit: nat, n: nat)
      returns (depth: nat)
    requires r.And? && n <= |r.values|
    requires Ranked(bindings, ranks) && forall v :: v in r.values ==> Falls(v, bindings, ranks, limit)
    ensures FlattenAll(r.values, bindings, depth, n).Some?
    decreases limit, r, 0, n
  {
    depth := 0;
    if n > 0 {
      var front := RankedTerminatesForAll(r, bindings, ranks, limit, n - 1);
      assert r.values[n - 1] in r.values;
      var last := RankedTerminates(r.values[n - 1], bindings, ranks, limit);
      depth := if front > last then front else last;
      DeeperIsFineForAll(r.values, bindings, front, depth, n - 1);
      DeeperIsFine(r.values[n - 1], bindings, last, depth);
    }
  }

  /** The least depth that flattens `e`, if `depth` does. */
  function LeastDepth(e: Expr, bindings: Bindings, depth: nat): (least: nat)
    requires Flatten(e, bindings, depth).Some?
    ensures least <= depth && Flatten(e, bindings, least).Some?
    ensures forall d: nat :: d < least ==> Flatten(e, bindings, d).None?
    decreases depth
  {
    if depth > 0 && Flatten(e, bindings, depth - 1).Some? then LeastDepth(e, bindings, depth - 1)
    else NothingShallower(e, bindings, depth); depth
  }

  lemma NothingShallower(e: Expr, bindings: Bindings, depth: nat)
    requires depth > 0 ==> Flatten(e, bindings, depth - 1).None?
    ensures forall d: nat :: d < depth ==> Flatten(e, bindings, d).None?
  {
    forall d: nat | d < depth ensures Flatten(e, bindings, d).None? {
      if Flatten(e, bindings, d).Some? { DeeperIsFine(e, bindings, d, depth - 1); }
    }
  }

  /** The least sufficient depth of every name for which `depth` suffices. */
  ghost function DepthRanks(bindings: Bindings, depth: nat): Ranks {
    map x | x in bindings && Flatten(Name(x), bindings, depth).Some? :: LeastDepth(Name(x), bindings, depth)
  }

  lemma {:induction false} FlattenedFalls(e: Expr, bindings: Bindings, d: nat, depth: nat)
    requires d <= depth && Flatten(e, bindings, d).Some?
    ensures Falls(e, bindings, DepthRanks(bindings, depth), d + 1)
    decreases e
  {
    var ranks := DepthRanks(bindings, depth);
    if e.Name? && Resolve(e, bindings).And? {
      DeeperIsFine(e, bindings, d, depth);
      assert e.id in bindings && ranks[e.id] <= d;
    } else if e.And? {
      assert Resolve(e, bindings) == e;
      forall v | v in e.values ensures Falls(v, bindings, ranks, d + 1) {
        var i :| 0 <= i < |e.values| && e.values[i] == v;
        EachFlattens(e.values, bindings, d - 1, |e.values|, i);
        FlattenedFalls(v, bindings, d - 1, depth);
        FallsBelowMore(v, bindings, ranks, d, d + 1);
      }
    }
  }

  lemma {:induction false} EachFlattens(es: seq<Expr>, bindings: Bindings, depth: nat, n: nat, i: nat)
    requires i < n <= |es| && FlattenAll(es, bindings, depth, n).Some?
    ensures Flatten(es[i], bindings, depth).Some?
  {
    if i < n - 1 {
      EachFlattens(es, bindings, depth, n - 1, i);
    }
  }

  lemma DepthRanksFall(bindings: Bindings, depth: nat)
    ensures Ranked(bindings, DepthRanks(bindings, depth))
  {
    var ranks := DepthRanks(bindings, depth);
    forall x | x in ranks && Resolve(Name(x), bindings).And?
      ensures forall v :: v in Resolve(Name(x), bindings).values ==> Falls(v, bindings, ranks, ranks[x])
    {
      var r := Resolve(Name(x), bindings);
      assert Flatten(Name(x), bindings, ranks[x]).Some?;
      forall v | v in r.values ensures Falls(v, bindings, ranks, ranks[x]) {
        var i :| 0 <= i < |r.values| && r.values[i] == v;
        EachFlattens(r.values, bindings, ranks[x] - 1, |r.values|, i);
        FlattenedFalls(v, bindings, ranks[x] - 1, depth);
      }
    }
  }

  /** Some recursion depth is enough. */
  ghost predicate Terminates(e: Expr, bindings: Bindings) {
    exists depth: nat :: Flatten(e, bindings, depth).Some?
  }

  /** The names reachable from `e` through conjunctions are ranked below `limit`, falling. */
  ghost predicate RankedFrom(e: Expr, bindings: Bindings, ranks: Ranks, limit: nat) {
    Ranked(bindings, ranks) && Falls(e, bindings, ranks, limit)
  }

  /** Flattening ends exactly when no name that is reachable from `e` through conjunctions reaches
      itself: when the reachable names that stand for conjunctions can be ranked so that ranks fall
      along conjuncts.  Other cycles do no harm. */
  lemma TerminatesIffRanked(e: Expr, bindings: Bindings)
    ensures Terminates(e, bindings) <==> exists ranks: Ranks, limit: nat :: RankedFrom(e, bindings, ranks, limit)
  {
    if Terminates(e, bindings) {
      var depth: nat :| Flatten(e, bindings, depth).Some?;
      DepthRanksFall(bindings, depth);
      FlattenedFalls(e, bindings, depth, depth);
      assert RankedFrom(e, bindings, DepthRanks(bindings, depth), depth + 1);
    } else if ranks: Ranks, limit: nat :| RankedFrom(e, bindings, ranks, limit) {
      var depth := RankedTerminates(e, bindings, ranks, limit);
      assert Flatten(e, bindings, depth).Some?;
    }
  }

  /** `a = a and b` exhausts every recursion limit. */
  lemma {:induction false} CycleNeverTerminates(depth: nat)
    ensures var cyclic := map["a" := And([Name("a"), Name("b")])];
            Flatten(Name("a"), cyclic, depth).None?
  {
    var body := And([Name("a"), Name("b")]);
    var cyclic := map["a" := body];
    if depth > 0 {
      assert cyclic["a"] == body && ResolveFrom(body, cyclic, {} + {"a"}) == body;
      assert Resolve(Name("a"), cyclic) == body;
      CycleNeverTerminates(depth - 1);
      assert FlattenAll(body.values, cyclic, depth - 1, 1).None?;
      assert FlattenAll(body.values, cyclic, depth - 1, 2).None?;
    }
  }
}
