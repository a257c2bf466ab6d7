/** Authoring a production machine profile (scripts/production_machine_profile.py): the two
    traversals over an explicit stack, and the finalisation of a draft. */
module ProfileDraft {

  import opened JsonPointers
  import opened Ordering
  import opened Wrappers

  const UNRESOLVED_KEY := "$unresolved"
  const UNRESOLVED: Json := Object(map[UNRESOLVED_KEY := Str("WORKSHOP_INPUT_REQUIRED")])
  const MAX_NESTING: nat := 32

  // ----- children, in the order of their sorted names or indices

  function Children(v: Json): (r: seq<(string, Json)>)
    ensures forall i :: 0 <= i < |r| ==> r[i].1 < v
  {
    match v
    case Object(members) =>
      var names := InOrder(members.Keys);
      assert forall i :: 0 <= i < |names| ==> names[i] in members;
      var r := seq(|names|, i requires 0 <= i < |names| => (names[i], members[names[i]]));
      assert forall i :: 0 <= i < |r| ==> r[i].1 == members[names[i]];
      r
    case Array(items) => seq(|items|, i requires 0 <= i < |items| => (Decimal(i), items[i]))
    case _ => []
  }

  /** The children are exactly what reference tokens select, each under one token. */
  lemma ChildrenAreSelected(v: Json)
    ensures forall i :: 0 <= i < |Children(v)| ==> Select(v, Children(v)[i].0) == Some(Children(v)[i].1)
    ensures forall i, j :: 0 <= i < j < |Children(v)| ==> Children(v)[i].0 != Children(v)[j].0
  {
    if v.Array? {
      forall i | 0 <= i < |v.items|
        ensures Select(v, Decimal(i)) == Some(v.items[i])
      {
        SelectIndexFinds(v.items, 0, i);
      }
      forall i, j | 0 <= i < j < |v.items|
        ensures Decimal(i) != Decimal(j)
      {
        if Decimal(i) == Decimal(j) {
          DecimalInjective(i, j);
        }
      }
    }
  }

  lemma SelectedIsChild(v: Json, token: string) returns (i: nat)
    requires Select(v, token).Some?
    ensures i < |Children(v)| && Children(v)[i] == (token, Select(v, token).value)
  {
    if v.Object? {
      var names := InOrder(v.members.Keys);
      assert token in names;
      i :| 0 <= i < |names| && names[i] == token;
    } else {
      SelectIndexOnly(v.items, token, 0);
      i :| 0 <= i < |v.items| && token == Decimal(i) && Select(v, token) == Some(v.items[i]);
    }
  }

  // ----- the unresolved facts, recursively

  function Unresolved(pointer: string, v: Json): seq<string>
    decreases v, 1, 0
  {
    if v == UNRESOLVED then [pointer] else UnresolvedFrom(pointer, v, 0)
  }

  function UnresolvedFrom(pointer: string, v: Json, i: nat): seq<string>
    requires i <= |Children(v)|
    decreases v, 0, |Children(v)| - i
  {
    if i == |Children(v)| then []
    else
      var c := Children(v)[i];
      Unresolved(Child(pointer, c.0), c.1) + UnresolvedFrom(pointer, v, i + 1)
  }

  function Size(v: Json): nat
    decreases v, 1, 0
  {
    1 + SizeFrom(v, 0)
  }

  function SizeFrom(v: Json, i: nat): nat
    requires i <= |Children(v)|
    decreases v, 0, |Children(v)| - i
  {
    if i == |Children(v)| then 0 else Size(Children(v)[i].1) + SizeFrom(v, i + 1)
  }

  // ----- the same with a stack

  datatype Stack = Bottom | Push(pointer: string, value: Json, below: Stack)

  function Todo(stack: Stack): seq<string> {
    match stack
    case Bottom => []
    case Push(pointer, value, below) => Unresolved(pointer, value) + Todo(below)
  }

  function StackSize(stack: Stack): nat {
    match stack
    case Bottom => 0
    case Push(_, value, below) => Size(value) + StackSize(below)
  }

  lemma Reassociate(a: seq<string>, b: seq<string>, c: seq<string>)
    ensures a + (b + c) == (a + b) + c
  {
  }

  /** Putting one more child on the stack puts it first in line. */
  lemma PushedFirst(pointer: string, v: Json, i: nat, stack: Stack, base: Stack) returns (pushed: Stack)
    requires i < |Children(v)|
    requires Todo(stack) == UnresolvedFrom(pointer, v, i + 1) + Todo(base)
    requires StackSize(stack) == SizeFrom(v, i + 1) + StackSize(base)
    ensures pushed == Push(Child(pointer, Children(v)[i].0), Children(v)[i].1, stack)
    ensures Todo(pushed) == UnresolvedFrom(pointer, v, i) + Todo(base)
    ensures StackSize(pushed) == SizeFrom(v, i) + StackSize(base)
  {
    var c := Children(v)[i];
    pushed := Push(Child(pointer, c.0), c.1, stack);
    Reassociate(Unresolved(Child(pointer, c.0), c.1), UnresolvedFrom(pointer, v, i + 1), Todo(base));
  }

  /** The children go on the stack last first, so the first is looked at next. */
  method PushChildren(pointer: string, v: Json, base: Stack) returns (stack: Stack)
    ensures Todo(stack) == UnresolvedFrom(pointer, v, 0) + Todo(base)
    ensures StackSize(stack) == SizeFrom(v, 0) + StackSize(base)
  {
    var children := Children(v);
    var i := |children|;
    stack := base;
    while i > 0
      invariant 0 <= i <= |children|
      invariant Todo(stack) == UnresolvedFrom(pointer, v, i) + Todo(base)
      invariant StackSize(stack) == SizeFrom(v, i) + StackSize(base)
    {
      i := i - 1;
      ghost var pushed := PushedFirst(pointer, v, i, stack, base);
      stack := Push(Child(pointer, children[i].0), children[i].1, stack);
    }
  }

  /** The loop reports exactly the recursive listing, in its order. */
  method FindUnresolved(pointer: string, value: Json) returns (found: seq<string>)
    ensures found == Unresolved(pointer, value)
  {
    found := [];
    var pending := Push(pointer, value, Bottom);
    while pending.Push?
      invariant found + Todo(pending) == Unresolved(pointer, value)
      decreases StackSize(pending)
    {
      var here, current, rest := pending.pointer, pending.value, pending.below;
      ghost var before := found;
      if current == UNRESOLVED {
        found := found + [here];
        pending := rest;
        assert before + ([here] + Todo(rest)) == found + Todo(rest);
      } else {
        pending := PushChildren(here, current, rest);
        assert Unresolved(here, current) == UnresolvedFrom(here, current, 0);
      }
    }
    assert found + [] == found;
  }

  // ----- what the listing says

  ghost predicate IsUnresolvedAt(v: Json, tokens: seq<string>) {
    Walk(v, tokens) == Some(UNRESOLVED)
  }

  /** A pointer is listed exactly when it leads to an unresolved fact. */
  lemma {:induction false} ListedIffUnresolved(parent: string, v: Json, tokens: seq<string>)
    ensures Pointer(parent, tokens) in Unresolved(parent, v) <==> IsUnresolvedAt(v, tokens)
  {
    if IsUnresolvedAt(v, tokens) {
      UnresolvedIsListed(parent, v, tokens);
    }
    if Pointer(parent, tokens) in Unresolved(parent, v) {
      var found := ListedIsUnresolved(parent, v, Pointer(parent, tokens));
      PointersDiffer(parent, found, tokens);
    }
  }

  lemma {:induction false} UnresolvedIsListed(parent: string, v: Json, tokens: seq<string>)
    requires IsUnresolvedAt(v, tokens)
    ensures Pointer(parent, tokens) in Unresolved(parent, v)
    decreases |tokens|
  {
    if tokens != [] {
      NoMarkerBelowMarker(tokens);
      var i := SelectedIsChild(v, tokens[0]);
      UnresolvedIsListed(Child(parent, tokens[0]), Children(v)[i].1, tokens[1..]);
      ChildListed(parent, v, 0, i, Pointer(parent, tokens));
    }
  }

  lemma NoMarkerBelowMarker(tokens: seq<string>)
    requires tokens != []
    ensures !IsUnresolvedAt(UNRESOLVED, tokens)
  {
    var leaf := UNRESOLVED.members[UNRESOLVED_KEY];
    assert Walk(leaf, tokens[1..]) != Some(UNRESOLVED);
  }

  lemma {:induction false} ChildListed(parent: string, v: Json, start: nat, i: nat, p: string)
    requires start <= i < |Children(v)|
    requires p in Unresolved(Child(parent, Children(v)[i].0), Children(v)[i].1)
    ensures p in UnresolvedFrom(parent, v, start)
    decreases i - start
  {
    if start < i {
      ChildListed(parent, v, start + 1, i, p);
    }
  }

  lemma {:induction false} ListedIsUnresolved(parent: string, v: Json, p: string) returns (tokens: seq<string>)
    requires p in Unresolved(parent, v)
    ensures p == Pointer(parent, tokens) && IsUnresolvedAt(v, tokens)
    decreases v, 1, 0
  {
    if v == UNRESOLVED {
      tokens := [];
    } else {
      var i;
      i, tokens := ListedFromIsUnresolved(parent, v, 0, p);
    }
  }

  lemma {:induction false} ListedFromIsUnresolved(parent: string, v: Json, start: nat, p: string)
      returns (i: nat, tokens: seq<string>)
    requires start <= |Children(v)| && p in UnresolvedFrom(parent, v, start)
    ensures start <= i < |Children(v)|
    ensures tokens != [] && tokens[0] == Children(v)[i].0
    ensures p == Pointer(parent, tokens) && IsUnresolvedAt(v, tokens)
    decreases v, 0, |Children(v)| - start
  {
    var c := Children(v)[start];
    if p in Unresolved(Child(parent, c.0), c.1) {
      var rest := ListedIsUnresolved(Child(parent, c.0), c.1, p);
      ChildrenAreSelected(v);
      i, tokens := start, [c.0] + rest;
      assert tokens[1..] == rest;
    } else {
      i, tokens := ListedFromIsUnresolved(parent, v, start + 1, p);
    }
  }

  // ----- no fact is listed twice

  predicate NoRepeats(s: seq<string>) {
    forall i, j :: 0 <= i < j < |s| ==> s[i] != s[j]
  }

  lemma {:induction false} ListedOnce(parent: string, v: Json)
    ensures NoRepeats(Unresolved(parent, v))
    decreases v, 1, 0
  {
    if v != UNRESOLVED {
      ListedOnceFrom(parent, v, 0);
    }
  }

  lemma {:induction false} ListedOnceFrom(parent: string, v: Json, start: nat)
    requires start <= |Children(v)|
    ensures NoRepeats(UnresolvedFrom(parent, v, start))
    decreases v, 0, |Children(v)| - start
  {
    if start < |Children(v)| {
      var c := Children(v)[start];
      var here, later := Unresolved(Child(parent, c.0), c.1), UnresolvedFrom(parent, v, start + 1);
      ListedOnce(Child(parent, c.0), c.1);
      ListedOnceFrom(parent, v, start + 1);
      forall p | p in here
        ensures p !in later
      {
        DifferentChildren(parent, v, start, p);
      }
      NoRepeatsConcat(here, later);
    }
  }

  lemma NoRepeatsConcat(a: seq<string>, b: seq<string>)
    requires NoRepeats(a) && NoRepeats(b) && forall p :: p in a ==> p !in b
    ensures NoRepeats(a + b)
  {
    var c := a + b;
    forall i, j | 0 <= i < j < |c|
      ensures c[i] != c[j]
    {
      if i < |a| <= j {
        assert c[i] in a && c[j] == b[j - |a|];
      }
    }
  }

  lemma DifferentChildren(parent: string, v: Json, i: nat, p: string)
    requires i < |Children(v)|
    requires p in Unresolved(Child(parent, Children(v)[i].0), Children(v)[i].1)
    ensures p !in UnresolvedFrom(parent, v, i + 1)
  {
    var c := Children(v)[i];
    var rest := ListedIsUnresolved(Child(parent, c.0), c.1, p);
    var mine := [c.0] + rest;
    assert mine[1..] == rest;
    ChildrenAreSelected(v);
    if p in UnresolvedFrom(parent, v, i + 1) {
      var k, tokens := ListedFromIsUnresolved(parent, v, i + 1, p);
      PointersDiffer(parent, mine, tokens);
    }
  }

  /** Every reported pointer, resolved in the document, gives the unresolved fact; every unresolved
      fact of the document is reported, and none is reported twice. */
  lemma ReportIsExact(v: Json)
    ensures forall p :: p in Unresolved("", v) ==> Resolve(v, p) == Some(UNRESOLVED)
    ensures forall tokens :: Walk(v, tokens) == Some(UNRESOLVED) ==> Pointer("", tokens) in Unresolved("", v)
    ensures NoRepeats(Unresolved("", v))
  {
    forall p | p in Unresolved("", v)
      ensures Resolve(v, p) == Some(UNRESOLVED)
    {
      var tokens := ListedIsUnresolved("", v, p);
      PointerResolves(v, tokens);
    }
    forall tokens | Walk(v, tokens) == Some(UNRESOLVED)
      ensures Pointer("", tokens) in Unresolved("", v)
    {
      UnresolvedIsListed("", v, tokens);
    }
    ListedOnce("", v);
  }

  // ----- nesting

  datatype Levels = Ground | Level(pointer: string, value: Json, depth: nat, below: Levels)

  datatype TooDeep = TooDeep(pointer: string, depth: nat)

  /** Some node under `v`, itself `depth` deep, is deeper than the limit. */
  ghost predicate ExceedsFrom(v: Json, depth: nat) {
    exists tokens :: DeepAt(v, depth, tokens)
  }

  ghost predicate AnyExceeds(levels: Levels) {
    match levels
    case Ground => false
    case Level(_, v, depth, below) => ExceedsFrom(v, depth) || AnyExceeds(below)
  }

  function LevelsSize(levels: Levels): nat {
    match levels
    case Ground => 0
    case Level(_, v, _, below) => Size(v) + LevelsSize(below)
  }

  /** The node the pointer leads to, that deep in the document. */
  ghost predicate NodeAt(document: Json, pointer: string, v: Json, depth: nat) {
    exists tokens :: |tokens| == depth && Walk(document, tokens) == Some(v) && pointer == Pointer("", tokens)
  }

  ghost predicate Located(document: Json, levels: Levels) {
    match levels
    case Ground => true
    case Level(pointer, v, depth, below) =>
      depth <= MAX_NESTING + 1 && NodeAt(document, pointer, v, depth) && Located(document, below)
  }

  ghost predicate ChildExceeds(v: Json, depth: nat, i: nat) {
    exists k :: i <= k < |Children(v)| && ExceedsFrom(Children(v)[k].1, depth + 1)
  }

  predicate DeepAt(v: Json, depth: nat, tokens: seq<string>) {
    Walk(v, tokens).Some? && depth + |tokens| > MAX_NESTING
  }

  lemma DeepBelowChild(v: Json, depth: nat, tokens: seq<string>)
    requires depth <= MAX_NESTING && DeepAt(v, depth, tokens)
    ensures ChildExceeds(v, depth, 0)
  {
    var k := SelectedIsChild(v, tokens[0]);
    assert DeepAt(Children(v)[k].1, depth + 1, tokens[1..]);
  }

  lemma DeepAboveChild(v: Json, depth: nat, k: nat, rest: seq<string>)
    requires k < |Children(v)| && DeepAt(Children(v)[k].1, depth + 1, rest)
    ensures ExceedsFrom(v, depth)
  {
    var tokens := [Children(v)[k].0] + rest;
    ChildrenAreSelected(v);
    assert tokens[1..] == rest;
    assert DeepAt(v, depth, tokens);
  }

  lemma ExceedsThroughChild(v: Json, depth: nat)
    requires depth <= MAX_NESTING
    ensures ExceedsFrom(v, depth) <==> ChildExceeds(v, depth, 0)
  {
    if ExceedsFrom(v, depth) {
      var tokens :| DeepAt(v, depth, tokens);
      DeepBelowChild(v, depth, tokens);
    }
    if ChildExceeds(v, depth, 0) {
      var k :| 0 <= k < |Children(v)| && ExceedsFrom(Children(v)[k].1, depth + 1);
      var rest :| DeepAt(Children(v)[k].1, depth + 1, rest);
      DeepAboveChild(v, depth, k, rest);
    }
  }

  lemma {:induction false} WalkFurther(v: Json, tokens: seq<string>, token: string)
    requires Walk(v, tokens).Some?
    ensures Walk(v, tokens + [token]) == Select(Walk(v, tokens).value, token)
    decreases |tokens|
  {
    var longer := tokens + [token];
    if tokens != [] {
      assert longer[1..] == tokens[1..] + [token];
      WalkFurther(Select(v, tokens[0]).value, tokens[1..], token);
    } else {
      assert longer[1..] == [];
    }
  }

  lemma {:induction false} PointerFurther(parent: string, tokens: seq<string>, token: string)
    ensures Pointer(parent, tokens + [token]) == Child(Pointer(parent, tokens), token)
    decreases |tokens|
  {
    var longer := tokens + [token];
    if tokens != [] {
      assert longer[1..] == tokens[1..] + [token];
      PointerFurther(Child(parent, tokens[0]), tokens[1..], token);
    } else {
      assert longer[1..] == [];
    }
  }

  lemma ChildAt(document: Json, pointer: string, v: Json, depth: nat, i: nat)
    requires NodeAt(document, pointer, v, depth) && i < |Children(v)|
    ensures NodeAt(document, Child(pointer, Children(v)[i].0), Children(v)[i].1, depth + 1)
  {
    var tokens :| |tokens| == depth && Walk(document, tokens) == Some(v) && pointer == Pointer("", tokens);
    var token := Children(v)[i].0;
    ChildrenAreSelected(v);
    WalkFurther(document, tokens, token);
    PointerFurther("", tokens, token);
    assert |tokens + [token]| == depth + 1;
  }

  lemma LevelPushed(document: Json, pointer: string, v: Json, depth: nat, i: nat, levels: Levels, base: Levels)
      returns (pushed: Levels)
    requires depth <= MAX_NESTING && NodeAt(document, pointer, v, depth) && Located(document, levels)
    requires i < |Children(v)|
    requires AnyExceeds(levels) <==> ChildExceeds(v, depth, i + 1) || AnyExceeds(base)
    requires LevelsSize(levels) == SizeFrom(v, i + 1) + LevelsSize(base)
    ensures pushed == Level(Child(pointer, Children(v)[i].0), Children(v)[i].1, depth + 1, levels)
    ensures Located(document, pushed)
    ensures AnyExceeds(pushed) <==> ChildExceeds(v, depth, i) || AnyExceeds(base)
    ensures LevelsSize(pushed) == SizeFrom(v, i) + LevelsSize(base)
  {
    var c := Children(v)[i];
    pushed := Level(Child(pointer, c.0), c.1, depth + 1, levels);
    ChildAt(document, pointer, v, depth, i);
    assert ChildExceeds(v, depth, i) <==> ExceedsFrom(c.1, depth + 1) || ChildExceeds(v, depth, i + 1);
  }

  method PushLevel(document: Json, pointer: string, v: Json, depth: nat, base: Levels) returns (levels: Levels)
    requires depth <= MAX_NESTING && NodeAt(document, pointer, v, depth) && Located(document, base)
    ensures Located(document, levels)
    ensures AnyExceeds(levels) <==> ExceedsFrom(v, depth) || AnyExceeds(base)
    ensures LevelsSize(levels) == SizeFrom(v, 0) + LevelsSize(base)
  {
    var children := Children(v);
    var i := |children|;
    levels := base;
    while i > 0
      invariant 0 <= i <= |children|
      invariant Located(document, levels)
      invariant AnyExceeds(levels) <==> ChildExceeds(v, depth, i) || AnyExceeds(base)
      invariant LevelsSize(levels) == SizeFrom(v, i) + LevelsSize(base)
    {
      i := i - 1;
      ghost var pushed := LevelPushed(document, pointer, v, depth, i, levels, base);
      levels := Level(Child(pointer, children[i].0), children[i].1, depth + 1, levels);
    }
    ExceedsThroughChild(v, depth);
  }

  ghost predicate Shallow(v: Json) {
    forall tokens :: Walk(v, tokens).Some? ==> |tokens| <= MAX_NESTING
  }

  lemma ShallowIff(v: Json)
    ensures Shallow(v) <==> !ExceedsFrom(v, 0)
  {
    if !Shallow(v) {
      var tokens :| Walk(v, tokens).Some? && |tokens| > MAX_NESTING;
      assert DeepAt(v, 0, tokens);
    }
  }

  /** Nothing is reported exactly when no node lies deeper than the limit; what is reported is a
      node just past it, under its own pointer. */
  method FindTooDeep(document: Json) returns (found: Option<TooDeep>)
    ensures found.None? <==> Shallow(document)
    ensures found.Some? ==> found.value.depth == MAX_NESTING + 1
    ensures found.Some? ==> exists v :: NodeAt(document, found.value.pointer, v, found.value.depth)
  {
    var root: seq<string> := [];
    assert Walk(document, root) == Some(document) && Pointer("", root) == "";
    ShallowIff(document);
    var pending := Level("", document, 0, Ground);
    while pending.Level?
      invariant Located(document, pending)
      invariant AnyExceeds(pending) <==> ExceedsFrom(document, 0)
      decreases LevelsSize(pending)
    {
      var pointer, current, depth, rest := pending.pointer, pending.value, pending.depth, pending.below;
      if depth > MAX_NESTING {
        assert DeepAt(current, depth, root);
        assert ExceedsFrom(current, depth);
        return Some(TooDeep(pointer, depth));
      }
      pending := PushLevel(document, pointer, current, depth, rest);
    }
    return None;
  }

  // ----- finalisation

  type Bytes = seq<int>

  /** Canonical JSON bytes, which some values do not have; parsing; and SHA-256 in hexadecimal. */
  datatype Codec = Codec(encode: Json -> Option<Bytes>, decode: Bytes -> Option<Json>, digest: Bytes -> string)

  /** Parsing canonical bytes gives the value back. */
  ghost predicate Faithful(codec: Codec) {
    forall v :: codec.encode(v).Some? ==> codec.decode(codec.encode(v).value) == Some(v)
  }

  /** What the design review and the postprocessor libraries decide. */
  datatype Review = Review(
    digest: string,
    requirementsMatch: Option<Json> -> bool,
    shaped: Json -> bool,
    bound: Json -> bool,
    executable: Bytes -> bool)

  datatype Finding =
    | DraftInvalidJson
    | DraftTooDeep(pointer: string)
    | DraftNotObject
    | DraftField(pointer: string)
    | DraftSchemaUnsupported
    | DraftMustBeNonDeployable
    | DesignReviewMismatch
    | RequirementsChanged
    | FactUnresolved(pointer: string)
    | PayloadNotObject
    | PartsNotObjects
    | ComputedFieldChanged
    | ProfileInvalidJson
    | ProfileTooDeep(pointer: string)
    | ProfileMisshapen
    | NonCanonical
    | PayloadMismatch
    | PostprocessorMismatch
    | BindingMismatch
    | SemanticallyInvalid

  const PAYLOAD := "payload"
  const PAYLOAD_SHA256 := "payload_sha256"
  const SCHEMA_VERSION := "schema_version"
  const MACHINE := "machine"
  const POSTPROCESSOR := "postprocessor_profile"
  const POSTPROCESSOR_SHA256 := "postprocessor_profile_sha256"
  const DRAFT_SCHEMA := "custombuild.production-machine-profile-draft.v1"
  const PROFILE_SCHEMA := "custombuild.production-machine-profile.v1"
  const DRAFT_FIELDS: set<string> := {SCHEMA_VERSION, "deployable", "design_review_sha256", "requirements", PAYLOAD}
  const COMPUTED: Json := Object(map["$computed" := Str("POSTPROCESSOR_CONFIG_SHA256")])

  type Members = map<string, Json>

  function Get(m: Members, name: string): Option<Json> {
    if name in m then Some(m[name]) else None
  }

  predicate HasParts(payload: Json) {
    && payload.Object?
    && MACHINE in payload.members && payload.members[MACHINE].Object?
    && POSTPROCESSOR in payload.members && payload.members[POSTPROCESSOR].Object?
  }

  /** The closed shape, as far as the checks after it rely on it, and whatever else it demands. */
  predicate Shaped(review: Review, v: Json) {
    v.Object? && PAYLOAD in v.members && HasParts(v.members[PAYLOAD]) && review.shaped(v)
  }

  predicate DigestMatches(codec: Codec, declared: Option<Json>, v: Json) {
    codec.encode(v).Some? && declared == Some(Str(codec.digest(codec.encode(v).value)))
  }

  predicate PayloadDigestRight(codec: Codec, v: Json)
    requires v.Object? && PAYLOAD in v.members
  {
    DigestMatches(codec, Get(v.members, PAYLOAD_SHA256), v.members[PAYLOAD])
  }

  predicate PostprocessorDigestRight(codec: Codec, v: Json)
    requires v.Object? && PAYLOAD in v.members && HasParts(v.members[PAYLOAD])
  {
    var payload := v.members[PAYLOAD].members;
    DigestMatches(codec, Get(payload[MACHINE].members, POSTPROCESSOR_SHA256), payload[POSTPROCESSOR])
  }

  /** Everything the bindings rely on is right. */
  predicate Intact(codec: Codec, v: Json, profile: Bytes)
    requires v.Object? && PAYLOAD in v.members && HasParts(v.members[PAYLOAD])
  {
    codec.encode(v) == Some(profile) && PayloadDigestRight(codec, v) && PostprocessorDigestRight(codec, v)
  }

  /** The read-only validation of profile bytes.  Nesting stops it, then the shape, then a document
      without a canonical form; then canonical form, digests and bindings are each looked at, and
      the semantics only if nothing was found. */
  method Validate(codec: Codec, review: Review, profile: Bytes) returns (findings: seq<Finding>)
    ensures ProfileInvalidJson in findings <==> codec.decode(profile).None?
    ensures codec.decode(profile).Some? ==>
              var v := codec.decode(profile).value;
              var looked := Shallow(v) && Shaped(review, v);
              var encoded := looked && codec.encode(v).Some?;
              && ((exists p :: ProfileTooDeep(p) in findings) <==> !Shallow(v))
              && (ProfileMisshapen in findings <==> Shallow(v) && !Shaped(review, v))
              && (NonCanonical in findings <==> looked && codec.encode(v) != Some(profile))
              && (PayloadMismatch in findings <==> encoded && !PayloadDigestRight(codec, v))
              && (PostprocessorMismatch in findings <==> encoded && !PostprocessorDigestRight(codec, v))
              && (BindingMismatch in findings <==> encoded && !review.bound(v))
              && (SemanticallyInvalid in findings <==>
                    looked && Intact(codec, v, profile) && review.bound(v) && !review.executable(profile))
              && (findings == [] <==>
                    looked && Intact(codec, v, profile) && review.bound(v) && review.executable(profile))
    ensures forall f :: f in findings ==>
              || f.ProfileInvalidJson? || f.ProfileTooDeep? || f.ProfileMisshapen? || f.NonCanonical?
              || f.PayloadMismatch? || f.PostprocessorMismatch? || f.BindingMismatch? || f.SemanticallyInvalid?
  {
    var decoded := codec.decode(profile);
    if decoded.None? {
      return [ProfileInvalidJson];
    }
    var v := decoded.value;
    var deep := FindTooDeep(v);
    if deep.Some? {
      return [ProfileTooDeep(deep.value.pointer)];
    }
    if !Shaped(review, v) {
      return [ProfileMisshapen];
    }
    if codec.encode(v).None? {
      return [NonCanonical];
    }
    findings := BindingFindings(codec, review, profile, v);
    if findings == [] && !review.executable(profile) {
      findings := [SemanticallyInvalid];
    }
  }

  method BindingFindings(codec: Codec, review: Review, profile: Bytes, v: Json) returns (findings: seq<Finding>)
    requires Shaped(review, v)
    ensures NonCanonical in findings <==> codec.encode(v) != Some(profile)
    ensures PayloadMismatch in findings <==> !PayloadDigestRight(codec, v)
    ensures PostprocessorMismatch in findings <==> !PostprocessorDigestRight(codec, v)
    ensures BindingMismatch in findings <==> !review.bound(v)
    ensures findings == [] <==> codec.encode(v) == Some(profile) && PayloadDigestRight(codec, v)
                                && PostprocessorDigestRight(codec, v) && review.bound(v)
    ensures forall f :: f in findings ==>
              f.NonCanonical? || f.PayloadMismatch? || f.PostprocessorMismatch? || f.BindingMismatch?
  {
    findings := [];
    if codec.encode(v) != Some(profile) {
      findings := findings + [NonCanonical];
    }
    if !PayloadDigestRight(codec, v) {
      findings := findings + [PayloadMismatch];
    }
    if !PostprocessorDigestRight(codec, v) {
      findings := findings + [PostprocessorMismatch];
    }
    if !review.bound(v) {
      findings := findings + [BindingMismatch];
    }
  }

  // ----- the finished document

  ghost predicate Settled(v: Json) {
    forall tokens :: Walk(v, tokens) != Some(UNRESOLVED)
  }

  lemma NothingListedIffSettled(pointer: string, v: Json)
    ensures Unresolved(pointer, v) == [] <==> Settled(v)
  {
    if Unresolved(pointer, v) == [] {
      forall tokens ensures Walk(v, tokens) != Some(UNRESOLVED) {
        if IsUnresolvedAt(v, tokens) {
          UnresolvedIsListed(pointer, v, tokens);
        }
      }
    } else {
      var tokens := ListedIsUnresolved(pointer, v, Unresolved(pointer, v)[0]);
    }
  }

  /** The payload with the one computed field filled in. */
  function Filled(payload: Json, digest: string): Json
    requires HasParts(payload)
  {
    var machine := payload.members[MACHINE].members[POSTPROCESSOR_SHA256 := Str(digest)];
    Object(payload.members[MACHINE := Object(machine)])
  }

  function Document(payload: Json, digest: string): Json {
    Object(map[PAYLOAD := payload, PAYLOAD_SHA256 := Str(digest), SCHEMA_VERSION := Str(PROFILE_SCHEMA)])
  }

  lemma WalkLeaf(s: string, tokens: seq<string>)
    ensures Walk(Str(s), tokens).Some? <==> tokens == []
    ensures Walk(Str(s), tokens) != Some(UNRESOLVED)
  {
  }

  /** Replacing one member changes nothing but what is under it. */
  lemma WalkMember(members: Members, name: string, v: Json, tokens: seq<string>)
    requires tokens != []
    ensures Walk(Object(members[name := v]), tokens) ==
              if tokens[0] == name then Walk(v, tokens[1..]) else Walk(Object(members), tokens)
  {
  }

  /** The new node is a string where the payload had some other node, two levels down; every other
      node is as it was. */
  lemma FilledWalk(payload: Json, digest: string, tokens: seq<string>)
    requires HasParts(payload) && Walk(Filled(payload, digest), tokens).Some?
    ensures |tokens| <= 2 || Walk(payload, tokens) == Walk(Filled(payload, digest), tokens)
    ensures Walk(Filled(payload, digest), tokens) == Some(UNRESOLVED) ==> Walk(payload, tokens) == Some(UNRESOLVED)
  {
    if tokens == [] {
      assert MACHINE in Filled(payload, digest).members;
    } else {
      var machine := payload.members[MACHINE].members;
      var filled := machine[POSTPROCESSOR_SHA256 := Str(digest)];
      var rest := tokens[1..];
      WalkMember(payload.members, MACHINE, Object(filled), tokens);
      if tokens[0] == MACHINE {
        assert Walk(payload, tokens) == Walk(Object(machine), rest);
        if rest == [] {
          assert POSTPROCESSOR_SHA256 in filled;
        } else {
          WalkMember(machine, POSTPROCESSOR_SHA256, Str(digest), rest);
          WalkLeaf(digest, rest[1..]);
        }
      }
    }
  }

  lemma DocumentMember(payload: Json, whole: string, name: string)
    requires name in Document(payload, whole).members
    ensures Document(payload, whole).members[name].Str? ||
            (name == PAYLOAD && Document(payload, whole).members[name] == payload)
  {
  }

  lemma DocumentWalk(payload: Json, digest: string, whole: string, tokens: seq<string>)
    requires HasParts(payload) && Walk(Document(Filled(payload, digest), whole), tokens).Some?
    ensures |tokens| <= 3 || Walk(payload, tokens[1..]).Some?
    ensures Walk(Document(Filled(payload, digest), whole), tokens) == Some(UNRESOLVED) ==>
              tokens != [] && Walk(payload, tokens[1..]) == Some(UNRESOLVED)
  {
    var filled := Filled(payload, digest);
    var document := Document(filled, whole);
    if tokens == [] {
      assert PAYLOAD in document.members;
    } else {
      var member := document.members[tokens[0]];
      assert Walk(document, tokens) == Walk(member, tokens[1..]);
      DocumentMember(filled, whole, tokens[0]);
      if member.Str? {
        WalkLeaf(member.s, tokens[1..]);
      } else {
        FilledWalk(payload, digest, tokens[1..]);
      }
    }
  }

  lemma DocumentKeeps(payload: Json, digest: string, whole: string)
    requires HasParts(payload) && Settled(payload)
    requires forall tokens :: Walk(payload, tokens).Some? ==> |tokens| < MAX_NESTING
    ensures Shallow(Document(Filled(payload, digest), whole))
    ensures Settled(Document(Filled(payload, digest), whole))
  {
    var document := Document(Filled(payload, digest), whole);
    forall tokens | Walk(document, tokens).Some?
      ensures |tokens| <= MAX_NESTING && Walk(document, tokens) != Some(UNRESOLVED)
    {
      DocumentWalk(payload, digest, whole, tokens);
    }
  }

  // ----- the draft

  predicate DraftGood(review: Review, draft: Members) {
    && draft.Keys == DRAFT_FIELDS
    && draft[SCHEMA_VERSION] == Str(DRAFT_SCHEMA)
    && draft["deployable"] == Bool(false)
    && draft["design_review_sha256"] == Str(review.digest)
    && review.requirementsMatch(Some(draft["requirements"]))
  }

  method FieldFindings(draft: Members) returns (findings: seq<Finding>)
    ensures findings == [] <==> draft.Keys == DRAFT_FIELDS
    ensures forall f :: f in findings ==> f.DraftField?
  {
    findings := [];
    var missing, unknown := InOrder(DRAFT_FIELDS - draft.Keys), InOrder(draft.Keys - DRAFT_FIELDS);
    for i := 0 to |missing|
      invariant |findings| == i && forall f :: f in findings ==> f.DraftField?
    {
      findings := findings + [DraftField(Child("", missing[i]))];
    }
    for i := 0 to |unknown|
      invariant |findings| == |missing| + i && forall f :: f in findings ==> f.DraftField?
    {
      findings := findings + [DraftField(Child("", unknown[i]))];
    }
    OrderEmpty(DRAFT_FIELDS - draft.Keys);
    OrderEmpty(draft.Keys - DRAFT_FIELDS);
  }

  method DraftFindings(review: Review, draft: Members) returns (findings: seq<Finding>)
    ensures findings == [] <==> DraftGood(review, draft)
    ensures forall f :: f in findings ==>
              || f.DraftField? || f.DraftSchemaUnsupported? || f.DraftMustBeNonDeployable?
              || f.DesignReviewMismatch? || f.RequirementsChanged?
  {
    findings := FieldFindings(draft);
    if Get(draft, SCHEMA_VERSION) != Some(Str(DRAFT_SCHEMA)) {
      findings := findings + [DraftSchemaUnsupported];
    }
    if Get(draft, "deployable") != Some(Bool(false)) {
      findings := findings + [DraftMustBeNonDeployable];
    }
    if Get(draft, "design_review_sha256") != Some(Str(review.digest)) {
      findings := findings + [DesignReviewMismatch];
    }
    if !review.requirementsMatch(Get(draft, "requirements")) {
      findings := findings + [RequirementsChanged];
    }
  }

  lemma OrderEmpty(names: set<string>)
    ensures InOrder(names) == [] <==> names == {}
  {
  }

  method UnresolvedFindings(payload: Json) returns (findings: seq<Finding>)
    ensures findings == [] <==> Settled(payload)
    ensures |findings| == |Unresolved(Child("", PAYLOAD), payload)|
    ensures forall i :: 0 <= i < |findings| ==> findings[i] == FactUnresolved(Unresolved(Child("", PAYLOAD), payload)[i])
  {
    var found := FindUnresolved(Child("", PAYLOAD), payload);
    NothingListedIffSettled(Child("", PAYLOAD), payload);
    findings := seq(|found|, i requires 0 <= i < |found| => FactUnresolved(found[i]));
  }

  datatype Outcome = Refused(findings: seq<Finding>) | Raised | Finalised(profile: Bytes)

  /** A draft that can be finalised, up to what the design review decides. */
  ghost predicate Finishable(review: Review, draft: Json) {
    && draft.Object? && Shallow(draft) && DraftGood(review, draft.members)
    && Settled(draft.members[PAYLOAD]) && HasParts(draft.members[PAYLOAD])
    && Get(draft.members[PAYLOAD].members[MACHINE].members, POSTPROCESSOR_SHA256) == Some(COMPUTED)
  }

  /** The bytes are the canonical encoding of the draft's payload with its one computed field
      filled in, under the right digests. */
  ghost predicate Completes(codec: Codec, draft: Json, profile: Bytes)
    requires draft.Object? && PAYLOAD in draft.members && HasParts(draft.members[PAYLOAD])
  {
    var payload := draft.members[PAYLOAD];
    && codec.encode(payload.members[POSTPROCESSOR]).Some?
    && var filled := Filled(payload, codec.digest(codec.encode(payload.members[POSTPROCESSOR]).value));
    && codec.encode(filled).Some?
    && codec.encode(Document(filled, codec.digest(codec.encode(filled).value))) == Some(profile)
  }

  predicate IsReviewFinding(f: Finding) {
    f.ProfileMisshapen? || f.BindingMismatch? || f.SemanticallyInvalid?
  }

  /** Fill in the digests and encode; `None` where encoding raises. */
  method Complete(codec: Codec, draft: Json) returns (profile: Option<Bytes>)
    requires draft.Object? && PAYLOAD in draft.members && HasParts(draft.members[PAYLOAD])
    ensures profile.Some? <==> exists bytes :: Completes(codec, draft, bytes)
    ensures profile.Some? ==> Completes(codec, draft, profile.value)
  {
    var payload := draft.members[PAYLOAD];
    var postprocessor := codec.encode(payload.members[POSTPROCESSOR]);
    if postprocessor.None? {
      return None;
    }
    var machine := payload.members[MACHINE].members;
    machine := machine[POSTPROCESSOR_SHA256 := Str(codec.digest(postprocessor.value))];
    payload := Object(payload.members[MACHINE := Object(machine)]);
    var encoded := codec.encode(payload);
    if encoded.None? {
      return None;
    }
    profile := codec.encode(Document(payload, codec.digest(encoded.value)));
    assert profile.Some? ==> Completes(codec, draft, profile.value);
  }

  /** Canonical bytes of a shallow document without unresolved facts, under the right digests. */
  ghost predicate RightBytes(codec: Codec, profile: Bytes) {
    && codec.decode(profile).Some?
    && var v := codec.decode(profile).value;
       && codec.encode(v) == Some(profile)
       && Shallow(v) && Settled(v)
       && v.Object? && PAYLOAD in v.members && HasParts(v.members[PAYLOAD])
       && PayloadDigestRight(codec, v) && PostprocessorDigestRight(codec, v)
  }

  lemma CompletedIsRight(codec: Codec, draft: Json, profile: Bytes)
    requires Faithful(codec) && draft.Object? && Shallow(draft) && PAYLOAD in draft.members
    requires HasParts(draft.members[PAYLOAD]) && Settled(draft.members[PAYLOAD])
    requires Completes(codec, draft, profile)
    ensures RightBytes(codec, profile)
  {
    var payload := draft.members[PAYLOAD];
    var digest := codec.digest(codec.encode(payload.members[POSTPROCESSOR]).value);
    var filled := Filled(payload, digest);
    var whole := codec.digest(codec.encode(filled).value);
    forall tokens | Walk(payload, tokens).Some?
      ensures |tokens| < MAX_NESTING
    {
      var longer := [PAYLOAD] + tokens;
      assert longer[1..] == tokens;
      assert Walk(draft, longer).Some?;
    }
    DocumentKeeps(payload, digest, whole);
    assert codec.decode(profile) == Some(Document(filled, whole));
  }

  /** What the design review decides about finished bytes. */
  predicate Approved(codec: Codec, review: Review, profile: Bytes) {
    && codec.decode(profile).Some?
    && var v := codec.decode(profile).value;
       Shaped(review, v) && review.bound(v) && review.executable(profile)
  }

  /** Such bytes pass exactly when the design review approves, and are refused for nothing else. */
  method ValidateRight(codec: Codec, review: Review, profile: Bytes) returns (findings: seq<Finding>)
    requires RightBytes(codec, profile)
    ensures findings == [] <==> Approved(codec, review, profile)
    ensures forall f :: f in findings ==> IsReviewFinding(f)
  {
    findings := Validate(codec, review, profile);
  }

  /** The checks on the draft itself. */
  method CheckDraft(review: Review, raw: Json) returns (findings: seq<Finding>)
    ensures findings == [] <==> Finishable(review, raw)
  {
    var deep := FindTooDeep(raw);
    if deep.Some? {
      return [DraftTooDeep(deep.value.pointer)];
    }
    if !raw.Object? {
      return [DraftNotObject];
    }
    findings := DraftFindings(review, raw.members);
    var payload := Get(raw.members, PAYLOAD);
    if payload.Some? {
      var unresolved := UnresolvedFindings(payload.value);
      findings := findings + unresolved;
    }
    if payload.None? || !payload.value.Object? {
      findings := findings + [PayloadNotObject];
    }
    if findings != [] {
      return;
    }
    findings := CheckParts(payload.value);
  }

  method CheckParts(payload: Json) returns (findings: seq<Finding>)
    ensures findings == [] <==>
              HasParts(payload) && Get(payload.members[MACHINE].members, POSTPROCESSOR_SHA256) == Some(COMPUTED)
  {
    if !HasParts(payload) {
      return [PartsNotObjects];
    }
    if Get(payload.members[MACHINE].members, POSTPROCESSOR_SHA256) != Some(COMPUTED) {
      return [ComputedFieldChanged];
    }
    return [];
  }

  ghost predicate Encodable(codec: Codec, draft: Json)
    requires draft.Object? && PAYLOAD in draft.members && HasParts(draft.members[PAYLOAD])
  {
    exists bytes :: Completes(codec, draft, bytes)
  }

  /** The draft's one completion is approved. */
  ghost predicate CompletionApproved(codec: Codec, review: Review, draft: Json)
    requires draft.Object? && PAYLOAD in draft.members && HasParts(draft.members[PAYLOAD])
  {
    exists bytes :: Completes(codec, draft, bytes) && Approved(codec, review, bytes)
  }

  /** Finalising a draft.  It succeeds exactly when the draft can be finalised and the design review
      approves its completion; what comes out is that completion, the canonical encoding of a
      document with no unresolved fact and right digests.  It raises exactly when there is nothing to
      encode, and a draft that passes its own checks is refused only for what the design review
      decides, never for nesting, encoding or a digest. */
  method Finalise(codec: Codec, review: Review, draft: Bytes) returns (r: Outcome)
    requires Faithful(codec)
    ensures r.Finalised? <==>
              && codec.decode(draft).Some? && Finishable(review, codec.decode(draft).value)
              && CompletionApproved(codec, review, codec.decode(draft).value)
    ensures r.Raised? <==>
              && codec.decode(draft).Some? && Finishable(review, codec.decode(draft).value)
              && !Encodable(codec, codec.decode(draft).value)
    ensures r.Finalised? ==>
              && Completes(codec, codec.decode(draft).value, r.profile) && Approved(codec, review, r.profile)
              && RightBytes(codec, r.profile)
    ensures codec.decode(draft).Some? && Finishable(review, codec.decode(draft).value) && r.Refused? ==>
              r.findings != [] && forall f :: f in r.findings ==> IsReviewFinding(f)
    ensures !(codec.decode(draft).Some? && Finishable(review, codec.decode(draft).value)) ==>
              r.Refused? && r.findings != []
  {
    var decoded := codec.decode(draft);
    if decoded.None? {
      return Refused([DraftInvalidJson]);
    }
    var findings := CheckDraft(review, decoded.value);
    if findings != [] {
      return Refused(findings);
    }
    var profile := Complete(codec, decoded.value);
    if profile.None? {
      return Raised;
    }
    CompletedIsRight(codec, decoded.value, profile.value);
    findings := ValidateRight(codec, review, profile.value);
    if findings != [] {
      return Refused(findings);
    }
    return Finalised(profile.value);
  }
}
