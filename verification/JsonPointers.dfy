/** JSON values, and the pointers to their nodes that scripts/production_machine_profile.py builds
    according to sections 3 and 4 of RFC 6901. */
module JsonPointers {

  import opened Wrappers

  /** What the parser admits: no fractions, no repeated names. */
  datatype Json =
    | Null
    | Bool(b: bool)
    | Int(n: int)
    | Str(s: string)
    | Array(items: seq<Json>)
    | Object(members: map<string, Json>)

  // ----- decimal indices

  function Digit(n: nat): char
    requires n < 10
  {
    '0' + n as char
  }

  function Decimal(n: nat): string {
    if n < 10 then [Digit(n)] else Decimal(n / 10) + [Digit(n % 10)]
  }

  lemma {:induction false} DecimalInjective(m: nat, n: nat)
    requires Decimal(m) == Decimal(n)
    ensures m == n
  {
    var a, b := Decimal(m), Decimal(n);
    assert a[|a| - 1] == Digit(m % 10) && b[|b| - 1] == Digit(n % 10);
    assert m % 10 == n % 10;
    if m < 10 || n < 10 {
      DecimalLength(m);
      DecimalLength(n);
    } else {
      assert a[..|a| - 1] == Decimal(m / 10) && b[..|b| - 1] == Decimal(n / 10);
      DecimalInjective(m / 10, n / 10);
    }
  }

  lemma {:induction false} DecimalLength(n: nat)
    ensures |Decimal(n)| >= 1
    ensures |Decimal(n)| == 1 <==> n < 10
  {
    if n >= 10 {
      DecimalLength(n / 10);
    }
  }

  /** The number that decimal digits say. */
  function Number(digits: string): int {
    if digits == "" then 0 else 10 * Number(digits[..|digits| - 1]) + (digits[|digits| - 1] as int - '0' as int)
  }

  predicate AllDigits(s: string) {
    forall k :: 0 <= k < |s| ==> '0' <= s[k] <= '9'
  }

  /** An index is written in decimal digits without leading zeros. */
  lemma {:induction false} DecimalReads(n: nat)
    ensures Decimal(n) != "" && AllDigits(Decimal(n)) && Number(Decimal(n)) == n
    ensures Decimal(n)[0] == '0' <==> n == 0
  {
    if n < 10 {
      assert Decimal(n)[..0] == "";
    } else {
      DecimalReads(n / 10);
      assert Decimal(n)[..|Decimal(n)| - 1] == Decimal(n / 10);
    }
  }

  // ----- escaping

  /** `str.replace` of one character. */
  function Replace(s: string, c: char, code: string): string {
    if s == "" then "" else (if s[0] == c then code else [s[0]]) + Replace(s[1..], c, code)
  }

  function Escape(token: string): string {
    Replace(Replace(token, '~', "~0"), '/', "~1")
  }

  /** Replacing a two-character escape by what it stands for. */
  function Restore(s: string, c: char, original: char): string {
    if s == "" then ""
    else if |s| >= 2 && s[0] == '~' && s[1] == c then [original] + Restore(s[2..], c, original)
    else [s[0]] + Restore(s[1..], c, original)
  }

  /** Section 4: first `~1` becomes `/`, then `~0` becomes `~`. */
  function Unescape(token: string): string {
    Restore(Restore(token, '1', '/'), '0', '~')
  }

  /** After escaping tildes, every tilde is followed by a zero. */
  predicate TildesEscaped(s: string) {
    forall i :: 0 <= i < |s| && s[i] == '~' ==> i + 1 < |s| && s[i + 1] == '0'
  }

  lemma {:induction false} TildesFirst(s: string)
    ensures TildesEscaped(Replace(s, '~', "~0"))
    ensures Restore(Replace(s, '~', "~0"), '0', '~') == s
  {
    if s != "" {
      var rest := Replace(s[1..], '~', "~0");
      TildesFirst(s[1..]);
      if s[0] == '~' {
        assert Replace(s, '~', "~0") == "~0" + rest;
        assert ("~0" + rest)[2..] == rest;
      } else {
        assert Replace(s, '~', "~0") == [s[0]] + rest;
        assert ([s[0]] + rest)[1..] == rest;
      }
    }
  }

  lemma {:induction false} SlashesSecond(s: string)
    requires TildesEscaped(s)
    ensures Restore(Replace(s, '/', "~1"), '1', '/') == s
  {
    if s != "" {
      var rest := Replace(s[1..], '/', "~1");
      assert TildesEscaped(s[1..]);
      SlashesSecond(s[1..]);
      if s[0] == '/' {
        assert Replace(s, '/', "~1") == "~1" + rest;
        assert ("~1" + rest)[2..] == rest;
      } else {
        assert Replace(s, '/', "~1") == [s[0]] + rest;
        assert ([s[0]] + rest)[1..] == rest;
        if s[0] == '~' {
          assert s[1] == '0';
          assert rest[0] == '0';
        }
      }
    }
  }

  /** Escaping loses nothing. */
  lemma EscapeReversible(token: string)
    ensures Unescape(Escape(token)) == token
  {
    TildesFirst(token);
    SlashesSecond(Replace(token, '~', "~0"));
  }

  function EscapedChar(c: char): string {
    if c == '~' then "~0" else if c == '/' then "~1" else [c]
  }

  lemma {:induction false} ReplaceConcat(s: string, t: string, c: char, code: string)
    ensures Replace(s + t, c, code) == Replace(s, c, code) + Replace(t, c, code)
  {
    if s == "" {
      assert s + t == t;
    } else {
      assert (s + t)[1..] == s[1..] + t;
      ReplaceConcat(s[1..], t, c, code);
    }
  }

  /** Escaping goes character by character: `~` becomes `~0`, `/` becomes `~1`. */
  lemma EscapeByChar(c: char, token: string)
    ensures Escape("") == ""
    ensures Escape([c] + token) == EscapedChar(c) + Escape(token)
  {
    assert ([c] + token)[0] == c && ([c] + token)[1..] == token;
    var first, rest := if c == '~' then "~0" else [c], Replace(token, '~', "~0");
    assert Replace([c] + token, '~', "~0") == first + rest;
    ReplaceConcat(first, rest, '/', "~1");
    assert Replace("", '/', "~1") == "";
    assert first[1..] == if c == '~' then "0" else "";
    assert "0"[1..] == "";
    assert Replace("0", '/', "~1") == "0";
  }

  lemma {:induction false} NoSlashLeft(s: string)
    ensures '/' !in Replace(s, '/', "~1")
  {
    if s != "" {
      NoSlashLeft(s[1..]);
    }
  }

  // ----- pointers

  /** One more reference token. */
  function Child(parent: string, token: string): string {
    parent + "/" + Escape(token)
  }

  function Pointer(parent: string, tokens: seq<string>): string
    decreases |tokens|
  {
    if tokens == [] then parent else Pointer(Child(parent, tokens[0]), tokens[1..])
  }

  function FirstSlash(s: string): (n: nat)
    ensures n <= |s|
    ensures '/' !in s[..n]
    ensures n < |s| ==> s[n] == '/'
  {
    if s == "" || s[0] == '/' then 0 else 1 + FirstSlash(s[1..])
  }

  /** Section 3: the tokens of a pointer; `None` when it does not start with a slash. */
  function Parse(pointer: string): Option<seq<string>>
    decreases |pointer|
  {
    if pointer == "" then Some([])
    else if pointer[0] != '/' then None
    else
      var rest := pointer[1..];
      var n := FirstSlash(rest);
      match Parse(rest[n..])
      case None => None
      case Some(tokens) => Some([Unescape(rest[..n])] + tokens)
  }

  lemma {:induction false} PointerPrefix(parent: string, tokens: seq<string>)
    ensures Pointer(parent, tokens) == parent + Pointer("", tokens)
    decreases |tokens|
  {
    if tokens != [] {
      PointerPrefix(Child(parent, tokens[0]), tokens[1..]);
      PointerPrefix(Child("", tokens[0]), tokens[1..]);
      assert Child(parent, tokens[0]) == parent + Child("", tokens[0]);
    }
  }

  lemma PointerCons(tokens: seq<string>)
    requires tokens != []
    ensures Pointer("", tokens) == "/" + Escape(tokens[0]) + Pointer("", tokens[1..])
  {
    var first := Child("", tokens[0]);
    assert first == "/" + Escape(tokens[0]);
    PointerPrefix(first, tokens[1..]);
  }

  /** Parsing a built pointer gives its tokens back. */
  lemma {:induction false} PointerReversible(tokens: seq<string>)
    ensures Parse(Pointer("", tokens)) == Some(tokens)
    decreases |tokens|
  {
    if tokens != [] {
      var token, rest := tokens[0], tokens[1..];
      PointerReversible(rest);
      PointerCons(tokens);
      TailStartsWithSlash(rest);
      NoSlashLeft(Replace(token, '~', "~0"));
      ParseOne(Escape(token), Pointer("", rest));
      EscapeReversible(token);
      assert tokens == [token] + rest;
    }
  }

  lemma ParseOne(escaped: string, tail: string)
    requires '/' !in escaped && (tail == "" || tail[0] == '/') && Parse(tail).Some?
    ensures Parse("/" + escaped + tail) == Some([Unescape(escaped)] + Parse(tail).value)
  {
    FirstSlashAt(escaped, tail);
    ParseCut("/" + escaped + tail, escaped + tail, |escaped|);
    assert (escaped + tail)[..|escaped|] == escaped && (escaped + tail)[|escaped|..] == tail;
  }

  lemma ParseCut(pointer: string, rest: string, n: nat)
    requires pointer != "" && pointer[0] == '/' && pointer[1..] == rest
    requires n == FirstSlash(rest) && Parse(rest[n..]).Some?
    ensures Parse(pointer) == Some([Unescape(rest[..n])] + Parse(rest[n..]).value)
  {
  }

  lemma TailStartsWithSlash(tokens: seq<string>)
    ensures Pointer("", tokens) == "" || Pointer("", tokens)[0] == '/'
  {
    if tokens != [] {
      PointerCons(tokens);
    }
  }

  lemma {:induction false} FirstSlashAt(front: string, tail: string)
    requires '/' !in front && (tail == "" || tail[0] == '/')
    ensures FirstSlash(front + tail) == |front|
  {
    if front == "" {
      assert front + tail == tail;
    } else {
      assert (front + tail)[1..] == front[1..] + tail;
      FirstSlashAt(front[1..], tail);
    }
  }

  lemma PointersDiffer(parent: string, a: seq<string>, b: seq<string>)
    ensures Pointer(parent, a) == Pointer(parent, b) <==> a == b
  {
    if Pointer(parent, a) == Pointer(parent, b) {
      PointerPrefix(parent, a);
      PointerPrefix(parent, b);
      assert Pointer("", a) == (parent + Pointer("", a))[|parent|..];
      assert Pointer("", b) == (parent + Pointer("", b))[|parent|..];
      PointerReversible(a);
      PointerReversible(b);
    }
  }

  // ----- evaluation

  /** Section 4: the child a token selects, a member by its name or an element by its index. */
  function Select(v: Json, token: string): Option<Json> {
    match v
    case Object(members) => if token in members then Some(members[token]) else None
    case Array(items) => SelectIndex(items, token, 0)
    case _ => None
  }

  function SelectIndex(items: seq<Json>, token: string, i: nat): Option<Json>
    requires i <= |items|
    decreases |items| - i
  {
    if i == |items| then None
    else if Decimal(i) == token then Some(items[i])
    else SelectIndex(items, token, i + 1)
  }

  function Walk(v: Json, tokens: seq<string>): Option<Json>
    decreases |tokens|
  {
    if tokens == [] then Some(v)
    else
      match Select(v, tokens[0])
      case None => None
      case Some(child) => Walk(child, tokens[1..])
  }

  function Resolve(v: Json, pointer: string): Option<Json> {
    match Parse(pointer)
    case None => None
    case Some(tokens) => Walk(v, tokens)
  }

  lemma {:induction false} SelectIndexFinds(items: seq<Json>, i: nat, k: nat)
    requires i <= k < |items|
    ensures SelectIndex(items, Decimal(k), i) == Some(items[k])
    decreases |items| - i
  {
    if i < k {
      if Decimal(i) == Decimal(k) {
        DecimalInjective(i, k);
      }
      SelectIndexFinds(items, i + 1, k);
    }
  }

  lemma {:induction false} SelectIndexOnly(items: seq<Json>, token: string, i: nat)
    requires i <= |items|
    ensures SelectIndex(items, token, i).Some? ==>
              exists k :: i <= k < |items| && token == Decimal(k) && SelectIndex(items, token, i) == Some(items[k])
    decreases |items| - i
  {
    if i < |items| && Decimal(i) != token {
      SelectIndexOnly(items, token, i + 1);
    }
  }

  /** A built pointer resolves to the node its tokens lead to. */
  lemma PointerResolves(v: Json, tokens: seq<string>)
    ensures Resolve(v, Pointer("", tokens)) == Walk(v, tokens)
  {
    PointerReversible(tokens);
  }
}
