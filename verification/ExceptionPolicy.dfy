/** The scanner's ignore policy and the exception ledger it is reconciled against
    (scripts/release_readiness.py).  Regular expressions, JSON text and date text stay outside:
    a line arrives as the pattern it matches, the ledger as a value, dates through a parser. */
module ExceptionPolicy {

  import opened PythonText
  import opened Wrappers

  // ----- text

  lemma ValueOneLine(raw: string)
    requires OneLine(raw)
    ensures OneLine(PolicyValue(raw))
  {
    StripOneLine(raw);
  }

  /** One pair of matching quotes is dropped. */
  function PolicyValue(raw: string): string {
    var value := Strip(raw);
    if |value| >= 2 && value[0] == value[|value| - 1] && (value[0] == '\'' || value[0] == '"')
    then value[1..|value| - 1]
    else value
  }

  function Quoted(value: string): string {
    ['"'] + value + ['"']
  }

  lemma QuotedIsValue(value: string)
    ensures PolicyValue(Quoted(value)) == value
  {
    var q := Quoted(value);
    assert q[0] == '"' && q[|q| - 1] == '"' && Strip(q) == q;
    assert q[1..|q| - 1] == value;
  }

  // ----- the policy

  datatype Field = VULNERABILITY | PACKAGE_MARKER | PACKAGE | VERSION | TYPE

  const BLOCK: seq<Field> := [VULNERABILITY, PACKAGE_MARKER, PACKAGE, VERSION, TYPE]

  /** A line that is neither blank nor a comment, by the pattern it matches. */
  datatype Line =
    | Header                       // ignore:
    | EmptyList                    // ignore: []
    | Marker                       // package:
    | Entry(field: Field, raw: string)
    | Unknown

  datatype Numbered = Numbered(number: nat, line: Line)

  datatype Key = Key(vulnerability: string, package: string, version: string, packageType: string) {
    function Get(field: Field): string {
      match field
      case VULNERABILITY => vulnerability
      case PACKAGE => package
      case VERSION => version
      case TYPE => packageType
      case PACKAGE_MARKER => ""
    }
  }

  datatype Issue =
    | PolicyMissing
    | LedgerMissing
    | LedgerInvalid
    | LedgerNotObject
    | NotIgnoreList
    | IncompleteBlock(number: nat)
    | Inexact(number: nat, field: Field)
    | EmptyField(number: nat, field: Field)
    | PolicyDuplicate(key: Key)
    | WrongSchema
    | NoExceptions
    | NotAnObject
    | KeyFieldMissing(index: nat, name: string)
    | LedgerDuplicate(key: Key)
    | FieldMissing(key: Key, name: string)
    | BadSeverity(key: Key)
    | NotHttps(key: Key)
    | BadDate(key: Key)
    | Expired(key: Key)
    | NoRecord(key: Key)
    | NotInPolicy(key: Key)

  /** The line is the one the field asks for, and gives it this key's value. */
  predicate Says(line: Line, field: Field, key: Key) {
    if field.PACKAGE_MARKER? then line.Marker?
    else
      && line.Entry? && line.field == field
      && PolicyValue(line.raw) == key.Get(field) != ""
  }

  predicate BlockSays(lines: seq<Numbered>, start: nat, key: Key) {
    && start + 5 <= |lines|
    && forall p :: 0 <= p < 5 ==> Says(lines[start + p].line, BLOCK[p], key)
  }

  predicate Distinct(keys: seq<Key>) {
    forall i, j :: 0 <= i < j < |keys| ==> keys[i] != keys[j]
  }

  predicate BlocksSay(lines: seq<Numbered>, keys: seq<Key>) {
    forall k :: 0 <= k < |keys| ==> BlockSays(lines, 1 + 5 * k, keys[k])
  }

  /** The significant lines are exactly an empty list, or the header and one block per key. */
  predicate Exact(lines: seq<Numbered>, keys: seq<Key>) {
    || (|lines| == 1 && lines[0].line.EmptyList? && keys == [])
    || (|lines| == 1 + 5 * |keys| && lines[0].line.Header? && BlocksSay(lines, keys) && Distinct(keys))
  }

  ghost predicate NoneSay(line: Line, field: Field) {
    forall key :: !Says(line, field, key)
  }

  ghost predicate NoBlock(lines: seq<Numbered>, start: nat) {
    forall key :: !BlockSays(lines, start, key)
  }

  /** Nothing can be read off these lines. */
  ghost predicate NoKeys(lines: seq<Numbered>) {
    forall keys :: !Exact(lines, keys)
  }

  /** The line has the field's shape. */
  predicate Shaped(line: Line, field: Field) {
    if field.PACKAGE_MARKER? then line.Marker? else line.Entry? && line.field == field
  }

  /** It also has a value, where the field needs one. */
  predicate Readable(line: Line, field: Field) {
    Shaped(line, field) && (line.Entry? ==> PolicyValue(line.raw) != "")
  }

  /** The issue is about the first unreadable line of the block, which is its `p`th. */
  predicate Blames(lines: seq<Numbered>, start: nat, p: nat, issue: Issue)
    requires start + 5 <= |lines| && p < 5
  {
    var wrong := lines[start + p];
    && (forall q :: 0 <= q < p ==> Readable(lines[start + q].line, BLOCK[q]))
    && !Readable(wrong.line, BLOCK[p])
    && issue == if Shaped(wrong.line, BLOCK[p]) then EmptyField(wrong.number, BLOCK[p]) else Inexact(wrong.number, BLOCK[p])
  }

  /** One block of five lines: its key, or the first thing wrong with it. */
  method ParseBlock(lines: seq<Numbered>, start: nat) returns (key: Option<Key>, issue: Option<Issue>)
    requires start + 5 <= |lines|
    ensures key.Some? <==> issue.None?
    ensures key.Some? ==> BlockSays(lines, start, key.value)
    ensures key.None? ==> NoBlock(lines, start)
    ensures key.None? ==> exists p :: 0 <= p < 5 && Blames(lines, start, p, issue.value)
  {
    var values: map<Field, string> := map[];
    for p := 0 to 5
      invariant forall q :: 0 <= q < p && !BLOCK[q].PACKAGE_MARKER? ==> BLOCK[q] in values
      invariant forall q :: 0 <= q < p ==>
        if BLOCK[q].PACKAGE_MARKER? then lines[start + q].line.Marker?
        else
          && lines[start + q].line.Entry? && lines[start + q].line.field == BLOCK[q]
          && PolicyValue(lines[start + q].line.raw) == values[BLOCK[q]] != ""
    {
      var field, numbered := BLOCK[p], lines[start + p];
      if field.PACKAGE_MARKER? {
        if !numbered.line.Marker? {
          Refuted(lines, start, p);
          assert Blames(lines, start, p, Inexact(numbered.number, field));
          return None, Some(Inexact(numbered.number, field));
        }
      } else if !(numbered.line.Entry? && numbered.line.field == field) {
        Refuted(lines, start, p);
        assert Blames(lines, start, p, Inexact(numbered.number, field));
        return None, Some(Inexact(numbered.number, field));
      } else {
        var value := PolicyValue(numbered.line.raw);
        if value == "" {
          Refuted(lines, start, p);
          assert Blames(lines, start, p, EmptyField(numbered.number, field));
          return None, Some(EmptyField(numbered.number, field));
        }
        values := values[field := value];
      }
    }
    assert BLOCK[0] == VULNERABILITY && BLOCK[2] == PACKAGE && BLOCK[3] == VERSION && BLOCK[4] == TYPE;
    var found := Key(values[VULNERABILITY], values[PACKAGE], values[VERSION], values[TYPE]);
    return Some(found), None;
  }

  lemma Refuted(lines: seq<Numbered>, start: nat, p: nat)
    requires start + 5 <= |lines| && p < 5
    requires NoneSay(lines[start + p].line, BLOCK[p])
    ensures NoBlock(lines, start)
  {
  }

  /** The index-driven parser: keys of the leading well-formed blocks, and what stopped it. */
  method ParsePolicy(lines: seq<Numbered>) returns (keys: seq<Key>, issues: seq<Issue>)
    ensures issues == [] <==> Exact(lines, keys)
    ensures issues != [] ==> NoKeys(lines)
    ensures BlocksSay(lines, keys)
  {
    if |lines| == 1 && lines[0].line.EmptyList? {
      return [], [];
    }
    if lines == [] || !lines[0].line.Header? {
      return [], [NotIgnoreList];
    }
    keys, issues := [], [];
    var index := 1;
    while index < |lines|
      invariant index == 1 + 5 * |keys| <= |lines|
      invariant BlocksSay(lines, keys) && issues == []
      decreases |lines| - index
    {
      if index + 5 > |lines| {
        issues := [IncompleteBlock(lines[index].number)];
        break;
      }
      var key, issue := ParseBlock(lines, index);
      if key.None? {
        issues := [issue.value];
        StoppedAt(lines, keys, index);
        break;
      }
      keys := keys + [key.value];
      index := index + 5;
    }
    assert if issues == [] then index == |lines| else NoKeys(lines);
    var duplicated := set i, j | 0 <= i < j < |keys| && keys[i] == keys[j] :: keys[i];
    if !Distinct(keys) {
      var i, j :| 0 <= i < j < |keys| && keys[i] == keys[j];
      assert keys[i] in duplicated;
      RepeatedKeys(lines, keys);
    }
    while duplicated != {}
      invariant Distinct(keys) ==> duplicated == {}
      invariant issues == [] && duplicated == {} ==> Distinct(keys) && index == |lines|
      invariant issues != [] ==> NoKeys(lines)
      invariant issues == [] && !Distinct(keys) ==> NoKeys(lines)
      decreases duplicated
    {
      var key :| key in duplicated;
      issues := issues + [PolicyDuplicate(key)];
      duplicated := duplicated - {key};
    }
  }

  /** Where a block says nothing, no list of keys is exact. */
  lemma StoppedAt(lines: seq<Numbered>, keys: seq<Key>, index: nat)
    requires index == 1 + 5 * |keys| < |lines|
    ensures NoBlock(lines, index) ==> NoKeys(lines)
  {
    forall other | Exact(lines, other)
      ensures !NoBlock(lines, index)
    {
      assert BlockSays(lines, 1 + 5 * |keys|, other[|keys|]);
    }
  }

  lemma RepeatedKeys(lines: seq<Numbered>, keys: seq<Key>)
    requires !Distinct(keys) && BlocksSay(lines, keys)
    ensures |lines| == 1 + 5 * |keys| ==> NoKeys(lines)
  {
    forall other | |lines| == 1 + 5 * |keys|
      ensures !Exact(lines, other)
    {
      if Exact(lines, other) {
        SameKeys(lines, other, keys);
        assert false;
      }
    }
  }

  lemma SameKey(lines: seq<Numbered>, start: nat, a: Key, b: Key)
    requires BlockSays(lines, start, a) && BlockSays(lines, start, b)
    ensures a == b
  {
    assert Says(lines[start + 0].line, BLOCK[0], a) && Says(lines[start + 0].line, BLOCK[0], b);
    assert Says(lines[start + 2].line, BLOCK[2], a) && Says(lines[start + 2].line, BLOCK[2], b);
    assert Says(lines[start + 3].line, BLOCK[3], a) && Says(lines[start + 3].line, BLOCK[3], b);
    assert Says(lines[start + 4].line, BLOCK[4], a) && Says(lines[start + 4].line, BLOCK[4], b);
  }

  lemma SameKeys(lines: seq<Numbered>, a: seq<Key>, b: seq<Key>)
    requires |a| == |b| && BlocksSay(lines, a) && BlocksSay(lines, b)
    ensures a == b
  {
    forall k | 0 <= k < |a|
      ensures a[k] == b[k]
    {
      SameKey(lines, 1 + 5 * k, a[k], b[k]);
    }
  }

  /** A policy file says at most one list of keys. */
  lemma PolicyUnambiguous(lines: seq<Numbered>, a: seq<Key>, b: seq<Key>)
    requires Exact(lines, a) && Exact(lines, b)
    ensures a == b
  {
    if lines[0].line.Header? {
      SameKeys(lines, a, b);
    }
  }

  // ----- printing

  function PrintLine(field: Field, key: Key): Line {
    if field.PACKAGE_MARKER? then Marker else Entry(field, Quoted(key.Get(field)))
  }

  function PrintPolicy(keys: seq<Key>): seq<Numbered> {
    if keys == [] then [Numbered(1, EmptyList)]
    else
      seq(1 + 5 * |keys|, i requires 0 <= i < 1 + 5 * |keys| =>
        Numbered(i + 1,
                 if i == 0 then Header else PrintLine(BLOCK[(i - 1) % 5], keys[(i - 1) / 5])))
  }

  predicate Nonempty(key: Key) {
    key.vulnerability != "" && key.package != "" && key.version != "" && key.packageType != ""
  }

  predicate OneLineKey(key: Key) {
    OneLine(key.vulnerability) && OneLine(key.package) && OneLine(key.version) && OneLine(key.packageType)
  }

  /** These can be the lines of a text. */
  predicate Textual(lines: seq<Numbered>) {
    forall i :: 0 <= i < |lines| && lines[i].line.Entry? ==> OneLine(lines[i].line.raw)
  }

  predicate Writable(keys: seq<Key>) {
    Distinct(keys) && forall k :: k in keys ==> Nonempty(k) && OneLineKey(k)
  }

  /** A list of keys can be written as a policy exactly when it is duplicate-free and every field is
      one line and not empty; the printed policy then says these keys. */
  lemma PrintedPolicyIsExact(keys: seq<Key>)
    ensures Textual(PrintPolicy(keys)) && Exact(PrintPolicy(keys), keys) <==> Writable(keys)
    ensures (exists lines :: Textual(lines) && Exact(lines, keys)) <==> Writable(keys)
  {
    if Writable(keys) {
      PrintedKeysAreSaid(keys);
      PrintedIsTextual(keys);
    }
    forall lines | Textual(lines) && Exact(lines, keys)
      ensures Writable(keys)
    {
      ExactKeysAreProper(lines, keys);
    }
  }

  lemma PrintedKeysAreSaid(keys: seq<Key>)
    requires Distinct(keys) && forall k :: k in keys ==> Nonempty(k)
    ensures Exact(PrintPolicy(keys), keys)
  {
    PrintedHead(keys);
    var lines := PrintPolicy(keys);
    forall k | 0 <= k < |keys|
      ensures BlockSays(lines, 1 + 5 * k, keys[k])
    {
      PrintedBlock(keys, k);
    }
    assert BlocksSay(lines, keys);
  }

  lemma PrintedHead(keys: seq<Key>)
    ensures var lines := PrintPolicy(keys);
            |lines| == 1 + 5 * |keys| && (if keys == [] then lines[0].line.EmptyList? else lines[0].line.Header?)
  {
  }

  lemma PrintedIsTextual(keys: seq<Key>)
    requires forall k :: k in keys ==> OneLineKey(k)
    ensures Textual(PrintPolicy(keys))
  {
    var lines := PrintPolicy(keys);
    forall i | 0 <= i < |lines| && lines[i].line.Entry?
      ensures OneLine(lines[i].line.raw)
    {
      var key := keys[(i - 1) / 5];
      var field := BLOCK[(i - 1) % 5];
      assert key in keys && lines[i].line == PrintLine(field, key);
      assert OneLine(key.Get(field));
    }
  }

  lemma PrintedBlock(keys: seq<Key>, k: nat)
    requires k < |keys| && Nonempty(keys[k])
    ensures BlockSays(PrintPolicy(keys), 1 + 5 * k, keys[k])
  {
    var lines, start := PrintPolicy(keys), 1 + 5 * k;
    forall p | 0 <= p < 5
      ensures Says(lines[start + p].line, BLOCK[p], keys[k])
    {
      assert (start + p - 1) % 5 == p && (start + p - 1) / 5 == k;
      assert lines[start + p].line == PrintLine(BLOCK[p], keys[k]);
      QuotedIsValue(keys[k].Get(BLOCK[p]));
    }
  }

  lemma ExactKeysAreProper(lines: seq<Numbered>, keys: seq<Key>)
    requires Exact(lines, keys)
    ensures Distinct(keys) && forall k :: k in keys ==> Nonempty(k)
    ensures Textual(lines) ==> forall k :: k in keys ==> OneLineKey(k)
  {
    forall key | key in keys
      ensures Nonempty(key) && (Textual(lines) ==> OneLineKey(key))
    {
      var k :| 0 <= k < |keys| && keys[k] == key;
      BlockIsProper(lines, 1 + 5 * k, key);
    }
  }

  lemma BlockIsProper(lines: seq<Numbered>, start: nat, key: Key)
    requires BlockSays(lines, start, key)
    ensures Nonempty(key) && (Textual(lines) ==> OneLineKey(key))
  {
    forall p | p in [0, 2, 3, 4]
      ensures key.Get(BLOCK[p]) != "" && (Textual(lines) ==> OneLine(key.Get(BLOCK[p])))
    {
      assert Says(lines[start + p].line, BLOCK[p], key);
      if Textual(lines) { ValueOneLine(lines[start + p].line.raw); }
    }
    assert 0 in [0, 2, 3, 4] && 2 in [0, 2, 3, 4] && 3 in [0, 2, 3, 4] && 4 in [0, 2, 3, 4];
    assert key.Get(BLOCK[0]) == key.vulnerability && key.Get(BLOCK[2]) == key.package;
    assert key.Get(BLOCK[3]) == key.version && key.Get(BLOCK[4]) == key.packageType;
  }

  /** Printed keys parse back. */
  method PrintAndParse(keys: seq<Key>) returns (parsed: seq<Key>, issues: seq<Issue>)
    requires Distinct(keys) && forall k :: k in keys ==> Nonempty(k)
    ensures parsed == keys && issues == []
  {
    parsed, issues := ParsePolicy(PrintPolicy(keys));
    PrintedKeysAreSaid(keys);
    PolicyUnambiguous(PrintPolicy(keys), parsed, keys);
  }

  // ----- the ledger

  datatype Json =
    | Null
    | Bool(b: bool)
    | Number(n: int)
    | Str(s: string)
    | Array(items: seq<Json>)
    | Object(members: map<string, Json>)

  type Record = map<string, Json>

  datatype Ledger = Absent | Malformed | Parsed(value: Json)

  const SCHEMA := "custombuild.vulnerability-exceptions.v2"
  const SEVERITIES: set<string> := {"Negligible", "Low", "Medium", "High", "Critical"}
  const KEY_FIELDS: seq<string> := ["vulnerability", "package", "version", "type"]
  const TEXT_FIELDS: seq<string> := ["severity", "owner", "rationale", "mitigation", "source", "review_by"]
  const HTTPS := "https://"

  type DateParser = string -> Option<int>

  predicate HasText(entry: Record, name: string) {
    name in entry && entry[name].Str? && Strip(entry[name].s) != ""
  }

  predicate HasKey(entry: Record) {
    forall i :: 0 <= i < 4 ==> HasText(entry, KEY_FIELDS[i])
  }

  function KeyOf(entry: Record): Key
    requires HasKey(entry)
  {
    assert HasText(entry, KEY_FIELDS[0]) && HasText(entry, KEY_FIELDS[1]);
    assert HasText(entry, KEY_FIELDS[2]) && HasText(entry, KEY_FIELDS[3]);
    Key(Strip(entry["vulnerability"].s), Strip(entry["package"].s), Strip(entry["version"].s), Strip(entry["type"].s))
  }

  method ReadKey(entry: Record, index: nat) returns (key: Option<Key>, issues: seq<Issue>)
    ensures key.Some? <==> HasKey(entry)
    ensures key.Some? ==> key.value == KeyOf(entry) && issues == []
    ensures key.None? ==> issues != []
  {
    var values: map<string, string> := map[];
    issues := [];
    for i := 0 to 4
      invariant issues == [] <==> forall k :: 0 <= k < i ==> HasText(entry, KEY_FIELDS[k])
      invariant forall k :: 0 <= k < i && HasText(entry, KEY_FIELDS[k]) ==>
        KEY_FIELDS[k] in values && values[KEY_FIELDS[k]] == Strip(entry[KEY_FIELDS[k]].s)
    {
      var name := KEY_FIELDS[i];
      if HasText(entry, name) {
        values := values[name := Strip(entry[name].s)];
      } else {
        issues := issues + [KeyFieldMissing(index, name)];
      }
    }
    if issues != [] {
      return None, issues;
    }
    assert HasText(entry, KEY_FIELDS[0]) && HasText(entry, KEY_FIELDS[1]);
    assert HasText(entry, KEY_FIELDS[2]) && HasText(entry, KEY_FIELDS[3]);
    key := Some(Key(values["vulnerability"], values["package"], values["version"], values["type"]));
  }

  predicate StartsWith(s: string, prefix: string) {
    |prefix| <= |s| && s[..|prefix|] == prefix
  }

  /** Every text field is there, the severity is known, the source is HTTPS and the review date
      has not passed. */
  predicate InForce(entry: Record, today: int, dates: DateParser) {
    && (forall i :: 0 <= i < 6 ==> HasText(entry, TEXT_FIELDS[i]))
    && "severity" in entry && entry["severity"].Str? && entry["severity"].s in SEVERITIES
    && "source" in entry && entry["source"].Str? && StartsWith(entry["source"].s, HTTPS)
    && "review_by" in entry && entry["review_by"].Str?
    && dates(entry["review_by"].s).Some? && today <= dates(entry["review_by"].s).value
  }

  method CheckRecord(entry: Record, key: Key, today: int, dates: DateParser) returns (issues: seq<Issue>)
    ensures issues == [] <==> InForce(entry, today, dates)
    ensures Expired(key) in issues <==>
              "review_by" in entry && entry["review_by"].Str? && dates(entry["review_by"].s).Some? &&
              dates(entry["review_by"].s).value < today
  {
    issues := [];
    for i := 0 to 6
      invariant issues == [] <==> forall k :: 0 <= k < i ==> HasText(entry, TEXT_FIELDS[k])
      invariant Expired(key) !in issues
    {
      if !HasText(entry, TEXT_FIELDS[i]) {
        issues := issues + [FieldMissing(key, TEXT_FIELDS[i])];
      }
    }
    assert issues == [] ==>
      HasText(entry, TEXT_FIELDS[0]) && HasText(entry, TEXT_FIELDS[4]) && HasText(entry, TEXT_FIELDS[5]);
    if "severity" in entry && entry["severity"].Str? && entry["severity"].s !in SEVERITIES {
      issues := issues + [BadSeverity(key)];
    }
    if "source" in entry && entry["source"].Str? && !StartsWith(entry["source"].s, HTTPS) {
      issues := issues + [NotHttps(key)];
    }
    if "review_by" in entry && entry["review_by"].Str? {
      match dates(entry["review_by"].s) {
        case None => issues := issues + [BadDate(key)];
        case Some(deadline) =>
          if deadline < today {
            issues := issues + [Expired(key)];
          }
      }
    }
  }

  // ----- reconciliation

  predicate EntryGood(entry: Json, today: int, dates: DateParser) {
    entry.Object? && HasKey(entry.members) && InForce(entry.members, today, dates)
  }

  predicate HasKeyAt(entries: seq<Json>, i: nat)
    requires i < |entries|
  {
    entries[i].Object? && HasKey(entries[i].members)
  }

  /** The keys of the first `n` ledger entries, those that have one. */
  function LedgerKeys(entries: seq<Json>, n: nat): set<Key>
    requires n <= |entries|
  {
    set i | 0 <= i < n && HasKeyAt(entries, i) :: KeyOf(entries[i].members)
  }

  predicate EntriesDistinct(entries: seq<Json>, n: nat)
    requires n <= |entries|
  {
    forall i, j :: 0 <= i < j < n && HasKeyAt(entries, i) && HasKeyAt(entries, j) ==>
      KeyOf(entries[i].members) != KeyOf(entries[j].members)
  }

  /** Every entry is complete, named and in force, and no two have the same key. */
  predicate EntriesGood(entries: seq<Json>, n: nat, today: int, dates: DateParser)
    requires n <= |entries|
  {
    && (forall i :: 0 <= i < n ==> EntryGood(entries[i], today, dates))
    && EntriesDistinct(entries, n)
  }

  /** One entry against the records so far. */
  method CheckEntry(entry: Json, index: nat, records: map<Key, Record>, today: int, dates: DateParser)
      returns (extended: map<Key, Record>, issues: seq<Issue>)
    ensures extended.Keys == records.Keys +
              if entry.Object? && HasKey(entry.members) then {KeyOf(entry.members)} else {}
    ensures issues == [] <==> EntryGood(entry, today, dates) && KeyOf(entry.members) !in records
  {
    extended := records;
    if !entry.Object? {
      return records, [NotAnObject];
    }
    var key, missing := ReadKey(entry.members, index);
    if key.None? {
      return records, missing;
    }
    if key.value in records {
      return records, [LedgerDuplicate(key.value)];
    }
    extended := records[key.value := entry.members];
    issues := CheckRecord(entry.members, key.value, today, dates);
  }

  method CheckEntries(entries: seq<Json>, today: int, dates: DateParser)
      returns (records: map<Key, Record>, issues: seq<Issue>)
    ensures records.Keys == LedgerKeys(entries, |entries|)
    ensures issues == [] <==> EntriesGood(entries, |entries|, today, dates)
  {
    records, issues := map[], [];
    for i := 0 to |entries|
      invariant records.Keys == LedgerKeys(entries, i)
      invariant issues == [] <==> EntriesGood(entries, i, today, dates)
    {
      GrowKeys(entries, i);
      GrowEntries(entries, i, today, dates);
      var found;
      records, found := CheckEntry(entries[i], i + 1, records, today, dates);
      issues := issues + found;
    }
  }

  lemma GrowKeys(entries: seq<Json>, n: nat)
    requires n < |entries|
    ensures LedgerKeys(entries, n + 1) ==
              LedgerKeys(entries, n) + if HasKeyAt(entries, n) then {KeyOf(entries[n].members)} else {}
  {
  }

  lemma GrowEntries(entries: seq<Json>, n: nat, today: int, dates: DateParser)
    requires n < |entries|
    ensures EntriesGood(entries, n + 1, today, dates) <==>
              && EntriesGood(entries, n, today, dates) && EntryGood(entries[n], today, dates)
              && KeyOf(entries[n].members) !in LedgerKeys(entries, n)
  {
    if EntriesGood(entries, n + 1, today, dates) {
      assert EntryGood(entries[n], today, dates) && HasKeyAt(entries, n);
    }
    if EntryGood(entries[n], today, dates) && KeyOf(entries[n].members) in LedgerKeys(entries, n) {
      var i :| 0 <= i < n && HasKeyAt(entries, i) && KeyOf(entries[i].members) == KeyOf(entries[n].members);
      assert HasKeyAt(entries, n);
    }
    if EntryGood(entries[n], today, dates) && KeyOf(entries[n].members) !in LedgerKeys(entries, n) {
      forall i | 0 <= i < n && HasKeyAt(entries, i)
        ensures KeyOf(entries[i].members) != KeyOf(entries[n].members)
      {
        assert KeyOf(entries[i].members) in LedgerKeys(entries, n);
      }
    }
  }

  /** Both differences, one issue per key. */
  method CrossCheck(policy: set<Key>, ledger: set<Key>) returns (issues: seq<Issue>)
    ensures forall issue :: issue in issues <==>
      || (issue.NoRecord? && issue.key in policy && issue.key !in ledger)
      || (issue.NotInPolicy? && issue.key in ledger && issue.key !in policy)
  {
    issues := [];
    var pending := policy - ledger;
    while pending != {}
      invariant pending <= policy - ledger
      invariant forall issue :: issue in issues <==>
        issue.NoRecord? && issue.key in policy && issue.key !in ledger && issue.key !in pending
      decreases pending
    {
      var key :| key in pending;
      issues := issues + [NoRecord(key)];
      pending := pending - {key};
    }
    pending := ledger - policy;
    while pending != {}
      invariant pending <= ledger - policy
      invariant forall issue :: issue in issues <==>
        || (issue.NoRecord? && issue.key in policy && issue.key !in ledger)
        || (issue.NotInPolicy? && issue.key in ledger && issue.key !in policy && issue.key !in pending)
      decreases pending
    {
      var key :| key in pending;
      issues := issues + [NotInPolicy(key)];
      pending := pending - {key};
    }
  }

  /** The ledger is a value of the right schema whose entries are all good. */
  predicate LedgerGood(ledger: Json, today: int, dates: DateParser) {
    && ledger.Object?
    && "schema_version" in ledger.members && ledger.members["schema_version"] == Str(SCHEMA)
    && "exceptions" in ledger.members && ledger.members["exceptions"].Array?
    && var entries := ledger.members["exceptions"].items;
       EntriesGood(entries, |entries|, today, dates)
  }

  function KeysOf(ledger: Json): set<Key>
    requires ledger.Object? && "exceptions" in ledger.members && ledger.members["exceptions"].Array?
  {
    var entries := ledger.members["exceptions"].items;
    LedgerKeys(entries, |entries|)
  }

  ghost predicate PolicyMatches(lines: seq<Numbered>, ledgerKeys: set<Key>) {
    exists keys :: Exact(lines, keys) && (set k | k in keys) == ledgerKeys
  }

  /** No issue at all means: the policy is exactly a duplicate-free list of keys, every ledger
      entry is complete and in force, no two entries share a key, and both name the same keys. */
  method Reconcile(policy: Option<seq<Numbered>>, ledger: Ledger, today: int, dates: DateParser)
      returns (issues: seq<Issue>)
    ensures issues == [] <==>
      && policy.Some? && ledger.Parsed? && LedgerGood(ledger.value, today, dates)
      && PolicyMatches(policy.value, KeysOf(ledger.value))
  {
    if policy.None? {
      return [PolicyMissing];
    }
    if ledger.Absent? {
      return [LedgerMissing];
    }
    var keys;
    keys, issues := ParsePolicy(policy.value);
    if ledger.Malformed? {
      return [LedgerInvalid];
    }
    if !ledger.value.Object? {
      return [LedgerNotObject];
    }
    var members := ledger.value.members;
    if !("schema_version" in members && members["schema_version"] == Str(SCHEMA)) {
      issues := issues + [WrongSchema];
    }
    if !("exceptions" in members && members["exceptions"].Array?) {
      return issues + [NoExceptions];
    }
    var records, found := CheckEntries(members["exceptions"].items, today, dates);
    var policyKeys := set k | k in keys;
    var crossed := CrossCheck(policyKeys, records.Keys);
    CrossedEmpty(policyKeys, records.Keys, crossed);
    issues := issues + found + crossed;
    forall other | Exact(policy.value, other) && Exact(policy.value, keys)
      ensures other == keys
    {
      PolicyUnambiguous(policy.value, other, keys);
    }
  }

  lemma CrossedEmpty(policy: set<Key>, ledger: set<Key>, issues: seq<Issue>)
    requires forall issue :: issue in issues <==>
      || (issue.NoRecord? && issue.key in policy && issue.key !in ledger)
      || (issue.NotInPolicy? && issue.key in ledger && issue.key !in policy)
    ensures issues == [] <==> policy == ledger
  {
    if issues == [] {
      forall key | key in policy ensures key in ledger { assert NoRecord(key) !in issues; }
      forall key | key in ledger ensures key in policy { assert NotInPolicy(key) !in issues; }
    } else {
      assert issues[0] in issues;
    }
  }
}
