/** What the lines of the ignore policy and the entries of the exception ledger say, written out. */
module PolicyMeaning {

  import opened ExceptionPolicy
  import opened PythonText
  import opened Wrappers

  /** `s` is `middle` with nothing but spaces around it. */
  ghost predicate Surrounded(s: string, middle: string) {
    Trimmed(middle) && exists left, right :: AllSpace(left) && AllSpace(right) && s == left + middle + right
  }

  lemma SurroundedIff(s: string, middle: string)
    ensures Surrounded(s, middle) <==> Strip(s) == middle
  {
    if Surrounded(s, middle) {
      var left, right :| AllSpace(left) && AllSpace(right) && s == left + middle + right;
      StripIff(left, middle, right);
    }
    var left, right := StripSplits(s);
  }

  /** Some character is no space. */
  predicate HasWords(s: string) {
    exists k :: 0 <= k < |s| && !IsSpace(s[k])
  }

  lemma WordsIff(s: string)
    ensures HasWords(s) <==> Strip(s) != ""
  {
    var left, right := StripSplits(s);
    if Strip(s) != "" {
      assert s[|left|] == Strip(s)[0];
    } else {
      assert s == left + right;
    }
  }

  // ----- the policy

  predicate QuotedBy(middle: string, quote: char, value: string) {
    middle == [quote] + value + [quote]
  }

  /** A value in a policy line: the text without outer spaces, and without one pair of equal quotes
      around it. */
  lemma PolicyValueIff(raw: string, middle: string, value: string)
    requires Surrounded(raw, middle)
    ensures PolicyValue(raw) == value <==>
              if exists inner :: QuotedBy(middle, '"', inner) || QuotedBy(middle, '\'', inner)
              then QuotedBy(middle, '"', value) || QuotedBy(middle, '\'', value)
              else value == middle
  {
    SurroundedIff(raw, middle);
    if |middle| >= 2 {
      var inner := middle[1..|middle| - 1];
      assert middle == [middle[0]] + inner + [middle[|middle| - 1]];
      assert QuotedBy(middle, '"', inner) <==> middle[0] == '"' && middle[|middle| - 1] == '"';
      assert QuotedBy(middle, '\'', inner) <==> middle[0] == '\'' && middle[|middle| - 1] == '\'';
    }
    forall other | QuotedBy(middle, '"', other) || QuotedBy(middle, '\'', other)
      ensures |middle| >= 2 && other == middle[1..|middle| - 1]
    {
    }
  }

  predicate Gives(line: Line, field: Field, value: string) {
    line.Entry? && line.field == field && PolicyValue(line.raw) == value && value != ""
  }

  /** The five lines that say one key. */
  lemma BlockIff(lines: seq<Numbered>, start: nat, key: Key)
    requires start + 5 <= |lines|
    ensures BlockSays(lines, start, key) <==>
              && Gives(lines[start].line, VULNERABILITY, key.vulnerability)
              && lines[start + 1].line.Marker?
              && Gives(lines[start + 2].line, PACKAGE, key.package)
              && Gives(lines[start + 3].line, VERSION, key.version)
              && Gives(lines[start + 4].line, TYPE, key.packageType)
  {
    forall p | 0 <= p < 5
      ensures BlockSays(lines, start, key) ==> Says(lines[start + p].line, BLOCK[p], key)
    {
    }
    assert BlockSays(lines, start, key) ==>
      Says(lines[start + 0].line, BLOCK[0], key) && Says(lines[start + 1].line, BLOCK[1], key)
      && Says(lines[start + 2].line, BLOCK[2], key) && Says(lines[start + 3].line, BLOCK[3], key)
      && Says(lines[start + 4].line, BLOCK[4], key);
  }

  // ----- the ledger

  predicate SaysText(entry: Record, name: string) {
    name in entry && entry[name].Str? && HasWords(entry[name].s)
  }

  predicate SaysKeyFields(entry: Record) {
    SaysText(entry, "vulnerability") && SaysText(entry, "package") && SaysText(entry, "version") && SaysText(entry, "type")
  }

  lemma HasTextIff(entry: Record, name: string)
    ensures HasText(entry, name) <==> SaysText(entry, name)
  {
    if name in entry && entry[name].Str? {
      WordsIff(entry[name].s);
    }
  }

  lemma HasKeyIff(entry: Record)
    ensures HasKey(entry) <==> SaysKeyFields(entry)
  {
    HasTextIff(entry, "vulnerability");
    HasTextIff(entry, "package");
    HasTextIff(entry, "version");
    HasTextIff(entry, "type");
    assert HasKey(entry) ==> HasText(entry, KEY_FIELDS[0]) && HasText(entry, KEY_FIELDS[1])
                             && HasText(entry, KEY_FIELDS[2]) && HasText(entry, KEY_FIELDS[3]);
  }

  /** The key of an entry: its four texts without outer spaces. */
  lemma KeyOfIff(entry: Record, key: Key)
    requires HasKey(entry) && SaysKeyFields(entry)
    ensures KeyOf(entry) == key <==>
              && Surrounded(entry["vulnerability"].s, key.vulnerability) && Surrounded(entry["package"].s, key.package)
              && Surrounded(entry["version"].s, key.version) && Surrounded(entry["type"].s, key.packageType)
  {
    SurroundedIff(entry["vulnerability"].s, key.vulnerability);
    SurroundedIff(entry["package"].s, key.package);
    SurroundedIff(entry["version"].s, key.version);
    SurroundedIff(entry["type"].s, key.packageType);
  }

  predicate SaysTextFields(entry: Record) {
    && SaysText(entry, "severity") && SaysText(entry, "owner") && SaysText(entry, "rationale")
    && SaysText(entry, "mitigation") && SaysText(entry, "source") && SaysText(entry, "review_by")
  }

  lemma TextFieldsIff(entry: Record)
    ensures (forall i :: 0 <= i < 6 ==> HasText(entry, TEXT_FIELDS[i])) <==> SaysTextFields(entry)
  {
    HasTextIff(entry, "severity");
    HasTextIff(entry, "owner");
    HasTextIff(entry, "rationale");
    HasTextIff(entry, "mitigation");
    HasTextIff(entry, "source");
    HasTextIff(entry, "review_by");
    var all := forall i :: 0 <= i < 6 ==> HasText(entry, TEXT_FIELDS[i]);
    assert all ==> HasText(entry, TEXT_FIELDS[0]) && HasText(entry, TEXT_FIELDS[1]) && HasText(entry, TEXT_FIELDS[2])
                   && HasText(entry, TEXT_FIELDS[3]) && HasText(entry, TEXT_FIELDS[4]) && HasText(entry, TEXT_FIELDS[5]);
  }

  /** An entry is good exactly when it has ten texts, one of five severities, an HTTPS source and a
      review date that has not passed. */
  lemma EntryGoodIff(entry: Json, today: int, dates: DateParser)
    ensures EntryGood(entry, today, dates) <==>
              && entry.Object? && SaysKeyFields(entry.members) && SaysTextFields(entry.members)
              && entry.members["severity"].s in {"Negligible", "Low", "Medium", "High", "Critical"}
              && "https://" <= entry.members["source"].s
              && dates(entry.members["review_by"].s).Some?
              && today <= dates(entry.members["review_by"].s).value
  {
    if entry.Object? {
      HasKeyIff(entry.members);
      TextFieldsIff(entry.members);
    }
  }

  /** A ledger is good exactly when it has the schema and an array of good entries no two of which
      give the same key. */
  lemma LedgerGoodIff(ledger: Json, today: int, dates: DateParser)
    ensures LedgerGood(ledger, today, dates) <==>
              && ledger.Object? && "schema_version" in ledger.members && "exceptions" in ledger.members
              && ledger.members["schema_version"] == Str("custombuild.vulnerability-exceptions.v2")
              && ledger.members["exceptions"].Array?
              && var entries := ledger.members["exceptions"].items;
                 && (forall i :: 0 <= i < |entries| ==> EntryGood(entries[i], today, dates))
                 && forall i, j :: 0 <= i < j < |entries| ==>
                      KeyOf(entries[i].members) != KeyOf(entries[j].members)
  {
    if ledger.Object? && "exceptions" in ledger.members && ledger.members["exceptions"].Array? {
      var entries := ledger.members["exceptions"].items;
      assert forall i :: 0 <= i < |entries| && EntryGood(entries[i], today, dates) ==> HasKeyAt(entries, i);
    }
  }
}
