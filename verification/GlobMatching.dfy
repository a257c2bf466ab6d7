/** Docker-ignore matching of scripts/source_manifest.py.  A path is its sequence of segments;
    `fits` stands for `fnmatch.fnmatchcase` on one segment. */
module GlobMatching {

  type Fits = (string, string) -> bool

  const GLOBSTAR: string := "**"

  /** Does the pattern from segment `j` on match the path from segment `i` on?  `**` takes any run
      of segments, every other pattern segment takes one. */
  predicate GlobAt(path: seq<string>, pattern: seq<string>, fits: Fits, i: nat, j: nat)
    requires i <= |path| && j <= |pattern|
    decreases |path| - i + |pattern| - j
  {
    if j == |pattern| then i == |path|
    else if pattern[j] == GLOBSTAR then
      GlobAt(path, pattern, fits, i, j + 1) || (i < |path| && GlobAt(path, pattern, fits, i + 1, j))
    else
      i < |path| && fits(path[i], pattern[j]) && GlobAt(path, pattern, fits, i + 1, j + 1)
  }

  predicate Glob(path: seq<string>, pattern: seq<string>, fits: Fits) {
    GlobAt(path, pattern, fits, 0, 0)
  }

  /** The pattern segment takes the run of path segments from `lo` up to `hi`. */
  predicate Takes(path: seq<string>, segment: string, fits: Fits, lo: nat, hi: nat) {
    && lo <= hi <= |path|
    && (segment == GLOBSTAR || (hi == lo + 1 && fits(path[lo], segment)))
  }

  /** A way to cut the path into one run of segments per pattern segment: segment `k` takes the
      run from `cuts[k]` up to `cuts[k + 1]`. */
  ghost predicate Cuts(path: seq<string>, pattern: seq<string>, fits: Fits, cuts: seq<nat>) {
    |cuts| == |pattern| + 1 && CutsFrom(path, pattern, fits, cuts, 0, 0)
  }

  ghost predicate CanBeCut(path: seq<string>, pattern: seq<string>, fits: Fits) {
    exists cuts :: Cuts(path, pattern, fits, cuts)
  }

  ghost predicate CutsFrom(path: seq<string>, pattern: seq<string>, fits: Fits, cuts: seq<nat>, i: nat, j: nat)
    requires |cuts| == |pattern| + 1
  {
    && j <= |pattern|
    && cuts[j] == i && cuts[|pattern|] == |path|
    && forall k :: j <= k < |pattern| ==> Takes(path, pattern[k], fits, cuts[k], cuts[k + 1])
  }

  /** The recursion accepts exactly the paths that can be cut. */
  lemma {:induction false} GlobGivesCuts(path: seq<string>, pattern: seq<string>, fits: Fits, i: nat, j: nat)
      returns (cuts: seq<nat>)
    requires i <= |path| && j <= |pattern| && GlobAt(path, pattern, fits, i, j)
    ensures |cuts| == |pattern| + 1 && CutsFrom(path, pattern, fits, cuts, i, j)
    decreases |path| - i + |pattern| - j
  {
    if j == |pattern| {
      cuts := seq(|pattern| + 1, _ => i);
    } else {
      if pattern[j] != GLOBSTAR {
        cuts := GlobGivesCuts(path, pattern, fits, i + 1, j + 1);
      } else if GlobAt(path, pattern, fits, i, j + 1) {
        cuts := GlobGivesCuts(path, pattern, fits, i, j + 1);
      } else {
        cuts := GlobGivesCuts(path, pattern, fits, i + 1, j);
        assert Takes(path, pattern[j], fits, cuts[j], cuts[j + 1]);
      }
      cuts := cuts[j := i];
    }
  }

  lemma {:induction false} CutsGiveGlob(path: seq<string>, pattern: seq<string>, fits: Fits,
                                        cuts: seq<nat>, i: nat, j: nat)
    requires i <= |path| && |cuts| == |pattern| + 1 && CutsFrom(path, pattern, fits, cuts, i, j)
    ensures GlobAt(path, pattern, fits, i, j)
    decreases |path| - i + |pattern| - j
  {
    if j < |pattern| {
      assert Takes(path, pattern[j], fits, cuts[j], cuts[j + 1]);
      if pattern[j] == GLOBSTAR && cuts[j + 1] > i {
        CutsGiveGlob(path, pattern, fits, cuts[j := i + 1], i + 1, j);
      } else {
        CutsGiveGlob(path, pattern, fits, cuts, cuts[j + 1], j + 1);
      }
    }
  }

  lemma GlobIffCuts(path: seq<string>, pattern: seq<string>, fits: Fits)
    ensures Glob(path, pattern, fits) <==> exists cuts :: Cuts(path, pattern, fits, cuts)
  {
    if Glob(path, pattern, fits) {
      var cuts := GlobGivesCuts(path, pattern, fits, 0, 0);
      assert Cuts(path, pattern, fits, cuts);
    }
    if cuts :| Cuts(path, pattern, fits, cuts) {
      CutsGiveGlob(path, pattern, fits, cuts, 0, 0);
    }
  }

  type Key = (nat, nat)

  /** Only entries at or beyond `(i, j)` were added. */
  ghost predicate Grown(before: map<Key, bool>, after: map<Key, bool>, i: nat, j: nat) {
    && before.Keys <= after.Keys
    && forall key :: key in after && key !in before ==> key.0 >= i && key.1 >= j
  }

  lemma GrownTwice(before: map<Key, bool>, middle: map<Key, bool>, after: map<Key, bool>, i: nat, j: nat)
    requires Grown(before, middle, i, j + 1)
    requires Grown(middle, after, i + 1, j)
    requires (i, j) !in before
    ensures Grown(before, after, i, j) && (i, j) !in after
  {
  }

  lemma GrownSideways(before: map<Key, bool>, after: map<Key, bool>, i: nat, j: nat)
    requires Grown(before, after, i, j + 1) && (i, j) !in before
    ensures Grown(before, after, i, j) && (i, j) !in after
  {
  }

  lemma EntryAdded(before: map<Key, bool>, after: map<Key, bool>, i: nat, j: nat, result: bool)
    requires Grown(before, after, i, j) && (i, j) !in after
    ensures Grown(before, after[(i, j) := result], i, j)
    ensures |after[(i, j) := result]| == |after| + 1
  {
    assert after[(i, j) := result].Keys == after.Keys + {(i, j)};
  }

  lemma GlobstarUnfolds(path: seq<string>, pattern: seq<string>, fits: Fits, i: nat, j: nat)
    requires i <= |path| && j < |pattern| && pattern[j] == GLOBSTAR
    ensures GlobAt(path, pattern, fits, i, j) <==>
              GlobAt(path, pattern, fits, i, j + 1) || (i < |path| && GlobAt(path, pattern, fits, i + 1, j))
  {
  }

  /** The memoised matcher. */
  class Matcher {
    const path: seq<string>
    const pattern: seq<string>
    const fits: Fits
    var cache: map<Key, bool>
    ghost var evaluations: nat                 // calls not answered by the cache

    constructor (path: seq<string>, pattern: seq<string>, fits: Fits)
      ensures this.path == path && this.pattern == pattern && this.fits == fits
      ensures cache == map[] && evaluations == 0
    {
      this.path, this.pattern, this.fits := path, pattern, fits;
      cache, evaluations := map[], 0;
    }

    /** The entry equals the relation at its pair of positions. */
    ghost predicate EntryValid(key: Key, result: bool) {
      && key.0 <= |path| && key.1 <= |pattern|
      && result == GlobAt(path, pattern, fits, key.0, key.1)
    }

    ghost predicate AllValid(cache: map<Key, bool>) {
      forall key {:trigger EntryValid(key, cache[key])} :: key in cache ==> EntryValid(key, cache[key])
    }

    /** The answer is that of the relation, every cache entry stays right, and every evaluation
        adds one entry: no pair of positions is ever evaluated twice. */
    method Matches(i: nat, j: nat) returns (result: bool)
      requires AllValid(cache) && i <= |path| && j <= |pattern|
      modifies this
      ensures AllValid(cache) && Grown(old(cache), cache, i, j) && (i, j) in cache
      ensures result == GlobAt(path, pattern, fits, i, j)
      ensures evaluations - old(evaluations) == |cache| - |old(cache)|
      decreases |path| - i + |pattern| - j, 1
    {
      if (i, j) in cache {
        assert EntryValid((i, j), cache[(i, j)]);
        return cache[(i, j)];
      }
      evaluations := evaluations + 1;
      ghost var before := cache;
      if j == |pattern| {
        result := i == |path|;
      } else if pattern[j] == GLOBSTAR {
        result := MatchesGlobstar(i, j);
        GlobstarUnfolds(path, pattern, fits, i, j);
      } else {
        result := i < |path| && fits(path[i], pattern[j]);
        if result {
          result := Matches(i + 1, j + 1);
        }
      }
      EntryAdded(before, cache, i, j, result);
      cache := cache[(i, j) := result];
    }

    /** `**` takes nothing, or one segment and then possibly more. */
    method MatchesGlobstar(i: nat, j: nat) returns (result: bool)
      requires AllValid(cache) && i <= |path| && j < |pattern|
      requires pattern[j] == GLOBSTAR && (i, j) !in cache
      modifies this
      ensures AllValid(cache) && Grown(old(cache), cache, i, j) && (i, j) !in cache
      ensures result <==> GlobAt(path, pattern, fits, i, j + 1) || (i < |path| && GlobAt(path, pattern, fits, i + 1, j))
      ensures evaluations - old(evaluations) == |cache| - |old(cache)|
      decreases |path| - i + |pattern| - j, 0
    {
      result := Matches(i, j + 1);
      if result || i == |path| {
        GrownSideways(old(cache), cache, i, j);
        return;
      }
      ghost var middle := cache;
      result := Matches(i + 1, j);
      GrownTwice(old(cache), middle, cache, i, j);
    }
  }

  /** The segment matcher as it is called: it says whether the path can be cut. */
  method MatchSegments(path: seq<string>, pattern: seq<string>, fits: Fits) returns (result: bool)
    ensures result == Glob(path, pattern, fits)
    ensures result <==> exists cuts :: Cuts(path, pattern, fits, cuts)
  {
    var matcher := new Matcher(path, pattern, fits);
    result := matcher.Matches(0, 0);
    GlobIffCuts(path, pattern, fits);
  }

  // ----- ignore rules

  /** `text` is the pattern as written, `parts` its segments; `slashed` says it holds a slash. */
  datatype Rule = Rule(text: string, parts: seq<string>, slashed: bool,
                       negated: bool, directoryOnly: bool, anchored: bool)

  predicate RuleMatches(path: seq<string>, isDirectory: bool, rule: Rule, fits: Fits) {
    if rule.directoryOnly && !isDirectory then false
    else if !rule.slashed && !rule.anchored then path != [] && fits(path[|path| - 1], rule.text)
    else Glob(path, rule.parts, fits)
  }

  method MatchesRule(path: seq<string>, isDirectory: bool, rule: Rule, fits: Fits) returns (result: bool)
    ensures result == RuleMatches(path, isDirectory, rule, fits)
  {
    if rule.directoryOnly && !isDirectory { return false; }
    if !rule.slashed && !rule.anchored {
      return path != [] && fits(path[|path| - 1], rule.text);
    }
    result := MatchSegments(path, rule.parts, fits);
  }

  /** Does rule number `r` match the ancestor-or-self of length `k`?  A proper ancestor always
      counts as a directory. */
  predicate Hit(rules: seq<Rule>, fits: Fits, path: seq<string>, isDirectory: bool, k: nat, r: nat)
    requires 1 <= k <= |path| && r < |rules|
  {
    RuleMatches(path[..k], k < |path| || isDirectory, rules[r], fits)
  }

  /** The last hit, ancestors outermost first and rules in order within each. */
  ghost predicate LastHit(rules: seq<Rule>, fits: Fits, path: seq<string>, isDirectory: bool, k: nat, r: nat) {
    && 1 <= k <= |path| && r < |rules|
    && Hit(rules, fits, path, isDirectory, k, r)
    && forall k': nat, r': nat :: !LaterHit(rules, fits, path, isDirectory, k, r, k', r')
  }

  /** Ignored: something matched, and the last match was not a negation. */
  ghost predicate Ignored(rules: seq<Rule>, fits: Fits, path: seq<string>, isDirectory: bool) {
    exists k: nat, r: nat :: LastHit(rules, fits, path, isDirectory, k, r) && !rules[r].negated
  }

  method IsIgnored(rules: seq<Rule>, fits: Fits, path: seq<string>, isDirectory: bool) returns (ignored: bool)
    ensures ignored <==> Ignored(rules, fits, path, isDirectory)
  {
    ignored := false;
    ghost var last: (nat, nat) := (0, 0);
    for k := 1 to |path| + 1
      invariant last.0 < k
      invariant Scanned(rules, fits, path, isDirectory, k, 0, last, ignored)
    {
      for r := 0 to |rules|
        invariant Scanned(rules, fits, path, isDirectory, k, r, last, ignored)
      {
        var matched := MatchesRule(path[..k], k < |path| || isDirectory, rules[r], fits);
        if matched {
          ignored := !rules[r].negated;
          last := (k, r);
        }
      }
    }
    ScannedAll(rules, fits, path, isDirectory, last, ignored);
  }

  /** Among the pairs before `(k, r)`, `last` is the last hit, or `(0, 0)` when there is none. */
  ghost predicate Scanned(rules: seq<Rule>, fits: Fits, path: seq<string>, isDirectory: bool,
                          k: nat, r: nat, last: (nat, nat), ignored: bool) {
    && (last.0 == 0 ==> !ignored)
    && (last.0 > 0 ==>
          && last.0 <= |path| && last.1 < |rules| && Before(last.0, last.1, k, r)
          && Hit(rules, fits, path, isDirectory, last.0, last.1)
          && ignored == !rules[last.1].negated)
    && (forall k': nat, r': nat ::
          1 <= k' <= |path| && r' < |rules| && Before(k', r', k, r) && Before(last.0, last.1, k', r') ==>
          !Hit(rules, fits, path, isDirectory, k', r'))
  }

  lemma ScannedAll(rules: seq<Rule>, fits: Fits, path: seq<string>, isDirectory: bool,
                   last: (nat, nat), ignored: bool)
    requires Scanned(rules, fits, path, isDirectory, |path| + 1, 0, last, ignored)
    ensures ignored <==> Ignored(rules, fits, path, isDirectory)
  {
    if last.0 > 0 {
      assert LastHit(rules, fits, path, isDirectory, last.0, last.1);
    }
    if Ignored(rules, fits, path, isDirectory) {
      var k: nat, r: nat :| LastHit(rules, fits, path, isDirectory, k, r) && !rules[r].negated;
      assert last.0 > 0;
      assert !LaterHit(rules, fits, path, isDirectory, k, r, last.0, last.1);
      assert k == last.0 && r == last.1;
    }
  }

  predicate Before(k: nat, r: nat, k': nat, r': nat) {
    k < k' || (k == k' && r < r')
  }

  predicate HasNegation(rules: seq<Rule>) {
    exists r :: 0 <= r < |rules| && rules[r].negated
  }

  ghost predicate LaterHit(rules: seq<Rule>, fits: Fits, path: seq<string>, isDirectory: bool,
                           k: nat, r: nat, k': nat, r': nat) {
    && 1 <= k' <= |path| && r' < |rules| && Before(k, r, k', r')
    && Hit(rules, fits, path, isDirectory, k', r')
  }

  /** Without negations any hit at all means ignored. */
  lemma {:induction false} AnyHitIgnores(rules: seq<Rule>, fits: Fits, path: seq<string>, isDirectory: bool,
                                         k: nat, r: nat)
    requires !HasNegation(rules)
    requires 1 <= k <= |path| && r < |rules| && Hit(rules, fits, path, isDirectory, k, r)
    ensures Ignored(rules, fits, path, isDirectory)
    decreases |path| - k, |rules| - r
  {
    if k': nat, r': nat :| LaterHit(rules, fits, path, isDirectory, k, r, k', r') {
      AnyHitIgnores(rules, fits, path, isDirectory, k', r');
    } else {
      assert LastHit(rules, fits, path, isDirectory, k, r);
    }
  }

  /** The rule strikes the path at segment `k`: a rule without a slash by that segment alone, any
      other by the whole path down to it; a rule for directories strikes what is above the last
      segment, or the path itself when that is a directory. */
  ghost predicate Strikes(rule: Rule, fits: Fits, path: seq<string>, isDirectory: bool, k: nat) {
    && k < |path|
    && (rule.directoryOnly ==> k + 1 < |path| || isDirectory)
    && if rule.slashed || rule.anchored then CanBeCut(path[..k + 1], rule.parts, fits)
       else fits(path[k], rule.text)
  }

  /** Some rule strikes after rule `r` has struck at segment `k`: further down, or later in the list. */
  ghost predicate StruckLater(rules: seq<Rule>, fits: Fits, path: seq<string>, isDirectory: bool,
                              k: nat, r: nat, k': nat, r': nat) {
    r' < |rules| && Before(k, r, k', r') && Strikes(rules[r'], fits, path, isDirectory, k')
  }

  /** Rule `r` strikes at segment `k`, and that is the last strike. */
  ghost predicate LastStrike(rules: seq<Rule>, fits: Fits, path: seq<string>, isDirectory: bool, k: nat, r: nat) {
    && r < |rules| && Strikes(rules[r], fits, path, isDirectory, k)
    && forall k': nat, r': nat :: !StruckLater(rules, fits, path, isDirectory, k, r, k', r')
  }

  lemma HitIffStrikes(rules: seq<Rule>, fits: Fits, path: seq<string>, isDirectory: bool, k: nat, r: nat)
    requires k < |path| && r < |rules|
    ensures Hit(rules, fits, path, isDirectory, k + 1, r) <==> Strikes(rules[r], fits, path, isDirectory, k)
  {
    GlobIffCuts(path[..k + 1], rules[r].parts, fits);
  }

  lemma LaterIffLater(rules: seq<Rule>, fits: Fits, path: seq<string>, isDirectory: bool,
                      k: nat, r: nat, k': nat, r': nat)
    ensures LaterHit(rules, fits, path, isDirectory, k + 1, r, k' + 1, r') <==>
            StruckLater(rules, fits, path, isDirectory, k, r, k', r')
  {
    if k' < |path| && r' < |rules| {
      HitIffStrikes(rules, fits, path, isDirectory, k', r');
    }
  }

  lemma LastHitIsLastStrike(rules: seq<Rule>, fits: Fits, path: seq<string>, isDirectory: bool, k: nat, r: nat)
    ensures LastHit(rules, fits, path, isDirectory, k + 1, r) <==> LastStrike(rules, fits, path, isDirectory, k, r)
  {
    if k < |path| && r < |rules| {
      HitIffStrikes(rules, fits, path, isDirectory, k, r);
      if LastStrike(rules, fits, path, isDirectory, k, r) {
        var next := k + 1;
        forall k': nat, r': nat
          ensures !LaterHit(rules, fits, path, isDirectory, next, r, k', r')
        {
          if k' > 0 {
            LaterIffLater(rules, fits, path, isDirectory, k, r, k' - 1, r');
          }
        }
      }
      if LastHit(rules, fits, path, isDirectory, k + 1, r) {
        forall k': nat, r': nat
          ensures !StruckLater(rules, fits, path, isDirectory, k, r, k', r')
        {
          LaterIffLater(rules, fits, path, isDirectory, k, r, k', r');
        }
      }
    }
  }

  /** A path is ignored exactly when the last strike is by a rule that is not negated. */
  lemma LastStrikeDecides(rules: seq<Rule>, fits: Fits, path: seq<string>, isDirectory: bool)
    ensures Ignored(rules, fits, path, isDirectory) <==>
              exists k: nat, r: nat :: LastStrike(rules, fits, path, isDirectory, k, r) && !rules[r].negated
  {
    if Ignored(rules, fits, path, isDirectory) {
      var k: nat, r: nat :| LastHit(rules, fits, path, isDirectory, k, r) && !rules[r].negated;
      LastHitIsLastStrike(rules, fits, path, isDirectory, k - 1, r);
    }
    if k: nat, r: nat :| LastStrike(rules, fits, path, isDirectory, k, r) && !rules[r].negated {
      LastHitIsLastStrike(rules, fits, path, isDirectory, k, r);
    }
  }

  /** Without negations any strike will do. */
  lemma IgnoredIffStruck(rules: seq<Rule>, fits: Fits, path: seq<string>, isDirectory: bool)
    requires !HasNegation(rules)
    ensures Ignored(rules, fits, path, isDirectory) <==>
              exists k: nat, r: nat :: r < |rules| && Strikes(rules[r], fits, path, isDirectory, k)
  {
    if Ignored(rules, fits, path, isDirectory) {
      var k: nat, r: nat :| LastHit(rules, fits, path, isDirectory, k, r) && !rules[r].negated;
      HitIffStrikes(rules, fits, path, isDirectory, k - 1, r);
    }
    if k: nat, r: nat :| r < |rules| && Strikes(rules[r], fits, path, isDirectory, k) {
      HitIffStrikes(rules, fits, path, isDirectory, k, r);
      AnyHitIgnores(rules, fits, path, isDirectory, k + 1, r);
    }
  }

  /** Without negations, everything below an ignored directory is ignored. */
  lemma IgnoredBelow(rules: seq<Rule>, fits: Fits, directory: seq<string>, below: seq<string>, isDirectory: bool)
    requires !HasNegation(rules)
    requires Ignored(rules, fits, directory, true)
    requires below != []
    ensures Ignored(rules, fits, directory + below, isDirectory)
  {
    var k: nat, r: nat :| LastHit(rules, fits, directory, true, k, r) && !rules[r].negated;
    assert (directory + below)[..k] == directory[..k];
    AnyHitIgnores(rules, fits, directory + below, isDirectory, k, r);
  }
}
