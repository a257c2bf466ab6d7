/** Discovery of source-manifest inputs in scripts/source_manifest.py: a top-down walk that skips
    ignored directories, against the walk that enters every directory. */
module SourceWalk {
  import opened GlobMatching
  import Ordering

  type Path = seq<string>

  /** A directory entry.  Links are listed and never entered. */
  datatype Node = File | FileLink | DirectoryLink | Directory(children: Listing)

  datatype Listing = End | Entry(name: string, node: Node, rest: Listing)

  datatype Kind = DIRECTORY | SYMLINK | FILE

  datatype Item = Item(path: Path, kind: Kind)

  const RELEASE_CONTROL: Path := [".github", "workflows"]

  const APPLICATION_BUILD_INPUTS: seq<Path> := [
    [".github", "workflows"], [".dockerignore"], [".grype.yaml"], ["Makefile"], ["apps", "web"],
    ["cad"], ["cam"], ["compose.external-production.yml"], ["compose.registry.yml"],
    ["compose.yml"], ["infra"], ["package.json"], ["packages"], ["pnpm-lock.yaml"],
    ["pnpm-workspace.yaml"], ["postprocessors"], ["pyproject.toml"], ["scripts"], ["security"],
    ["services"], ["uv.lock"]]

  /** The configured ignore rules and segment matcher. */
  datatype Ignore = Ignore(rules: seq<Rule>, fits: Fits)

  predicate IsApplicationInput(path: Path) {
    exists i :: 0 <= i < |APPLICATION_BUILD_INPUTS| && APPLICATION_BUILD_INPUTS[i] <= path
  }

  predicate IsReleaseControlOrAncestor(path: Path) {
    RELEASE_CONTROL <= path || path <= RELEASE_CONTROL
  }

  predicate IsFolder(node: Node) {
    node.Directory? || node.DirectoryLink?
  }

  function KindOf(node: Node): Kind {
    match node
    case File => FILE
    case Directory(_) => DIRECTORY
    case _ => SYMLINK
  }

  /** Kept: not ignored, or needed for release control. */
  ghost predicate Keeps(ignore: Ignore, item: Item) {
    || !Ignored(ignore.rules, ignore.fits, item.path, item.kind == DIRECTORY)
    || IsReleaseControlOrAncestor(item.path)
  }

  /** The list with the item at its end, if the item is kept. */
  ghost function With(ignore: Ignore, found: seq<Item>, item: Item): seq<Item> {
    if Keeps(ignore, item) then found + [item] else found
  }

  // ----- the walk that enters every directory

  /** `found`, followed by what is kept of the folders of one listing, of its files, of everything
      below it. */
  ghost function FoldersFrom(ignore: Ignore, found: seq<Item>, prefix: Path, listing: Listing): seq<Item>
    decreases listing
  {
    match listing
    case End => found
    case Entry(name, node, rest) =>
      var more := if IsFolder(node) then With(ignore, found, Item(prefix + [name], KindOf(node))) else found;
      FoldersFrom(ignore, more, prefix, rest)
  }

  ghost function FilesFrom(ignore: Ignore, found: seq<Item>, prefix: Path, listing: Listing): seq<Item>
    decreases listing
  {
    match listing
    case End => found
    case Entry(name, node, rest) =>
      var more := if IsFolder(node) then found else With(ignore, found, Item(prefix + [name], KindOf(node)));
      FilesFrom(ignore, more, prefix, rest)
  }

  ghost function BelowFrom(ignore: Ignore, found: seq<Item>, prefix: Path, listing: Listing): seq<Item>
    decreases listing, 0
  {
    match listing
    case End => found
    case Entry(name, node, rest) =>
      var more := if node.Directory? then AllFrom(ignore, found, prefix + [name], node.children) else found;
      BelowFrom(ignore, more, prefix, rest)
  }

  ghost function AllFrom(ignore: Ignore, found: seq<Item>, prefix: Path, listing: Listing): seq<Item>
    decreases listing, 1
  {
    BelowFrom(ignore,
              FilesFrom(ignore, FoldersFrom(ignore, found, prefix, listing), prefix, listing),
              prefix, listing)
  }

  /** The item is an entry of the tree, at whatever depth. */
  predicate Occurs(prefix: Path, listing: Listing, item: Item)
    decreases listing
  {
    match listing
    case End => false
    case Entry(name, node, rest) =>
      || item == Item(prefix + [name], KindOf(node))
      || (node.Directory? && Occurs(prefix + [name], node.children, item))
      || Occurs(prefix, rest, item)
  }

  /** The item is one of this listing's own folders, or one of its own files. */
  predicate OwnEntry(prefix: Path, listing: Listing, item: Item, folder: bool) {
    match listing
    case End => false
    case Entry(name, node, rest) =>
      || (item == Item(prefix + [name], KindOf(node)) && IsFolder(node) == folder)
      || OwnEntry(prefix, rest, item, folder)
  }

  predicate OccursBelow(prefix: Path, listing: Listing, item: Item) {
    match listing
    case End => false
    case Entry(name, node, rest) =>
      || (node.Directory? && Occurs(prefix + [name], node.children, item))
      || OccursBelow(prefix, rest, item)
  }

  lemma {:induction false} OccursSomewhere(prefix: Path, listing: Listing, item: Item)
    ensures Occurs(prefix, listing, item) <==>
              || OwnEntry(prefix, listing, item, true) || OwnEntry(prefix, listing, item, false)
              || OccursBelow(prefix, listing, item)
  {
    if listing.Entry? {
      OccursSomewhere(prefix, listing.rest, item);
    }
  }

  lemma {:induction false} EntriesExactly(ignore: Ignore, found: seq<Item>, prefix: Path, listing: Listing, item: Item)
    ensures item in FoldersFrom(ignore, found, prefix, listing) <==>
              item in found || (Keeps(ignore, item) && OwnEntry(prefix, listing, item, true))
    ensures item in FilesFrom(ignore, found, prefix, listing) <==>
              item in found || (Keeps(ignore, item) && OwnEntry(prefix, listing, item, false))
    decreases listing
  {
    if listing.Entry? {
      var own := Item(prefix + [listing.name], KindOf(listing.node));
      EntriesExactly(ignore, found, prefix, listing.rest, item);
      EntriesExactly(ignore, With(ignore, found, own), prefix, listing.rest, item);
    }
  }

  /** The full walk keeps exactly the entries of the tree that pass the filter. */
  lemma {:induction false} KeptExactly(ignore: Ignore, found: seq<Item>, prefix: Path, listing: Listing, item: Item)
    ensures item in AllFrom(ignore, found, prefix, listing) <==>
              item in found || (Keeps(ignore, item) && Occurs(prefix, listing, item))
    decreases listing, 1
  {
    var folders := FoldersFrom(ignore, found, prefix, listing);
    EntriesExactly(ignore, found, prefix, listing, item);
    EntriesExactly(ignore, folders, prefix, listing, item);
    BelowExactly(ignore, FilesFrom(ignore, folders, prefix, listing), prefix, listing, item);
    OccursSomewhere(prefix, listing, item);
  }

  lemma {:induction false} BelowExactly(ignore: Ignore, found: seq<Item>, prefix: Path, listing: Listing, item: Item)
    ensures item in BelowFrom(ignore, found, prefix, listing) <==>
              item in found || (Keeps(ignore, item) && OccursBelow(prefix, listing, item))
    decreases listing, 0
  {
    if listing.Entry? {
      var node, more := listing.node, found;
      if node.Directory? {
        KeptExactly(ignore, found, prefix + [listing.name], node.children, item);
        more := AllFrom(ignore, found, prefix + [listing.name], node.children);
      }
      BelowExactly(ignore, more, prefix, listing.rest, item);
    }
  }

  // ----- why pruning loses nothing

  lemma {:induction false} EntriesAreBelow(prefix: Path, listing: Listing, item: Item)
    requires Occurs(prefix, listing, item)
    ensures prefix < item.path
    decreases listing
  {
    var node := listing.node;
    if node.Directory? && Occurs(prefix + [listing.name], node.children, item) {
      EntriesAreBelow(prefix + [listing.name], node.children, item);
    } else if Occurs(prefix, listing.rest, item) {
      EntriesAreBelow(prefix, listing.rest, item);
    }
  }

  /** A path below one that is neither inside nor above the release-control tree is not either. */
  lemma ControlIsClosed(control: Path, directory: Path, path: Path)
    requires directory < path
    requires !(control <= directory || directory <= control)
    ensures !(control <= path || path <= control)
  {
  }

  ghost predicate NothingKept(ignore: Ignore, prefix: Path, listing: Listing) {
    forall item :: Occurs(prefix, listing, item) ==> !Keeps(ignore, item)
  }

  lemma {:induction false} NothingFound(ignore: Ignore, found: seq<Item>, prefix: Path, listing: Listing)
    requires NothingKept(ignore, prefix, listing)
    ensures FoldersFrom(ignore, found, prefix, listing) == found
    ensures FilesFrom(ignore, found, prefix, listing) == found
    ensures BelowFrom(ignore, found, prefix, listing) == found
    ensures AllFrom(ignore, found, prefix, listing) == found
    decreases listing
  {
    if listing.Entry? {
      assert Occurs(prefix, listing, Item(prefix + [listing.name], KindOf(listing.node)));
      assert NothingKept(ignore, prefix, listing.rest);
      NothingFound(ignore, found, prefix, listing.rest);
      if listing.node.Directory? {
        assert NothingKept(ignore, prefix + [listing.name], listing.node.children);
        NothingFound(ignore, found, prefix + [listing.name], listing.node.children);
      }
    }
  }

  /** An ignored directory outside release control, under rules without negation, contains nothing
      that would be kept. */
  lemma PrunedHoldsNothing(ignore: Ignore, directory: Path, listing: Listing)
    requires !HasNegation(ignore.rules)
    requires !Keeps(ignore, Item(directory, DIRECTORY))
    ensures forall found :: AllFrom(ignore, found, directory, listing) == found
  {
    forall item | Occurs(directory, listing, item)
      ensures !Keeps(ignore, item)
    {
      EntriesAreBelow(directory, listing, item);
      var below := item.path[|directory|..];
      assert item.path == directory + below;
      IgnoredBelow(ignore.rules, ignore.fits, directory, below, item.kind == DIRECTORY);
      ControlIsClosed(RELEASE_CONTROL, directory, item.path);
    }
    forall found
      ensures AllFrom(ignore, found, directory, listing) == found
    {
      NothingFound(ignore, found, directory, listing);
    }
  }

  // ----- the walk of the source

  function Size(listing: Listing): nat {
    match listing
    case End => 0
    case Entry(_, node, rest) => 1 + (if node.Directory? then Size(node.children) else 0) + Size(rest)
  }

  /** `found`, followed by what the full walk keeps below the named directories. */
  ghost function EnteredFrom(ignore: Ignore, found: seq<Item>, prefix: Path, entered: seq<(string, Listing)>): seq<Item> {
    if entered == [] then found
    else
      var last := entered[|entered| - 1];
      AllFrom(ignore, EnteredFrom(ignore, found, prefix, entered[..|entered| - 1]), prefix + [last.0], last.1)
  }

  predicate AllSmaller(entered: seq<(string, Listing)>, bound: nat) {
    forall i :: 0 <= i < |entered| ==> Size(entered[i].1) < bound
  }

  /** Entering the `visible` directories and then what is below `cursor` amounts to everything
      below `listing`. */
  ghost predicate Covers(ignore: Ignore, prefix: Path, visible: seq<(string, Listing)>, cursor: Listing, listing: Listing) {
    forall found :: BelowFrom(ignore, EnteredFrom(ignore, found, prefix, visible), prefix, cursor) ==
                    BelowFrom(ignore, found, prefix, listing)
  }

  lemma CoversNext(ignore: Ignore, prefix: Path, visible: seq<(string, Listing)>, cursor: Listing,
                   listing: Listing, enter: bool)
    requires cursor.Entry? && Covers(ignore, prefix, visible, cursor, listing)
    requires enter ==> cursor.node.Directory?
    requires !enter && cursor.node.Directory? ==>
               forall found :: AllFrom(ignore, found, prefix + [cursor.name], cursor.node.children) == found
    ensures var more := if enter then visible + [(cursor.name, cursor.node.children)] else visible;
            Covers(ignore, prefix, more, cursor.rest, listing)
  {
    var more := if enter then visible + [(cursor.name, cursor.node.children)] else visible;
    forall found
      ensures BelowFrom(ignore, EnteredFrom(ignore, found, prefix, more), prefix, cursor.rest) ==
              BelowFrom(ignore, found, prefix, listing)
    {
      var before := EnteredFrom(ignore, found, prefix, visible);
      assert BelowFrom(ignore, before, prefix, cursor) == BelowFrom(ignore, found, prefix, listing);
      var after := EnteredFrom(ignore, found, prefix, more);
      if enter {
        assert more[..|more| - 1] == visible;
        assert after == AllFrom(ignore, before, prefix + [cursor.name], cursor.node.children);
      } else if cursor.node.Directory? {
        assert AllFrom(ignore, before, prefix + [cursor.name], cursor.node.children) == before;
      }
      assert BelowFrom(ignore, before, prefix, cursor) == BelowFrom(ignore, after, prefix, cursor.rest);
    }
  }

  class Discovery {
    const ignore: Ignore
    var discovered: seq<Item>

    constructor (ignore: Ignore)
      ensures this.ignore == ignore && discovered == []
    {
      this.ignore, discovered := ignore, [];
    }

    /** One directory-like entry: record it if it is kept, and say whether to enter it. */
    method ListFolder(path: Path, node: Node) returns (enter: bool)
      requires IsFolder(node)
      modifies this
      ensures discovered == With(ignore, old(discovered), Item(path, KindOf(node)))
      ensures enter ==> node.Directory?
      ensures !enter && node.Directory? ==>
                forall found :: AllFrom(ignore, found, path, node.children) == found
    {
      var isLink := node.DirectoryLink?;
      var ignored := IsIgnored(ignore.rules, ignore.fits, path, !isLink);
      var control := IsReleaseControlOrAncestor(path);
      if ignored && !HasNegation(ignore.rules) && !control {
        if node.Directory? { PrunedHoldsNothing(ignore, path, node.children); }
        return false;
      }
      if !ignored || control {
        discovered := discovered + [Item(path, KindOf(node))];
      }
      enter := !isLink;
    }

    /** The directory-like entries of a listing; the walk will enter `visible`. */
    method ListFolders(prefix: Path, listing: Listing) returns (visible: seq<(string, Listing)>)
      modifies this
      ensures discovered == FoldersFrom(ignore, old(discovered), prefix, listing)
      ensures Covers(ignore, prefix, visible, End, listing)
      ensures AllSmaller(visible, Size(listing))
    {
      visible := [];
      var cursor := listing;
      while cursor.Entry?
        invariant FoldersFrom(ignore, discovered, prefix, cursor) ==
                  FoldersFrom(ignore, old(discovered), prefix, listing)
        invariant Covers(ignore, prefix, visible, cursor, listing)
        invariant AllSmaller(visible, Size(listing)) && Size(cursor) <= Size(listing)
        decreases cursor
      {
        var node, enter := cursor.node, false;
        if IsFolder(node) {
          enter := ListFolder(prefix + [cursor.name], node);
        }
        CoversNext(ignore, prefix, visible, cursor, listing, enter);
        if enter {
          visible := visible + [(cursor.name, node.children)];
        }
        cursor := cursor.rest;
      }
    }

    method ListFiles(prefix: Path, listing: Listing)
      modifies this
      ensures discovered == FilesFrom(ignore, old(discovered), prefix, listing)
    {
      var cursor := listing;
      while cursor.Entry?
        invariant FilesFrom(ignore, discovered, prefix, cursor) ==
                  FilesFrom(ignore, old(discovered), prefix, listing)
        decreases cursor
      {
        if !IsFolder(cursor.node) {
          var path := prefix + [cursor.name];
          var ignored := IsIgnored(ignore.rules, ignore.fits, path, false);
          if !(ignored && !IsReleaseControlOrAncestor(path)) {
            discovered := discovered + [Item(path, KindOf(cursor.node))];
          }
        }
        cursor := cursor.rest;
      }
    }

    /** The pruned walk finds exactly what the full walk keeps, in the same order. */
    method Walk(prefix: Path, listing: Listing)
      modifies this
      ensures discovered == AllFrom(ignore, old(discovered), prefix, listing)
      decreases Size(listing)
    {
      var visible := ListFolders(prefix, listing);
      ListFiles(prefix, listing);
      ghost var listed := discovered;
      for i := 0 to |visible|
        invariant discovered == EnteredFrom(ignore, listed, prefix, visible[..i])
      {
        Walk(prefix + [visible[i].0], visible[i].1);
        assert visible[..i + 1][..i] == visible[..i];
      }
      assert visible[..|visible|] == visible;
      assert BelowFrom(ignore, EnteredFrom(ignore, listed, prefix, visible), prefix, End) == discovered;
    }
  }

  // ----- the discovered inputs

  /** The relative path as one string, the key the result is sorted by. */
  function Joined(path: Path): string {
    if path == [] then "" else if |path| == 1 then path[0] else path[0] + "/" + Joined(path[1..])
  }

  function Keyed(items: seq<Item>): seq<Ordering.Keyed<Item>> {
    if items == [] then [] else [(Joined(items[0].path), items[0])] + Keyed(items[1..])
  }

  function ApplicationOnly(items: seq<Ordering.Keyed<Item>>): seq<Item> {
    if items == [] then []
    else if IsApplicationInput(items[0].1.path) then [items[0].1] + ApplicationOnly(items[1..])
    else ApplicationOnly(items[1..])
  }

  predicate SortedByPath(items: seq<Item>) {
    forall i, j :: 0 <= i < j < |items| ==> Ordering.Leq(Joined(items[i].path), Joined(items[j].path))
  }

  /** How often an item occurs among the application inputs kept by the full walk. */
  ghost function Wanted(ignore: Ignore, tree: Listing, item: Item): nat {
    if IsApplicationInput(item.path) then multiset(AllFrom(ignore, [], [], tree))[item] else 0
  }

  predicate HonestKeys(items: seq<Ordering.Keyed<Item>>) {
    forall i :: 0 <= i < |items| ==> items[i].0 == Joined(items[i].1.path)
  }

  lemma {:induction false} ApplicationOnlyCounts(items: seq<Ordering.Keyed<Item>>, item: Item)
    requires HonestKeys(items)
    ensures multiset(ApplicationOnly(items))[item] ==
            if IsApplicationInput(item.path) then multiset(items)[(Joined(item.path), item)] else 0
  {
    if items != [] {
      ApplicationOnlyCounts(items[1..], item);
      assert items == [items[0]] + items[1..];
    }
  }

  lemma {:induction false} ApplicationOnlySorted(items: seq<Ordering.Keyed<Item>>)
    requires HonestKeys(items) && Ordering.Sorted(items)
    ensures SortedByPath(ApplicationOnly(items))
  {
    if items != [] {
      ApplicationOnlySorted(items[1..]);
      var rest := ApplicationOnly(items[1..]);
      forall j | 0 <= j < |rest|
        ensures Ordering.Leq(items[0].0, Joined(rest[j].path))
      {
        ApplicationOnlyCounts(items[1..], rest[j]);
        assert rest[j] in multiset(rest);
        assert (Joined(rest[j].path), rest[j]) in items[1..];
      }
    }
  }

  lemma {:induction false} KeyedCounts(items: seq<Item>, item: Item)
    ensures multiset(Keyed(items))[(Joined(item.path), item)] == multiset(items)[item]
  {
    if items != [] {
      KeyedCounts(items[1..], item);
      assert items == [items[0]] + items[1..];
    }
  }

  lemma {:induction false} KeyedHonest(items: seq<Item>)
    ensures HonestKeys(Keyed(items))
  {
    if items != [] {
      KeyedHonest(items[1..]);
    }
  }

  lemma SortKeepsKeys(items: seq<Ordering.Keyed<Item>>)
    requires HonestKeys(items)
    ensures HonestKeys(Ordering.Sort(items))
  {
    var sorted := Ordering.Sort(items);
    Ordering.SortSorts(items);
    forall i | 0 <= i < |sorted|
      ensures sorted[i].0 == Joined(sorted[i].1.path)
    {
      assert sorted[i] in multiset(sorted);
      assert sorted[i] in items;
    }
  }

  lemma FoundCounts(items: seq<Item>, item: Item)
    ensures multiset(ApplicationOnly(Ordering.Sort(Keyed(items))))[item] ==
            if IsApplicationInput(item.path) then multiset(items)[item] else 0
    ensures SortedByPath(ApplicationOnly(Ordering.Sort(Keyed(items))))
  {
    KeyedCounts(items, item);
    KeyedHonest(items);
    SortKeepsKeys(Keyed(items));
    Ordering.SortSorts(Keyed(items));
    ApplicationOnlyCounts(Ordering.Sort(Keyed(items)), item);
    ApplicationOnlySorted(Ordering.Sort(Keyed(items)));
  }

  // ----- what is discovered, by the text of its path

  /** The listed inputs. */
  const LISTED: seq<string> := [
    ".github/workflows", ".dockerignore", ".grype.yaml", "Makefile", "apps/web", "cad", "cam",
    "compose.external-production.yml", "compose.registry.yml", "compose.yml", "infra", "package.json", "packages",
    "pnpm-lock.yaml", "pnpm-workspace.yaml", "postprocessors", "pyproject.toml", "scripts", "security", "services",
    "uv.lock"]

  /** `relative` is this input, or lies below it. */
  predicate AtOrBelow(relative: string, input: string) {
    relative == input || input + "/" <= relative
  }

  predicate IsListed(relative: string) {
    exists i :: 0 <= i < |LISTED| && AtOrBelow(relative, LISTED[i])
  }

  /** A name is not empty and has no slash. */
  predicate IsName(name: string) {
    name != "" && forall k :: 0 <= k < |name| ==> name[k] != '/'
  }

  predicate IsPath(path: Path) {
    path != [] && forall k :: 0 <= k < |path| ==> IsName(path[k])
  }

  /** Nothing, or a slash and whatever follows it. */
  predicate IsTail(tail: string) {
    tail == "" || tail[0] == '/'
  }

  /** What a joined path has after its first name. */
  function Tail(path: Path): (tail: string)
    requires path != []
    ensures IsTail(tail) && Joined(path) == path[0] + tail
  {
    if |path| == 1 then "" else "/" + Joined(path[1..])
  }

  lemma CharAt(a: string, x: string, k: nat)
    requires k < |a + x|
    ensures (a + x)[k] == if k < |a| then a[k] else x[k - |a|]
  {
  }

  /** A text is cut at its first slash in one way. */
  lemma FirstName(a: string, x: string, b: string, y: string)
    requires a + x == b + y && IsTail(x) && IsTail(y) && IsName(a) && IsName(b)
    ensures a == b && x == y
  {
    var k := if |a| <= |b| then |a| else |b|;
    if k < |a + x| {
      CharAt(a, x, k);
      CharAt(b, y, k);
    }
    assert |a| == |b|;
    assert a == (a + x)[..|a|] && b == (b + y)[..|b|];
    assert x == (a + x)[|a|..] && y == (b + y)[|b|..];
  }

  lemma TailsMeet(a: string, x: string, b: string, y: string, tail: string)
    requires a + x == (b + y) + tail && IsTail(x) && IsTail(y) && IsTail(tail) && IsName(a) && IsName(b)
    ensures a == b && x == y + tail
  {
    assert (b + y) + tail == b + (y + tail);
    FirstName(a, x, b, y + tail);
  }

  lemma {:induction false} JoinedPrefix(input: Path, path: Path, tail: string)
    requires IsPath(input) && IsPath(path) && IsTail(tail) && Joined(path) == Joined(input) + tail
    ensures input <= path
    decreases |input|
  {
    TailsMeet(path[0], Tail(path), input[0], Tail(input), tail);
    if |input| > 1 {
      assert Tail(path)[1..] == Joined(path[1..]);
      assert (Tail(input) + tail)[1..] == Joined(input[1..]) + tail;
      JoinedPrefix(input[1..], path[1..], tail);
      assert input == [input[0]] + input[1..] && path == [path[0]] + path[1..];
    }
  }

  lemma {:induction false} JoinedBelow(input: Path, below: Path)
    requires input != [] && below != []
    ensures Joined(input + below) == Joined(input) + "/" + Joined(below)
    decreases |input|
  {
    if |input| == 1 {
      assert (input + below)[1..] == below;
    } else {
      assert (input + below)[1..] == input[1..] + below;
      JoinedBelow(input[1..], below);
      assert Joined(input) == input[0] + "/" + Joined(input[1..]);
    }
  }

  /** Prefixes of paths are prefixes of their texts that end at a slash. */
  lemma PrefixIffBelow(input: Path, path: Path)
    requires IsPath(input) && IsPath(path)
    ensures input <= path <==> AtOrBelow(Joined(path), Joined(input))
  {
    if input < path {
      JoinedBelow(input, path[|input|..]);
      assert path == input + path[|input|..];
    }
    if AtOrBelow(Joined(path), Joined(input)) {
      var tail := Joined(path)[|Joined(input)|..];
      assert Joined(path) == Joined(input) + tail;
      assert IsTail(tail) by {
        if tail != "" { assert tail[0] == Joined(path)[|Joined(input)|] == (Joined(input) + "/")[|Joined(input)|]; }
      }
      JoinedPrefix(input, path, tail);
    }
  }

  lemma JoinedInput(i: nat)
    requires i < |APPLICATION_BUILD_INPUTS|
    ensures |LISTED| == |APPLICATION_BUILD_INPUTS| && Joined(APPLICATION_BUILD_INPUTS[i]) == LISTED[i]
  {
  }

  lemma InputIsPath(i: nat)
    requires i < |APPLICATION_BUILD_INPUTS|
    ensures IsPath(APPLICATION_BUILD_INPUTS[i])
  {
  }

  /** The application inputs, by text. */
  lemma ApplicationInputIff(path: Path)
    requires IsPath(path)
    ensures IsApplicationInput(path) <==> IsListed(Joined(path))
  {
    forall i | 0 <= i < |APPLICATION_BUILD_INPUTS|
      ensures |LISTED| == |APPLICATION_BUILD_INPUTS|
      ensures APPLICATION_BUILD_INPUTS[i] <= path <==> AtOrBelow(Joined(path), LISTED[i])
    {
      JoinedInput(i);
      InputIsPath(i);
      PrefixIffBelow(APPLICATION_BUILD_INPUTS[i], path);
    }
    JoinedInput(0);
  }

  /** Release control and the directories above it, by text. */
  lemma ReleaseControlIff(path: Path)
    requires IsPath(path)
    ensures IsReleaseControlOrAncestor(path) <==>
            AtOrBelow(Joined(path), ".github/workflows") || Joined(path) + "/" <= ".github/workflows"
  {
    JoinedInput(0);
    InputIsPath(0);
    PrefixIffBelow(RELEASE_CONTROL, path);
    PrefixIffBelow(path, RELEASE_CONTROL);
  }

  /** Everything at or below `.github/workflows`, whatever the rules say; of everything else what is
      at or below a listed input and not ignored. */
  ghost predicate Discovered(ignore: Ignore, item: Item) {
    var relative := Joined(item.path);
    || AtOrBelow(relative, ".github/workflows")
    || (IsListed(relative) && !Ignored(ignore.rules, ignore.fits, item.path, item.kind == DIRECTORY))
  }

  lemma DiscoveredIff(ignore: Ignore, item: Item)
    requires IsPath(item.path)
    ensures IsApplicationInput(item.path) && Keeps(ignore, item) <==> Discovered(ignore, item)
  {
    ApplicationInputIff(item.path);
    JoinedInput(0);
    InputIsPath(0);
    PrefixIffBelow(RELEASE_CONTROL, item.path);
    if item.path < RELEASE_CONTROL {
      NoInputAbove(item.path);
    }
  }

  /** The one directory above the workflows is not an application input. */
  lemma NoInputAbove(path: Path)
    requires path < RELEASE_CONTROL
    ensures !IsApplicationInput(path)
  {
    assert path == [] || path == [".github"];
    forall i | 0 <= i < |APPLICATION_BUILD_INPUTS|
      ensures !(APPLICATION_BUILD_INPUTS[i] <= path)
    {
      InputNotAbove(i);
    }
  }

  lemma InputNotAbove(i: nat)
    requires i < |APPLICATION_BUILD_INPUTS|
    ensures APPLICATION_BUILD_INPUTS[i] != []
    ensures |APPLICATION_BUILD_INPUTS[i]| > 1 || APPLICATION_BUILD_INPUTS[i][0] != ".github"
  {
    var input := APPLICATION_BUILD_INPUTS[i];
    assert |input| > 1 || |input[0]| != 7 || input[0][0] != '.';
  }

  /** The result holds every application input of the tree that is not ignored or belongs to
      release control, exactly as often as the full walk keeps it, and nothing else, sorted by
      path. */
  method DiscoverPaths(ignore: Ignore, tree: Listing) returns (found: seq<Item>)
    ensures SortedByPath(found)
    ensures forall item :: multiset(found)[item] == Wanted(ignore, tree, item)
    ensures forall item :: item in found <==>
              IsApplicationInput(item.path) && Keeps(ignore, item) && Occurs([], tree, item)
    ensures forall item: Item :: IsPath(item.path) ==> (item in found <==> Occurs([], tree, item) && Discovered(ignore, item))
  {
    var discovery := new Discovery(ignore);
    discovery.Walk([], tree);
    found := ApplicationOnly(Ordering.Sort(Keyed(discovery.discovered)));
    assert discovery.discovered == AllFrom(ignore, [], [], tree);
    forall item: Item
      ensures multiset(found)[item] == Wanted(ignore, tree, item)
      ensures item in found <==>
                IsApplicationInput(item.path) && Keeps(ignore, item) && Occurs([], tree, item)
    {
      FoundCounts(discovery.discovered, item);
      KeptExactly(ignore, [], [], tree, item);
      assert item in found <==> multiset(found)[item] > 0;
    }
    FoundCounts(discovery.discovered, Item([], FILE));
    forall item: Item | IsPath(item.path)
      ensures IsApplicationInput(item.path) && Keeps(ignore, item) <==> Discovered(ignore, item)
    {
      DiscoveredIff(ignore, item);
    }
  }
}
