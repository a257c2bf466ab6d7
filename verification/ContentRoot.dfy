/** The repository content root of scripts/source_manifest.py: framed leaf hashes, a Merkle tree
    that pairs an odd last node with itself, and a root that also hashes the leaf count. */
module ContentRoot {

  import opened Wrappers

  type Byte = b: int | 0 <= b < 256
  type Bytes = seq<Byte>
  type Hash = Bytes -> Bytes

  const DIGEST_SIZE: nat := 32
  const LENGTH_LIMIT: nat := 0x1_0000_0000_0000_0000

  function Ascii(s: string): Bytes
    requires forall i :: 0 <= i < |s| ==> s[i] < 128 as char
  {
    seq(|s|, i requires 0 <= i < |s| => s[i] as int)
  }

  const LEAF_DOMAIN: Bytes := Ascii("custombuild.repository-content-leaf.v1\0")
  const NODE_DOMAIN: Bytes := Ascii("custombuild.repository-content-node.v1\0")
  const ROOT_DOMAIN: Bytes := Ascii("custombuild.repository-content-root.v1\0")
  const EMPTY_TREE: Bytes := Ascii("empty")
  const SHA1: Bytes := Ascii("sha1")
  const SHA256: Bytes := Ascii("sha256")
  const MODE_REGULAR: Bytes := Ascii("100644")
  const MODE_EXECUTABLE: Bytes := Ascii("100755")

  ghost predicate HashSized(h: Hash) {
    forall m :: |h(m)| == DIGEST_SIZE
  }

  /** No two different messages among these have the same hash. */
  ghost predicate CollisionFree(h: Hash, messages: iset<Bytes>) {
    forall a, b :: a in messages && b in messages && h(a) == h(b) ==> a == b
  }

  // ----- eight-byte lengths

  function BigEndian(n: nat, width: nat): Bytes {
    if width == 0 then [] else BigEndian(n / 256, width - 1) + [n % 256]
  }

  function Length8(n: nat): Bytes
    requires n < LENGTH_LIMIT
  {
    BigEndian(n, 8)
  }

  function Power256(width: nat): nat {
    if width == 0 then 1 else 256 * Power256(width - 1)
  }

  lemma {:induction false} BigEndianSize(n: nat, width: nat)
    ensures |BigEndian(n, width)| == width
  {
    if width > 0 {
      BigEndianSize(n / 256, width - 1);
    }
  }

  lemma {:induction false} BigEndianInjective(m: nat, n: nat, width: nat)
    requires m < Power256(width) && n < Power256(width)
    requires BigEndian(m, width) == BigEndian(n, width)
    ensures m == n
  {
    if width > 0 {
      var a, b := BigEndian(m / 256, width - 1), BigEndian(n / 256, width - 1);
      BigEndianSize(m / 256, width - 1);
      BigEndianSize(n / 256, width - 1);
      assert a == BigEndian(m, width)[..width - 1];
      assert b == BigEndian(n, width)[..width - 1];
      assert BigEndian(m, width)[width - 1] == BigEndian(n, width)[width - 1];
      BigEndianInjective(m / 256, n / 256, width - 1);
    }
  }

  lemma Length8Injective(m: nat, n: nat)
    requires m < LENGTH_LIMIT && n < LENGTH_LIMIT
    ensures |Length8(m)| == 8
    ensures Length8(m) == Length8(n) ==> m == n
  {
    BigEndianSize(m, 8);
    EightBytesSuffice();
    if Length8(m) == Length8(n) {
      BigEndianInjective(m, n, 8);
    }
  }

  /** Two equal concatenations whose first parts have the same length agree part by part. */
  lemma SplitEqual(a: Bytes, b: Bytes, c: Bytes, d: Bytes)
    requires a + b == c + d && |a| == |c|
    ensures a == c && b == d
  {
    assert a == (a + b)[..|a|] == (c + d)[..|c|] == c;
    assert b == (a + b)[|a|..] == (c + d)[|c|..] == d;
  }

  // ----- leaves

  /** One tracked file: its path, Git mode, content and Git object id. */
  datatype Entry = Entry(path: Bytes, mode: Bytes, payload: Bytes, objectId: Bytes)

  predicate ValidEntry(e: Entry) {
    && |e.path| < LENGTH_LIMIT && |e.payload| < LENGTH_LIMIT
    && (e.mode == MODE_REGULAR || e.mode == MODE_EXECUTABLE)
  }

  predicate ValidFormat(format: Bytes) {
    format == SHA1 || format == SHA256
  }

  function LeafMessage(e: Entry, format: Bytes): Bytes
    requires ValidEntry(e)
  {
    LEAF_DOMAIN +
    (Length8(|e.path|) +
     (e.path +
      (e.mode +
       (Length8(|e.payload|) +
        (e.payload +
         (format + [0] + e.objectId))))))
  }

  /** The framing loses nothing. */
  lemma LeafInjective(d: Entry, e: Entry, format: Bytes)
    requires ValidEntry(d) && ValidEntry(e)
    requires LeafMessage(d, format) == LeafMessage(e, format)
    ensures d == e
  {
    Length8Injective(|d.path|, |e.path|);
    Length8Injective(|e.path|, |d.path|);
    Length8Injective(|d.payload|, |e.payload|);
    Length8Injective(|e.payload|, |d.payload|);
    assert |d.mode| == |e.mode| == 6;
    var d5, e5 := format + [0] + d.objectId, format + [0] + e.objectId;
    var d4, e4 := d.payload + d5, e.payload + e5;
    var d3, e3 := Length8(|d.payload|) + d4, Length8(|e.payload|) + e4;
    var d2, e2 := d.mode + d3, e.mode + e3;
    var d1, e1 := d.path + d2, e.path + e2;
    SplitEqual(LEAF_DOMAIN, Length8(|d.path|) + d1, LEAF_DOMAIN, Length8(|e.path|) + e1);
    SplitEqual(Length8(|d.path|), d1, Length8(|e.path|), e1);
    SplitEqual(d.path, d2, e.path, e2);
    SplitEqual(d.mode, d3, e.mode, e3);
    SplitEqual(Length8(|d.payload|), d4, Length8(|e.payload|), e4);
    SplitEqual(d.payload, d5, e.payload, e5);
    SplitEqual(format + [0], d.objectId, format + [0], e.objectId);
  }

  // ----- reading a leaf message

  /** The number that big-endian bytes say. */
  function Value(bytes: Bytes): nat {
    if bytes == [] then 0 else 256 * Value(bytes[..|bytes| - 1]) + bytes[|bytes| - 1]
  }

  lemma {:induction false} ValueOfBigEndian(n: nat, width: nat)
    requires n < Power256(width)
    ensures |BigEndian(n, width)| == width && Value(BigEndian(n, width)) == n
  {
    if width > 0 {
      ValueOfBigEndian(n / 256, width - 1);
      assert BigEndian(n, width)[..width - 1] == BigEndian(n / 256, width - 1);
    }
  }

  /** The first `n` bytes, and what follows them. */
  function Take(bytes: Bytes, n: nat): Option<(Bytes, Bytes)> {
    if n <= |bytes| then Some((bytes[..n], bytes[n..])) else None
  }

  /** Bytes preceded by their number in eight bytes, and what follows them. */
  function TakeFramed(bytes: Bytes): Option<(Bytes, Bytes)> {
    match Take(bytes, 8)
    case None => None
    case Some((size, rest)) => Take(rest, Value(size))
  }

  /** Reads a message back, field by field: path, mode of six bytes, content, then what is left. */
  function ReadLeaf(message: Bytes): Option<(Bytes, Bytes, Bytes, Bytes)> {
    match Take(message, 39)
    case None => None
    case Some((domain, framed)) =>
      if domain != Ascii("custombuild.repository-content-leaf.v1\0") then None
      else
        match TakeFramed(framed)
        case None => None
        case Some((path, afterPath)) =>
          match Take(afterPath, 6)
          case None => None
          case Some((mode, afterMode)) =>
            match TakeFramed(afterMode)
            case None => None
            case Some((payload, rest)) => Some((path, mode, payload, rest))
  }

  lemma TakeBack(a: Bytes, b: Bytes)
    ensures Take(a + b, |a|) == Some((a, b))
  {
  }

  lemma FramedBack(a: Bytes, b: Bytes)
    requires |a| < LENGTH_LIMIT
    ensures TakeFramed(Length8(|a|) + (a + b)) == Some((a, b))
  {
    EightBytesSuffice();
    ValueOfBigEndian(|a|, 8);
    TakeBack(Length8(|a|), a + b);
    TakeBack(a, b);
  }

  lemma EightBytesSuffice()
    ensures Power256(8) == LENGTH_LIMIT
  {
    assert Power256(2) == 65536;
    assert Power256(4) == 65536 * 65536;
    assert Power256(6) == 65536 * 65536 * 65536;
  }

  /** Reading a leaf message gives the path, the mode, the content, and then the object format, a zero
      byte and the object id. */
  lemma LeafReadsBack(e: Entry, format: Bytes)
    requires ValidEntry(e)
    ensures ReadLeaf(LeafMessage(e, format)) == Some((e.path, e.mode, e.payload, format + [0] + e.objectId))
  {
    var rest := format + [0] + e.objectId;
    var content := Length8(|e.payload|) + (e.payload + rest);
    TakeBack(LEAF_DOMAIN, Length8(|e.path|) + (e.path + (e.mode + content)));
    FramedBack(e.path, e.mode + content);
    TakeBack(e.mode, content);
    FramedBack(e.payload, rest);
  }

  // ----- the tree

  function NodeMessage(left: Bytes, right: Bytes): Bytes {
    NODE_DOMAIN + left + right
  }

  /** The right partner of the node at an even position; the last one may be its own partner. */
  function Partner(level: seq<Bytes>, i: nat): Bytes
    requires i < |level|
  {
    if i + 1 < |level| then level[i + 1] else level[i]
  }

  function PairMessage(level: seq<Bytes>, k: nat): Bytes
    requires 2 * k < |level|
  {
    NodeMessage(level[2 * k], Partner(level, 2 * k))
  }

  function NextLevel(h: Hash, level: seq<Bytes>): seq<Bytes> {
    seq((|level| + 1) / 2, k requires 0 <= k < (|level| + 1) / 2 => h(PairMessage(level, k)))
  }

  function Tree(h: Hash, level: seq<Bytes>): Bytes
    decreases |level|
  {
    if level == [] then h(NODE_DOMAIN + EMPTY_TREE)
    else if |level| == 1 then level[0]
    else Tree(h, NextLevel(h, level))
  }

  function RootMessage(h: Hash, leaves: seq<Bytes>, format: Bytes): Bytes
    requires |leaves| < LENGTH_LIMIT
  {
    ROOT_DOMAIN + (format + ([0] + (Length8(|leaves|) + Tree(h, leaves))))
  }

  /** The loop that computes the root, level by level. */
  method MerkleRoot(h: Hash, leaves: seq<Bytes>, format: Bytes) returns (root: Bytes)
    requires |leaves| < LENGTH_LIMIT
    ensures root == h(RootMessage(h, leaves, format))
  {
    var tree;
    if leaves == [] {
      tree := h(NODE_DOMAIN + EMPTY_TREE);
    } else {
      var level := leaves;
      while |level| > 1
        invariant level != [] && Tree(h, level) == Tree(h, leaves)
        decreases |level|
      {
        var nextLevel: seq<Bytes> := [];
        var index := 0;
        while index < |level|
          invariant index % 2 == 0 && 0 <= index <= |level| + 1
          invariant |nextLevel| == index / 2
          invariant forall k :: 0 <= k < |nextLevel| ==> nextLevel[k] == h(PairMessage(level, k))
        {
          var left := level[index];
          var right := if index + 1 < |level| then level[index + 1] else left;
          nextLevel := nextLevel + [h(NODE_DOMAIN + left + right)];
          index := index + 2;
        }
        assert nextLevel == NextLevel(h, level);
        level := nextLevel;
      }
      tree := level[0];
    }
    root := h(ROOT_DOMAIN + (format + ([0] + (Length8(|leaves|) + tree))));
  }

  /** The node messages hashed on the way from this level to the top are all among `messages`. */
  ghost predicate HashesWithin(h: Hash, level: seq<Bytes>, messages: iset<Bytes>)
    decreases |level|
  {
    |level| > 1 ==>
      && (forall k :: 0 <= k < (|level| + 1) / 2 ==> PairMessage(level, k) in messages)
      && HashesWithin(h, NextLevel(h, level), messages)
  }

  predicate DigestSized(level: seq<Bytes>) {
    forall i :: 0 <= i < |level| ==> |level[i]| == DIGEST_SIZE
  }

  /** Levels of the same length under the same top are the same level. */
  lemma {:induction false} TreeInjective(h: Hash, a: seq<Bytes>, b: seq<Bytes>, messages: iset<Bytes>)
    requires HashSized(h) && CollisionFree(h, messages)
    requires |a| == |b| && DigestSized(a) && DigestSized(b)
    requires HashesWithin(h, a, messages) && HashesWithin(h, b, messages)
    requires Tree(h, a) == Tree(h, b)
    ensures a == b
    decreases |a|
  {
    if |a| > 1 {
      TreeInjective(h, NextLevel(h, a), NextLevel(h, b), messages);
      LevelInjective(h, a, b, messages);
    }
  }

  lemma LevelInjective(h: Hash, a: seq<Bytes>, b: seq<Bytes>, messages: iset<Bytes>)
    requires CollisionFree(h, messages)
    requires |a| == |b| > 1 && DigestSized(a) && DigestSized(b)
    requires forall k :: 0 <= k < (|a| + 1) / 2 ==> PairMessage(a, k) in messages && PairMessage(b, k) in messages
    requires NextLevel(h, a) == NextLevel(h, b)
    ensures a == b
  {
    forall i | 0 <= i < |a|
      ensures a[i] == b[i]
    {
      PairsAgree(h, a, b, i / 2, messages);
    }
  }

  lemma PairsAgree(h: Hash, a: seq<Bytes>, b: seq<Bytes>, k: nat, messages: iset<Bytes>)
    requires CollisionFree(h, messages)
    requires |a| == |b| && DigestSized(a) && DigestSized(b) && 2 * k < |a| && |a| > 1
    requires PairMessage(a, k) in messages && PairMessage(b, k) in messages
    requires NextLevel(h, a) == NextLevel(h, b)
    ensures a[2 * k] == b[2 * k]
    ensures 2 * k + 1 < |a| ==> a[2 * k + 1] == b[2 * k + 1]
  {
    assert NextLevel(h, a)[k] == h(PairMessage(a, k));
    assert NextLevel(h, b)[k] == h(PairMessage(b, k));
    assert PairMessage(a, k) == PairMessage(b, k);
    SplitEqual(NODE_DOMAIN + a[2 * k], Partner(a, 2 * k), NODE_DOMAIN + b[2 * k], Partner(b, 2 * k));
    SplitEqual(NODE_DOMAIN, a[2 * k], NODE_DOMAIN, b[2 * k]);
  }

  lemma PairsJoin(a: seq<Bytes>, b: seq<Bytes>, m: nat, k: nat)
    requires |a| == 2 * m && 2 * k < |a + b|
    ensures PairMessage(a + b, k) == if k < m then PairMessage(a, k) else PairMessage(b, k - m)
  {
    var c := a + b;
    if k < m {
      assert c[2 * k] == a[2 * k] && c[2 * k + 1] == a[2 * k + 1];
    } else {
      assert c[2 * k] == b[2 * (k - m)];
    }
  }

  lemma LevelsJoin(h: Hash, a: seq<Bytes>, b: seq<Bytes>, m: nat)
    requires |a| == 2 * m
    ensures NextLevel(h, a + b) == NextLevel(h, a) + NextLevel(h, b)
  {
    assert |NextLevel(h, a)| == m;
    forall k | 0 <= k < |NextLevel(h, a + b)|
      ensures NextLevel(h, a + b)[k] == (NextLevel(h, a) + NextLevel(h, b))[k]
    {
      PairsJoin(a, b, m, k);
    }
  }

  /** The left half stands before the right half under every node. */
  lemma {:induction false} HalvesMeet(h: Hash, a: seq<Bytes>, b: seq<Bytes>, d: nat)
    requires |a| == |b| == Power2(d)
    ensures Tree(h, a + b) == h(Ascii("custombuild.repository-content-node.v1\0") + Tree(h, a) + Tree(h, b))
    decreases d
  {
    if d == 0 {
      assert PairMessage(a + b, 0) == NODE_DOMAIN + a[0] + b[0];
      assert NextLevel(h, a + b) == [h(PairMessage(a + b, 0))];
    } else {
      LevelsJoin(h, a, b, Power2(d - 1));
      HalvesMeet(h, NextLevel(h, a), NextLevel(h, b), d - 1);
    }
  }

  lemma EightBytesOf3()
    ensures Length8(3) == [0, 0, 0, 0, 0, 0, 0, 3]
  {
    assert BigEndian(0, 0) == [];
    assert BigEndian(0, 1) == [0];
    assert BigEndian(0, 2) == [0, 0];
    assert BigEndian(0, 3) == [0, 0, 0];
    assert BigEndian(0, 4) == [0, 0, 0, 0];
    assert BigEndian(0, 5) == [0, 0, 0, 0, 0];
    assert BigEndian(0, 6) == [0, 0, 0, 0, 0, 0];
    assert BigEndian(0, 7) == [0, 0, 0, 0, 0, 0, 0];
  }

  /** Three leaves, the last of them its own partner, under the root. */
  lemma RootOfThree(h: Hash, a: Bytes, b: Bytes, c: Bytes, format: Bytes)
    ensures var node := Ascii("custombuild.repository-content-node.v1\0");
            RootMessage(h, [a, b, c], format) ==
              Ascii("custombuild.repository-content-root.v1\0")
              + (format + ([0] + ([0, 0, 0, 0, 0, 0, 0, 3] + h(node + h(node + a + b) + h(node + c + c)))))
  {
    var level := [a, b, c];
    var up := NextLevel(h, level);
    assert PairMessage(level, 0) == NODE_DOMAIN + a + b && PairMessage(level, 1) == NODE_DOMAIN + c + c;
    assert up == [h(NODE_DOMAIN + a + b), h(NODE_DOMAIN + c + c)];
    assert PairMessage(up, 0) == NODE_DOMAIN + up[0] + up[1];
    var top := NextLevel(h, up);
    assert top == [h(NODE_DOMAIN + up[0] + up[1])];
    assert Tree(h, level) == Tree(h, up);
    assert Tree(h, up) == Tree(h, top) == top[0];
    assert Tree(h, level) == h(NODE_DOMAIN + h(NODE_DOMAIN + a + b) + h(NODE_DOMAIN + c + c));
    EightBytesOf3();
  }

  lemma RepetitionHidden(h: Hash, leaves: seq<Bytes>)
    requires |leaves| % 2 == 1
    ensures NextLevel(h, leaves + [leaves[|leaves| - 1]]) == NextLevel(h, leaves)
  {
    var longer := leaves + [leaves[|leaves| - 1]];
    forall k | 0 <= k < (|leaves| + 1) / 2
      ensures h(PairMessage(longer, k)) == h(PairMessage(leaves, k))
    {
      assert longer[2 * k] == leaves[2 * k];
      assert Partner(longer, 2 * k) == Partner(leaves, 2 * k);
    }
  }

  /** The tree alone does not identify its leaves: repeating the last of an odd number of leaves,
      three or more, leaves the tree as it was. */
  lemma TreeForgetsRepetition(h: Hash, leaves: seq<Bytes>)
    requires |leaves| >= 3 && |leaves| % 2 == 1
    ensures Tree(h, leaves + [leaves[|leaves| - 1]]) == Tree(h, leaves)
  {
    RepetitionHidden(h, leaves);
  }

  // ----- when different leaves share a tree

  function Height(n: nat): nat {
    if n <= 1 then 0 else 1 + Height((n + 1) / 2)
  }

  function Power2(d: nat): nat {
    if d == 0 then 1 else 2 * Power2(d - 1)
  }

  /** Which of `n` leaves stands at position `j` of the full binary tree of depth `d`: below each
      node the two it was made of, the last one twice where it had no partner. */
  function Origin(n: nat, d: nat, j: nat): (i: nat)
    requires n > 0
    ensures i < n
    decreases d
  {
    if d == 0 then 0
    else
      var child := 2 * Origin((n + 1) / 2, d - 1, j / 2) + j % 2;
      if child < n then child else n - 1
  }

  lemma NodesAgree(h: Hash, a: seq<Bytes>, b: seq<Bytes>, k: nat, m: nat, messages: iset<Bytes>)
    requires CollisionFree(h, messages) && DigestSized(a) && DigestSized(b)
    requires 2 * k < |a| && 2 * m < |b|
    requires PairMessage(a, k) in messages && PairMessage(b, m) in messages
    ensures NextLevel(h, a)[k] == NextLevel(h, b)[m] <==>
              a[2 * k] == b[2 * m] && Partner(a, 2 * k) == Partner(b, 2 * m)
  {
    if NextLevel(h, a)[k] == NextLevel(h, b)[m] {
      assert PairMessage(a, k) == PairMessage(b, m);
      SplitEqual(NODE_DOMAIN + a[2 * k], Partner(a, 2 * k), NODE_DOMAIN + b[2 * m], Partner(b, 2 * m));
      SplitEqual(NODE_DOMAIN, a[2 * k], NODE_DOMAIN, b[2 * m]);
    }
  }

  /** Position `j` of one level down is read off the two children of position `j`. */
  lemma Children(level: seq<Bytes>, d: nat, j: nat)
    requires |level| > 0
    ensures var p := Origin((|level| + 1) / 2, d, j);
            && 2 * p < |level|
            && level[Origin(|level|, d + 1, 2 * j)] == level[2 * p]
            && level[Origin(|level|, d + 1, 2 * j + 1)] == Partner(level, 2 * p)
  {
    assert (2 * j) / 2 == j && (2 * j) % 2 == 0 && (2 * j + 1) / 2 == j && (2 * j + 1) % 2 == 1;
  }

  /** Position `j` of the full tree holds the same leaf for both. */
  predicate SameAt(a: seq<Bytes>, b: seq<Bytes>, d: nat, j: nat)
    requires a != [] && b != []
  {
    a[Origin(|a|, d, j)] == b[Origin(|b|, d, j)]
  }

  /** Spread out over the full tree, both sequences are the same. */
  predicate SameSpread(a: seq<Bytes>, b: seq<Bytes>, d: nat)
    requires a != [] && b != []
  {
    forall j :: 0 <= j < Power2(d) ==> SameAt(a, b, d, j)
  }

  lemma SameOneLevelDown(h: Hash, a: seq<Bytes>, b: seq<Bytes>, d: nat, j: nat, messages: iset<Bytes>)
    requires CollisionFree(h, messages) && DigestSized(a) && DigestSized(b) && a != [] && b != []
    requires forall k :: 0 <= k < (|a| + 1) / 2 ==> PairMessage(a, k) in messages
    requires forall k :: 0 <= k < (|b| + 1) / 2 ==> PairMessage(b, k) in messages
    ensures SameAt(NextLevel(h, a), NextLevel(h, b), d, j) <==>
              SameAt(a, b, d + 1, 2 * j) && SameAt(a, b, d + 1, 2 * j + 1)
  {
    Children(a, d, j);
    Children(b, d, j);
    NodesAgree(h, a, b, Origin((|a| + 1) / 2, d, j), Origin((|b| + 1) / 2, d, j), messages);
  }

  lemma SpreadOneLevelDown(h: Hash, a: seq<Bytes>, b: seq<Bytes>, d: nat, messages: iset<Bytes>)
    requires CollisionFree(h, messages) && DigestSized(a) && DigestSized(b) && a != [] && b != []
    requires forall k :: 0 <= k < (|a| + 1) / 2 ==> PairMessage(a, k) in messages
    requires forall k :: 0 <= k < (|b| + 1) / 2 ==> PairMessage(b, k) in messages
    ensures SameSpread(NextLevel(h, a), NextLevel(h, b), d) <==> SameSpread(a, b, d + 1)
  {
    var na, nb, below := NextLevel(h, a), NextLevel(h, b), d + 1;
    if SameSpread(na, nb, d) {
      forall i: nat | i < Power2(below) ensures SameAt(a, b, below, i) {
        SameOneLevelDown(h, a, b, d, i / 2, messages);
        assert SameAt(na, nb, d, i / 2);
        assert i == 2 * (i / 2) || i == 2 * (i / 2) + 1;
      }
    }
    if SameSpread(a, b, d + 1) {
      forall j: nat | j < Power2(d) ensures SameAt(na, nb, d, j) {
        assert SameAt(a, b, d + 1, 2 * j) && SameAt(a, b, d + 1, 2 * j + 1);
        SameOneLevelDown(h, a, b, d, j, messages);
      }
    }
  }

  lemma {:induction false} TreesOfOneHeight(h: Hash, a: seq<Bytes>, b: seq<Bytes>, messages: iset<Bytes>)
    requires HashSized(h) && CollisionFree(h, messages)
    requires a != [] && b != [] && DigestSized(a) && DigestSized(b) && Height(|a|) == Height(|b|)
    requires HashesWithin(h, a, messages) && HashesWithin(h, b, messages)
    ensures Tree(h, a) == Tree(h, b) <==> SameSpread(a, b, Height(|a|))
    decreases |a|
  {
    if |a| == 1 {
      assert SameAt(a, b, 0, 0) <==> a[0] == b[0];
    } else {
      TreesOfOneHeight(h, NextLevel(h, a), NextLevel(h, b), messages);
      SpreadOneLevelDown(h, a, b, Height((|a| + 1) / 2), messages);
    }
  }

  ghost predicate IsLeaf(h: Hash, v: Bytes, messages: iset<Bytes>) {
    exists m :: m in messages && LEAF_DOMAIN <= m && v == h(m)
  }

  ghost predicate IsNode(h: Hash, v: Bytes, l: Bytes, r: Bytes, messages: iset<Bytes>) {
    |l| == |r| == DIGEST_SIZE && NodeMessage(l, r) in messages && v == h(NodeMessage(l, r))
  }

  /** A digest from which `d` steps to the left lead to a leaf. */
  ghost predicate Graded(h: Hash, v: Bytes, d: nat, messages: iset<Bytes>)
    decreases d
  {
    if d == 0 then IsLeaf(h, v, messages)
    else exists l, r :: IsNode(h, v, l, r, messages) && Graded(h, l, d - 1, messages)
  }

  lemma LeafIsNoNode(h: Hash, v: Bytes, l: Bytes, r: Bytes, messages: iset<Bytes>)
    requires CollisionFree(h, messages) && IsNode(h, v, l, r, messages)
    ensures !IsLeaf(h, v, messages)
  {
    var node := NodeMessage(l, r);
    assert node[31] == NODE_DOMAIN[31] != LEAF_DOMAIN[31];
    assert !(LEAF_DOMAIN <= node);
  }

  /** Without collisions a digest stands at one height only. */
  lemma {:induction false} OneGrade(h: Hash, v: Bytes, c: nat, d: nat, messages: iset<Bytes>)
    requires CollisionFree(h, messages) && Graded(h, v, c, messages) && Graded(h, v, d, messages)
    ensures c == d
    decreases c
  {
    if c > 0 {
      var l, r :| IsNode(h, v, l, r, messages) && Graded(h, l, c - 1, messages);
      LeafIsNoNode(h, v, l, r, messages);
      var x, y :| IsNode(h, v, x, y, messages) && Graded(h, x, d - 1, messages);
      NodeParts(h, v, l, r, x, y, messages);
      OneGrade(h, l, c - 1, d - 1, messages);
    } else if d > 0 {
      var l, r :| IsNode(h, v, l, r, messages);
      LeafIsNoNode(h, v, l, r, messages);
    }
  }

  lemma NodeParts(h: Hash, v: Bytes, l: Bytes, r: Bytes, x: Bytes, y: Bytes, messages: iset<Bytes>)
    requires CollisionFree(h, messages) && IsNode(h, v, l, r, messages) && IsNode(h, v, x, y, messages)
    ensures l == x && r == y
  {
    SplitEqual(NODE_DOMAIN + l, r, NODE_DOMAIN + x, y);
    SplitEqual(NODE_DOMAIN, l, NODE_DOMAIN, x);
  }

  lemma {:induction false} TopIsGraded(h: Hash, level: seq<Bytes>, d: nat, messages: iset<Bytes>)
    requires HashSized(h) && level != [] && DigestSized(level)
    requires Graded(h, level[0], d, messages) && HashesWithin(h, level, messages)
    ensures Graded(h, Tree(h, level), d + Height(|level|), messages)
    decreases |level|
  {
    if |level| > 1 {
      var up := NextLevel(h, level);
      assert PairMessage(level, 0) in messages && up[0] == h(PairMessage(level, 0));
      assert IsNode(h, up[0], level[0], Partner(level, 0), messages);
      TopIsGraded(h, up, d + 1, messages);
    }
  }

  /** The leaves a tree was made of, digests of leaf messages at least on the left edge, and what was
      hashed on the way to its top. */
  ghost predicate Planted(h: Hash, level: seq<Bytes>, messages: iset<Bytes>) {
    && level != [] && DigestSized(level) && IsLeaf(h, level[0], messages)
    && HashesWithin(h, level, messages)
  }

  lemma TopGrade(h: Hash, level: seq<Bytes>, messages: iset<Bytes>) returns (grade: nat)
    requires HashSized(h) && Planted(h, level, messages)
    ensures grade == Height(|level|) && Graded(h, Tree(h, level), grade, messages)
  {
    grade := Height(|level|);
    TopIsGraded(h, level, 0, messages);
  }

  lemma EqualTopsEqualHeights(h: Hash, a: seq<Bytes>, b: seq<Bytes>, messages: iset<Bytes>)
    requires HashSized(h) && CollisionFree(h, messages)
    requires Planted(h, a, messages) && Planted(h, b, messages) && Tree(h, a) == Tree(h, b)
    ensures Height(|a|) == Height(|b|)
  {
    var c := TopGrade(h, a, messages);
    var d := TopGrade(h, b, messages);
    OneGrade(h, Tree(h, a), c, d, messages);
  }

  /** Exactly when two sequences of leaves share a tree: their trees are equally high, and spread out
      over the full tree, every last node without a partner standing twice, they are the same. */
  lemma SameTreeIff(h: Hash, a: seq<Bytes>, b: seq<Bytes>, messages: iset<Bytes>)
    requires HashSized(h) && CollisionFree(h, messages)
    requires Planted(h, a, messages) && Planted(h, b, messages)
    ensures Tree(h, a) == Tree(h, b) <==> Height(|a|) == Height(|b|) && SameSpread(a, b, Height(|a|))
  {
    if Height(|a|) == Height(|b|) {
      TreesOfOneHeight(h, a, b, messages);
    } else if Tree(h, a) == Tree(h, b) {
      EqualTopsEqualHeights(h, a, b, messages);
    }
  }

  // ----- the root

  function Leaves(h: Hash, entries: seq<Entry>, format: Bytes): seq<Bytes>
    requires forall i :: 0 <= i < |entries| ==> ValidEntry(entries[i])
  {
    seq(|entries|, i requires 0 <= i < |entries| => h(LeafMessage(entries[i], format)))
  }

  /** A snapshot that reaches the hash: supported format, framed entries, fewer than 2^64 of them. */
  predicate ValidSnapshot(entries: seq<Entry>, format: Bytes) {
    && ValidFormat(format) && |entries| < LENGTH_LIMIT
    && forall i :: 0 <= i < |entries| ==> ValidEntry(entries[i])
  }

  function Root(h: Hash, entries: seq<Entry>, format: Bytes): Bytes
    requires ValidSnapshot(entries, format)
  {
    h(RootMessage(h, Leaves(h, entries, format), format))
  }

  /** Every message hashed for this root is among `messages`. */
  ghost predicate RootWithin(h: Hash, entries: seq<Entry>, format: Bytes, messages: iset<Bytes>)
    requires ValidSnapshot(entries, format)
  {
    && RootMessage(h, Leaves(h, entries, format), format) in messages
    && HashesWithin(h, Leaves(h, entries, format), messages)
    && forall i :: 0 <= i < |entries| ==> LeafMessage(entries[i], format) in messages
  }

  /** The leaves of a snapshot are such leaves, so `SameTreeIff` speaks of any two snapshots. */
  lemma SnapshotIsPlanted(h: Hash, entries: seq<Entry>, format: Bytes, messages: iset<Bytes>)
    requires HashSized(h) && ValidSnapshot(entries, format) && entries != []
    requires RootWithin(h, entries, format, messages)
    ensures Planted(h, Leaves(h, entries, format), messages)
  {
    var m := LeafMessage(entries[0], format);
    assert LEAF_DOMAIN <= m && m in messages && Leaves(h, entries, format)[0] == h(m);
  }

  lemma RootMessageInjective(h: Hash, a: seq<Bytes>, f: Bytes, b: seq<Bytes>, g: Bytes)
    requires |a| < LENGTH_LIMIT && |b| < LENGTH_LIMIT && ValidFormat(f) && ValidFormat(g)
    requires RootMessage(h, a, f) == RootMessage(h, b, g)
    ensures f == g && |a| == |b| && Tree(h, a) == Tree(h, b)
  {
    var restA, restB := Length8(|a|) + Tree(h, a), Length8(|b|) + Tree(h, b);
    SplitEqual(ROOT_DOMAIN, f + ([0] + restA), ROOT_DOMAIN, g + ([0] + restB));
    assert (f + ([0] + restA))[4] == (g + ([0] + restB))[4];
    SplitEqual(f, [0] + restA, g, [0] + restB);
    SplitEqual([0], restA, [0], restB);
    Length8Injective(|a|, |b|);
    Length8Injective(|b|, |a|);
    SplitEqual(Length8(|a|), Tree(h, a), Length8(|b|), Tree(h, b));
  }

  /** Equal roots mean the same object format and the same sequence of paths, modes, contents and
      object ids, unless two of the messages hashed for them collide. */
  lemma RootIdentifiesContent(h: Hash, d: seq<Entry>, f: Bytes, e: seq<Entry>, g: Bytes, messages: iset<Bytes>)
    requires HashSized(h) && CollisionFree(h, messages)
    requires ValidSnapshot(d, f) && ValidSnapshot(e, g)
    requires RootWithin(h, d, f, messages) && RootWithin(h, e, g, messages)
    ensures Root(h, d, f) == Root(h, e, g) <==> f == g && d == e
  {
    if Root(h, d, f) == Root(h, e, g) {
      var a, b := Leaves(h, d, f), Leaves(h, e, g);
      RootMessageInjective(h, a, f, b, g);
      TreeInjective(h, a, b, messages);
      forall i | 0 <= i < |d|
        ensures d[i] == e[i]
      {
        assert a[i] == h(LeafMessage(d[i], f)) && b[i] == h(LeafMessage(e[i], g));
        LeafInjective(d[i], e[i], f);
      }
    }
  }

  /** The collision it takes: with equal roots of different contents, two different messages that
      were hashed for them have the same hash. */
  lemma DifferentContentNeedsCollision(h: Hash, d: seq<Entry>, f: Bytes, e: seq<Entry>, g: Bytes, messages: iset<Bytes>)
    requires HashSized(h)
    requires ValidSnapshot(d, f) && ValidSnapshot(e, g)
    requires RootWithin(h, d, f, messages) && RootWithin(h, e, g, messages)
    requires Root(h, d, f) == Root(h, e, g) && !(f == g && d == e)
    ensures exists m, n :: m in messages && n in messages && m != n && h(m) == h(n)
  {
    if CollisionFree(h, messages) {
      RootIdentifiesContent(h, d, f, e, g, messages);
    }
  }
}
