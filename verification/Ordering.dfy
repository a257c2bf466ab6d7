/** Code-point order on strings, and sorting by a key. */
module Ordering {

  /** Lexicographic order, as Python compares `str`. */
  predicate Leq(a: string, b: string) {
    a == "" || (b != "" && (a[0] < b[0] || (a[0] == b[0] && Leq(a[1..], b[1..]))))
  }

  /** `a` and `b` agree up to position `k`. */
  predicate AgreeUpTo(a: string, b: string, k: nat) {
    k <= |a| && k <= |b| && a[..k] == b[..k]
  }

  /** Either `a` is a prefix of `b`, or at the first difference it has the smaller code point. */
  lemma {:induction false} LeqMeans(a: string, b: string)
    ensures Leq(a, b) <==>
              a <= b || exists k: nat :: k < |a| && k < |b| && AgreeUpTo(a, b, k) && (a[k] as int) < (b[k] as int)
  {
    if a != "" && b != "" && a[0] == b[0] {
      LeqMeans(a[1..], b[1..]);
      assert a <= b <==> a[1..] <= b[1..];
      forall k: nat | k < |a[1..]| && k < |b[1..]|
        ensures AgreeUpTo(a[1..], b[1..], k) <==> AgreeUpTo(a, b, k + 1)
      {
        assert a[..k + 1] == [a[0]] + a[1..][..k] && b[..k + 1] == [b[0]] + b[1..][..k];
      }
      if k: nat :| k < |a| && k < |b| && AgreeUpTo(a, b, k) && (a[k] as int) < (b[k] as int) {
        assert AgreeUpTo(a, b, k - 1 + 1) <==> AgreeUpTo(a[1..], b[1..], k - 1);
        assert a[1..][k - 1] == a[k] && b[1..][k - 1] == b[k];
      }
      if k: nat :| k < |a[1..]| && k < |b[1..]| && AgreeUpTo(a[1..], b[1..], k) && (a[1..][k] as int) < (b[1..][k] as int) {
        assert AgreeUpTo(a, b, k + 1) && a[k + 1] == a[1..][k] && b[k + 1] == b[1..][k];
      }
    } else if a != "" && b != "" {
      assert AgreeUpTo(a, b, 0);
    }
  }

  lemma {:induction false} LeqTotal(a: string, b: string)
    ensures Leq(a, b) || Leq(b, a)
  {
    if a != "" && b != "" && a[0] == b[0] {
      LeqTotal(a[1..], b[1..]);
    }
  }

  lemma {:induction false} LeqTransitive(a: string, b: string, c: string)
    requires Leq(a, b) && Leq(b, c)
    ensures Leq(a, c)
  {
    if a != "" && a[0] == b[0] && b[0] == c[0] {
      LeqTransitive(a[1..], b[1..], c[1..]);
    }
  }

  lemma {:induction false} LeqAntisymmetric(a: string, b: string)
    requires Leq(a, b) && Leq(b, a)
    ensures a == b
  {
    if a != "" {
      LeqAntisymmetric(a[1..], b[1..]);
    }
  }

  /** Items with the key each is sorted by. */
  type Keyed<T> = (string, T)

  predicate Sorted<T>(s: seq<Keyed<T>>) {
    forall i, j :: 0 <= i < j < |s| ==> Leq(s[i].0, s[j].0)
  }

  function Insert<T>(x: Keyed<T>, s: seq<Keyed<T>>): seq<Keyed<T>> {
    if s == [] || Leq(x.0, s[0].0) then [x] + s else [s[0]] + Insert(x, s[1..])
  }

  /** Stable sort by key. */
  function Sort<T>(s: seq<Keyed<T>>): seq<Keyed<T>> {
    if s == [] then [] else Insert(s[0], Sort(s[1..]))
  }

  lemma {:induction false} InsertSorts<T>(x: Keyed<T>, s: seq<Keyed<T>>)
    requires Sorted(s)
    ensures Sorted(Insert(x, s))
    ensures multiset(Insert(x, s)) == multiset(s) + multiset{x}
  {
    if s == [] {
    } else if Leq(x.0, s[0].0) {
      forall j | 0 <= j < |s|
        ensures Leq(x.0, s[j].0)
      {
        if j > 0 { LeqTransitive(x.0, s[0].0, s[j].0); }
      }
    } else {
      LeqTotal(x.0, s[0].0);
      InsertSorts(x, s[1..]);
      var rest := Insert(x, s[1..]);
      assert s == [s[0]] + s[1..];
      forall j | 0 <= j < |rest|
        ensures Leq(s[0].0, rest[j].0)
      {
        assert rest[j] in multiset(rest);
        if rest[j] != x {
          assert rest[j] in s[1..];
        }
      }
    }
  }

  lemma {:induction false} SortSorts<T>(s: seq<Keyed<T>>)
    ensures Sorted(Sort(s))
    ensures multiset(Sort(s)) == multiset(s)
  {
    if s != [] {
      SortSorts(s[1..]);
      InsertSorts(s[0], Sort(s[1..]));
      assert s == [s[0]] + s[1..];
    }
  }

  // ----- sets of strings in order

  predicate IsLeast(s: set<string>, k: string) {
    k in s && forall o :: o in s ==> Leq(k, o)
  }

  lemma {:induction false} LeastExists(s: set<string>)
    requires s != {}
    ensures exists k :: IsLeast(s, k)
  {
    var x :| x in s;
    LeqTotal(x, x);
    if s == {x} {
      assert IsLeast(s, x);
    } else {
      var rest := s - {x};
      LeastExists(rest);
      var y :| IsLeast(rest, y);
      LeqTotal(x, y);
      if Leq(x, y) {
        forall o | o in s ensures Leq(x, o) {
          if o != x { LeqTransitive(x, y, o); }
        }
        assert IsLeast(s, x);
      } else {
        assert IsLeast(s, y);
      }
    }
  }

  lemma LeastUnique(s: set<string>)
    ensures forall a, b :: IsLeast(s, a) && IsLeast(s, b) ==> a == b
  {
    forall a, b | IsLeast(s, a) && IsLeast(s, b) ensures a == b {
      LeqAntisymmetric(a, b);
    }
  }

  function Least(s: set<string>): (k: string)
    requires s != {}
    ensures IsLeast(s, k)
  {
    LeastExists(s);
    LeastUnique(s);
    var k :| k in s && IsLeast(s, k);
    k
  }

  /** The names in code-point order. */
  function InOrder(names: set<string>): (r: seq<string>)
    ensures forall n :: n in r <==> n in names
    ensures forall i, j :: 0 <= i < j < |r| ==> r[i] != r[j] && Leq(r[i], r[j])
  {
    if names == {} then []
    else [Least(names)] + InOrder(names - {Least(names)})
  }
}
