/** The string methods of Python that several checks rely on. */
module PythonText {

  /** The characters `str.strip` removes. */
  predicate IsSpace(c: char) {
    var n := c as int;
    || 9 <= n <= 13 || 28 <= n <= 32 || n == 0x85 || n == 0xa0 || n == 0x1680
    || 0x2000 <= n <= 0x200a || n == 0x2028 || n == 0x2029 || n == 0x202f || n == 0x205f || n == 0x3000
  }

  lemma SpacesAre(c: char)
    ensures IsSpace(c) <==>
              c as int in {9, 10, 11, 12, 13, 28, 29, 30, 31, 32, 0x85, 0xa0, 0x1680, 0x2000, 0x2001, 0x2002, 0x2003,
                           0x2004, 0x2005, 0x2006, 0x2007, 0x2008, 0x2009, 0x200a, 0x2028, 0x2029, 0x202f, 0x205f,
                           0x3000}
  {
  }

  function Strip(s: string): string
    decreases |s|
  {
    if s == "" then ""
    else if IsSpace(s[0]) then Strip(s[1..])
    else if IsSpace(s[|s| - 1]) then Strip(s[..|s| - 1])
    else s
  }

  predicate AllSpace(s: string) {
    forall k :: 0 <= k < |s| ==> IsSpace(s[k])
  }

  /** No space at either end. */
  predicate Trimmed(s: string) {
    s != "" ==> !IsSpace(s[0]) && !IsSpace(s[|s| - 1])
  }

  /** Stripping removes exactly the spaces at both ends: what is left is the one trimmed text that
      lies between spaces. */
  lemma {:induction false} StripIff(left: string, middle: string, right: string)
    requires AllSpace(left) && AllSpace(right) && Trimmed(middle)
    ensures Strip(left + middle + right) == middle
    decreases |left| + |right|
  {
    var s := left + middle + right;
    if left != "" {
      assert s[0] == left[0] && s[1..] == left[1..] + middle + right;
      StripIff(left[1..], middle, right);
    } else if middle == "" {
      if right != "" {
        assert s[0] == right[0] && s[1..] == "" + middle + right[1..];
        StripIff("", middle, right[1..]);
      }
    } else {
      assert s[0] == middle[0];
      if right != "" {
        assert s[|s| - 1] == right[|right| - 1] && s[..|s| - 1] == left + middle + right[..|right| - 1];
        StripIff(left, middle, right[..|right| - 1]);
      } else {
        assert s == middle;
      }
    }
  }

  lemma {:induction false} StripSplits(s: string) returns (left: string, right: string)
    ensures AllSpace(left) && AllSpace(right) && Trimmed(Strip(s)) && s == left + Strip(s) + right
    decreases |s|
  {
    if s == "" {
      left, right := "", "";
    } else if IsSpace(s[0]) {
      var more, tail := StripSplits(s[1..]);
      left, right := [s[0]] + more, tail;
      var stripped := Strip(s);
      assert left + stripped + right == [s[0]] + (more + stripped + tail);
      assert s == [s[0]] + s[1..];
    } else if IsSpace(s[|s| - 1]) {
      var head, more := StripSplits(s[..|s| - 1]);
      left, right := head, more + [s[|s| - 1]];
      var stripped := Strip(s);
      assert left + stripped + right == (head + stripped + more) + [s[|s| - 1]];
      assert s == s[..|s| - 1] + [s[|s| - 1]];
    } else {
      left, right := "", "";
      assert s == left + s + right;
    }
  }

  /** The characters at which `str.splitlines` breaks a text. */
  predicate IsLineBreak(c: char) {
    var n := c as int;
    10 <= n <= 13 || 28 <= n <= 30 || n == 0x85 || n == 0x2028 || n == 0x2029
  }

  lemma LineBreaksAre(c: char)
    ensures IsLineBreak(c) <==> c as int in {10, 11, 12, 13, 28, 29, 30, 0x85, 0x2028, 0x2029}
  {
  }

  predicate OneLine(s: string) {
    forall i :: 0 <= i < |s| ==> !IsLineBreak(s[i])
  }

  lemma {:induction false} StripOneLine(s: string)
    requires OneLine(s)
    ensures OneLine(Strip(s))
    decreases |s|
  {
    if s == "" {
    } else if IsSpace(s[0]) {
      StripOneLine(s[1..]);
    } else if IsSpace(s[|s| - 1]) {
      StripOneLine(s[..|s| - 1]);
    }
  }
}
