/**
 * String helpers with the semantics the frontend (`String.prototype.trim`)
 * and the backend (`str.strip`, `str.split`, `str.join`) rely on.
 * Whitespace is the ASCII set: space, tab, line feed, vertical tab,
 * form feed and carriage return.
 */
module Text {

  predicate IsSpace(c: char)
  {
    c == ' ' || c == '\t' || c == '\n' || c == '\r' || c as int == 11 || c as int == 12
  }

  predicate AllSpace(s: string)
  {
    forall k :: 0 <= k < |s| ==> IsSpace(s[k])
  }

  /** Neither the first nor the last character is whitespace. */
  predicate NoOuterSpace(s: string)
  {
    s == [] || (!IsSpace(s[0]) && !IsSpace(s[|s| - 1]))
  }

  /** Every character of `s` from `lo` up to (not including) `hi` is whitespace. */
  predicate SpaceBetween(s: string, lo: nat, hi: nat)
    requires lo <= hi <= |s|
  {
    forall k :: lo <= k < hi ==> IsSpace(s[k])
  }

  /** The first position at or after `i` that is not whitespace, or `|s|`. */
  function FirstNonSpace(s: string, i: nat): (n: nat)
    requires i <= |s|
    ensures i <= n <= |s| && SpaceBetween(s, i, n)
    ensures n < |s| ==> !IsSpace(s[n])
    decreases |s| - i
  {
    if i == |s| || !IsSpace(s[i]) then i else FirstNonSpace(s, i + 1)
  }

  /** The end of the last non-whitespace character in `s[lo..hi]`, or `lo`. */
  function LastNonSpace(s: string, lo: nat, hi: nat): (j: nat)
    requires lo <= hi <= |s|
    ensures lo <= j <= hi && SpaceBetween(s, j, hi)
    ensures lo < j ==> !IsSpace(s[j - 1])
    decreases hi - lo
  {
    if hi == lo || !IsSpace(s[hi - 1]) then hi else LastNonSpace(s, lo, hi - 1)
  }

  /**
   * Where `Trim` cuts `s`: everything before `lo` and from `hi` on is
   * whitespace, and `s[lo..hi]` neither starts nor ends with whitespace.
   */
  function TrimBounds(s: string): (b: (nat, nat))
    ensures b.0 <= b.1 <= |s|
    ensures SpaceBetween(s, 0, b.0) && SpaceBetween(s, b.1, |s|)
    ensures b.0 < b.1 ==> !IsSpace(s[b.0]) && !IsSpace(s[b.1 - 1])
    ensures b.0 == b.1 ==> AllSpace(s)
  {
    var i := FirstNonSpace(s, 0);
    (i, LastNonSpace(s, i, |s|))
  }

  /** A whitespace range is a whitespace slice. */
  lemma SpaceSlice(s: string, lo: nat, hi: nat)
    requires lo <= hi <= |s| && SpaceBetween(s, lo, hi)
    ensures AllSpace(s[lo..hi])
  {
    forall k | 0 <= k < hi - lo ensures IsSpace(s[lo..hi][k]) {
      assert s[lo..hi][k] == s[lo + k];
    }
  }

  lemma AllSpaceAppend(a: string, b: string)
    requires AllSpace(a) && AllSpace(b)
    ensures AllSpace(a + b)
  {
    forall k | 0 <= k < |a + b| ensures IsSpace((a + b)[k]) {
      if k < |a| { assert (a + b)[k] == a[k]; } else { assert (a + b)[k] == b[k - |a|]; }
    }
  }

  /**
   * `s.trim()` / `s.strip()`: the longest infix of `s` that neither starts
   * nor ends with whitespace and is surrounded only by whitespace.
   */
  function Trim(s: string): (r: string)
    ensures NoOuterSpace(r)
    ensures exists i, j :: 0 <= i <= j <= |s| && r == s[i..j] && AllSpace(s[..i]) && AllSpace(s[j..])
  {
    var b := TrimBounds(s);
    SpaceSlice(s, 0, b.0);
    SpaceSlice(s, b.1, |s|);
    assert s[0..b.0] == s[..b.0] && s[b.1..|s|] == s[b.1..];
    var r := s[b.0..b.1];
    assert r != [] ==> r[0] == s[b.0] && r[|r| - 1] == s[b.1 - 1];
    r
  }

  /** Whitespace around a trimmed string is exactly what `Trim` removes. */
  lemma TrimPadded(a: string, x: string, b: string)
    requires AllSpace(a) && AllSpace(b) && NoOuterSpace(x)
    ensures Trim(a + x + b) == x
  {
    var s := a + x + b;
    if x == [] {
      assert s == a + b;
      AllSpaceAppend(a, b);
      TrimAllSpace(s);
    } else {
      var i, j := |a|, |a| + |x|;
      assert s[..i] == a && s[i..j] == x && s[j..] == b;
      assert SpaceBetween(s, 0, i) by {
        forall k | 0 <= k < i ensures IsSpace(s[k]) { assert s[k] == s[..i][k]; }
      }
      assert SpaceBetween(s, j, |s|) by {
        forall k | j <= k < |s| ensures IsSpace(s[k]) { assert s[k] == s[j..][k - j]; }
      }
      assert s[i] == x[0] && s[j - 1] == x[|x| - 1];
      FirstNonSpaceAt(s, 0, i);
      LastNonSpaceAt(s, i, |s|, j);
    }
  }

  /** The scan from `i` stops at the first non-whitespace position `n`. */
  lemma {:induction false} FirstNonSpaceAt(s: string, i: nat, n: nat)
    requires i <= n < |s| && SpaceBetween(s, i, n) && !IsSpace(s[n])
    ensures FirstNonSpace(s, i) == n
    decreases n - i
  {
    if i < n {
      FirstNonSpaceAt(s, i + 1, n);
    }
  }

  /** The scan back from `hi` stops just after the last non-whitespace position `j - 1`. */
  lemma {:induction false} LastNonSpaceAt(s: string, lo: nat, hi: nat, j: nat)
    requires lo < j <= hi <= |s| && SpaceBetween(s, j, hi) && !IsSpace(s[j - 1])
    ensures LastNonSpace(s, lo, hi) == j
    decreases hi - j
  {
    if j < hi {
      LastNonSpaceAt(s, lo, hi - 1, j);
    }
  }

  /** A string made only of whitespace trims to the empty string, and only such a string does. */
  lemma TrimAllSpace(s: string)
    ensures Trim(s) == [] <==> AllSpace(s)
  {
    var b := TrimBounds(s);
    if b.0 < b.1 {
      assert !IsSpace(s[b.0]);
    }
  }

  /** An already trimmed string is left alone. */
  lemma TrimTrimmed(x: string)
    requires NoOuterSpace(x)
    ensures Trim(x) == x
  {
    TrimPadded([], x, []);
    assert [] + x + [] == x;
  }

  /** Number of occurrences of the character `c` in `s`. */
  function CharCount(s: string, c: char): nat
  {
    if s == [] then 0 else (if s[0] == c then 1 else 0) + CharCount(s[1..], c)
  }

  /**
   * `s.split(sep)` for a one-character separator: the pieces between
   * separators, always one more than there are separators.
   */
  function Split(s: string, sep: char): (parts: seq<string>)
    ensures |parts| == CharCount(s, sep) + 1
    ensures forall p :: p in parts ==> sep !in p
    ensures Join(parts, [sep]) == s
  {
    if s == [] then [[]]
    else
      var rest := Split(s[1..], sep);
      if s[0] == sep then
        var parts := [[]] + rest;
        assert parts[1..] == rest;
        parts
      else
        var parts := [[s[0]] + rest[0]] + rest[1..];
        assert forall p :: p in parts ==> p == parts[0] || p in rest;
        JoinCons(rest, [sep], s[0]);
        parts
  }

  lemma {:induction false} JoinCons(parts: seq<string>, d: string, c: char)
    requires parts != []
    ensures Join([[c] + parts[0]] + parts[1..], d) == [c] + Join(parts, d)
  {
    var q := [[c] + parts[0]] + parts[1..];
    assert q[1..] == parts[1..];
  }

  /** `d.join(parts)` */
  function Join(parts: seq<string>, d: string): string
  {
    if parts == [] then []
    else if |parts| == 1 then parts[0]
    else parts[0] + d + Join(parts[1..], d)
  }

  /** A piece followed by a separator splits off as the first part. */
  lemma {:induction false} SplitCons(p: string, sep: char, rest: string)
    requires sep !in p
    ensures Split(p + [sep] + rest, sep) == [p] + Split(rest, sep)
  {
    if p == [] {
      assert p + [sep] + rest == [sep] + rest;
      assert ([sep] + rest)[1..] == rest;
    } else {
      var s := p + [sep] + rest;
      assert s[1..] == p[1..] + [sep] + rest;
      SplitCons(p[1..], sep, rest);
      assert [p[0]] + p[1..] == p;
    }
  }

  /** A string without the separator is a single piece. */
  lemma {:induction false} SplitNone(p: string, sep: char)
    requires sep !in p
    ensures Split(p, sep) == [p]
  {
    if p != [] {
      SplitNone(p[1..], sep);
      assert [p[0]] + p[1..] == p;
    }
  }
}
