/**
 * The order `Array.prototype.sort()` uses when given no comparator: strings
 * compared as sequences of UTF-16 code units, a proper prefix first.  A
 * character above U+FFFF counts as its surrogate pair, so it sorts before
 * the characters U+E000 to U+FFFF.
 */
module StringOrder {

  /** The UTF-16 encoding of one character: itself below U+10000, otherwise a surrogate pair. */
  function Units(c: char): (u: seq<int>)
    ensures |u| == (if c as int < 0x1_0000 then 1 else 2)
    ensures |u| == 2 ==> 0xD800 <= u[0] < 0xDC00 && 0xDC00 <= u[1] < 0xE000
  {
    if c as int < 0x1_0000 then [c as int]
    else
      var v := c as int - 0x1_0000;
      [0xD800 + v / 0x400, 0xDC00 + v % 0x400]
  }

  /** A character's code units determine it. */
  lemma UnitsInjective(c: char, d: char)
    requires Units(c) == Units(d)
    ensures c == d
  {
    if c as int >= 0x1_0000 {
      var v, w := c as int - 0x1_0000, d as int - 0x1_0000;
      assert v == v / 0x400 * 0x400 + v % 0x400;
      assert w == w / 0x400 * 0x400 + w % 0x400;
    }
  }

  /** A lone code unit never equals a high surrogate, since no character is a surrogate. */
  lemma FirstUnitDecidesLength(c: char, d: char)
    requires Units(c)[0] == Units(d)[0]
    ensures |Units(c)| == |Units(d)|
  {
  }

  /** Code-unit order on two characters: the first units, then the low surrogates of two pairs. */
  predicate CharLess(c: char, d: char)
  {
    var u, w := Units(c), Units(d);
    u[0] < w[0] || (u[0] == w[0] && |u| == 2 && |w| == 2 && u[1] < w[1])
  }

  lemma CharLessTotal(c: char, d: char)
    requires c != d
    ensures CharLess(c, d) || CharLess(d, c)
  {
    var u, w := Units(c), Units(d);
    if u[0] == w[0] {
      FirstUnitDecidesLength(c, d);
      if |u| == 1 || u[1] == w[1] {
        assert u == w;
        UnitsInjective(c, d);
      }
    }
  }

  /**
   * Strings compared character by character: equal heads are skipped, and
   * the first differing characters decide by their code units.
   */
  predicate Less(a: string, b: string)
  {
    if a == [] then b != []
    else if b == [] then false
    else if a[0] != b[0] then CharLess(a[0], b[0])
    else Less(a[1..], b[1..])
  }

  lemma {:induction false} LessIrreflexive(a: string)
    ensures !Less(a, a)
  {
    if a != [] { LessIrreflexive(a[1..]); }
  }

  lemma {:induction false} LessTransitive(a: string, b: string, c: string)
    requires Less(a, b) && Less(b, c)
    ensures Less(a, c)
  {
    if a != [] && b != [] && c != [] && a[0] == b[0] && b[0] == c[0] {
      LessTransitive(a[1..], b[1..], c[1..]);
    }
  }

  lemma {:induction false} LessTotal(a: string, b: string)
    requires a != b
    ensures Less(a, b) || Less(b, a)
  {
    if a != [] && b != [] {
      if a[0] == b[0] {
        assert a == [a[0]] + a[1..] && b == [b[0]] + b[1..];
        LessTotal(a[1..], b[1..]);
      } else {
        CharLessTotal(a[0], b[0]);
      }
    }
  }

  lemma {:induction false} LessAsymmetric(a: string, b: string)
    requires Less(a, b)
    ensures !Less(b, a)
  {
    if a != [] && b != [] && a[0] == b[0] {
      LessAsymmetric(a[1..], b[1..]);
    }
  }

  /** The UTF-16 code units of a string, the units JavaScript's string comparison sees. */
  function CodeUnits(s: string): (u: seq<int>)
    ensures |s| <= |u| <= 2 * |s|
  {
    if s == [] then [] else Units(s[0]) + CodeUnits(s[1..])
  }

  /** JavaScript's `<` on strings: lexicographic order on code units, a proper prefix first. */
  predicate UnitsLess(a: seq<int>, b: seq<int>)
  {
    if a == [] then b != []
    else if b == [] then false
    else if a[0] != b[0] then a[0] < b[0]
    else UnitsLess(a[1..], b[1..])
  }

  lemma {:induction false} UnitsLessCommonPrefix(p: seq<int>, a: seq<int>, b: seq<int>)
    ensures UnitsLess(p + a, p + b) <==> UnitsLess(a, b)
  {
    if p != [] {
      assert (p + a)[1..] == p[1..] + a && (p + b)[1..] == p[1..] + b;
      UnitsLessCommonPrefix(p[1..], a, b);
    } else {
      assert p + a == a && p + b == b;
    }
  }

  /** Two different characters decide the comparison of anything that starts with them. */
  lemma UnitsLessHeads(c: char, d: char, a: seq<int>, b: seq<int>)
    requires c != d
    ensures UnitsLess(Units(c) + a, Units(d) + b) <==> CharLess(c, d)
  {
    var u, w := Units(c), Units(d);
    var x, y := u + a, w + b;
    assert x[0] == u[0] && y[0] == w[0];
    if u[0] == w[0] {
      FirstUnitDecidesLength(c, d);
      if |u| == 1 || u[1] == w[1] {
        assert u == w;
        UnitsInjective(c, d);
      }
      assert x[1..][0] == u[1] && y[1..][0] == w[1];
    }
  }

  /** `Less` is JavaScript's comparison of the strings' UTF-16 code units. */
  lemma {:induction false} LessIsCodeUnitOrder(a: string, b: string)
    ensures Less(a, b) <==> UnitsLess(CodeUnits(a), CodeUnits(b))
  {
    if a != [] && b != [] {
      if a[0] == b[0] {
        UnitsLessCommonPrefix(Units(a[0]), CodeUnits(a[1..]), CodeUnits(b[1..]));
        LessIsCodeUnitOrder(a[1..], b[1..]);
      } else {
        UnitsLessHeads(a[0], b[0], CodeUnits(a[1..]), CodeUnits(b[1..]));
      }
    }
  }

  /** Below U+10000 two characters compare as their code points. */
  lemma BmpCompareByCodePoint(c: char, d: char)
    requires c as int < 0x1_0000 && d as int < 0x1_0000
    ensures Less([c], [d]) <==> c < d
  {
    if c == d {
      LessIrreflexive([c]);
    }
  }

  /** A character above U+FFFF sorts before every character from U+E000 to U+FFFF. */
  lemma SupplementaryBeforeHighBmp(c: char, d: char)
    requires 0x1_0000 <= c as int && 0xE000 <= d as int < 0x1_0000
    ensures Less([c], [d]) && !Less([d], [c])
  {
  }

  /** The values a list holds. */
  function Elems(s: seq<string>): set<string>
  {
    set y | y in s
  }

  lemma ElemsCons(h: string, t: seq<string>)
    ensures Elems([h] + t) == {h} + Elems(t)
  {
    assert forall y :: y in [h] + t <==> y == h || y in t;
  }

  /** Strictly increasing, hence free of duplicates. */
  predicate StrictlySorted(s: seq<string>)
  {
    forall i, j :: 0 <= i < j < |s| ==> Less(s[i], s[j])
  }

  /** Adds `x` to a strictly sorted list unless it is already there. */
  function Insert(x: string, s: seq<string>): (r: seq<string>)
    requires StrictlySorted(s)
    ensures StrictlySorted(r)
    ensures Elems(r) == Elems(s) + {x}
  {
    if s == [] then [x]
    else if x == s[0] then s
    else if Less(x, s[0]) then
      InsertFront(x, s);
      ElemsCons(x, s);
      [x] + s
    else
      LessTotal(x, s[0]);
      var t := Insert(x, s[1..]);
      InsertBehind(x, s, t);
      [s[0]] + t
  }

  lemma InsertFront(x: string, s: seq<string>)
    requires StrictlySorted(s) && s != [] && Less(x, s[0])
    ensures StrictlySorted([x] + s)
  {
    var r := [x] + s;
    forall i, j | 0 <= i < j < |r| ensures Less(r[i], r[j]) {
      if i == 0 && j > 1 { LessTransitive(x, s[0], s[j - 1]); }
    }
  }

  lemma InsertBehind(x: string, s: seq<string>, t: seq<string>)
    requires StrictlySorted(s) && s != [] && Less(s[0], x)
    requires StrictlySorted(t) && Elems(t) == Elems(s[1..]) + {x}
    ensures StrictlySorted([s[0]] + t)
    ensures Elems([s[0]] + t) == Elems(s) + {x}
  {
    ElemsCons(s[0], s[1..]);
    ElemsCons(s[0], t);
    assert s == [s[0]] + s[1..];
    HeadBelowAll(s, t, x);
    ConsSorted(s[0], t);
  }

  /** The head of a strictly sorted list is below its other elements, and below `x` by assumption. */
  lemma HeadBelowAll(s: seq<string>, t: seq<string>, x: string)
    requires StrictlySorted(s) && s != [] && Less(s[0], x)
    requires Elems(t) == Elems(s[1..]) + {x}
    ensures forall k :: 0 <= k < |t| ==> Less(s[0], t[k])
  {
    forall k | 0 <= k < |t| ensures Less(s[0], t[k]) {
      assert t[k] in Elems(t);
      if t[k] != x {
        var m :| 0 <= m < |s[1..]| && s[1..][m] == t[k];
        assert s[m + 1] == t[k];
      }
    }
  }

  /** A head below every element of a strictly sorted tail keeps the list strictly sorted. */
  lemma ConsSorted(h: string, t: seq<string>)
    requires StrictlySorted(t)
    requires forall k :: 0 <= k < |t| ==> Less(h, t[k])
    ensures StrictlySorted([h] + t)
  {
    var r := [h] + t;
    forall i, j | 0 <= i < j < |r| ensures Less(r[i], r[j]) {
      assert r[j] == t[j - 1];
      if i > 0 {
        assert r[i] == t[i - 1];
      }
    }
  }

  /** `[...new Set(xs)].sort()`: the distinct values of `xs` in ascending order. */
  function SortDistinct(xs: seq<string>): (r: seq<string>)
    ensures StrictlySorted(r)
    ensures Elems(r) == Elems(xs)
  {
    if xs == [] then []
    else
      var init := xs[..|xs| - 1];
      assert xs == init + [xs[|xs| - 1]];
      assert Elems(xs) == Elems(init) + {xs[|xs| - 1]};
      Insert(xs[|xs| - 1], SortDistinct(init))
  }

  /** There is only one strictly sorted list with a given set of values. */
  lemma {:induction false} StrictlySortedUnique(a: seq<string>, b: seq<string>)
    requires StrictlySorted(a) && StrictlySorted(b)
    requires Elems(a) == Elems(b)
    ensures a == b
  {
    if a != [] && b != [] {
      // the least element of each is the head of the other
      assert a[0] in Elems(a) && b[0] in Elems(b);
      if a[0] != b[0] {
        var i :| 0 <= i < |b| && b[i] == a[0];
        var j :| 0 <= j < |a| && a[j] == b[0];
        LessAsymmetric(b[0], a[0]);
      }
      assert Elems(a[1..]) == Elems(a) - {a[0]} by {
        forall y | y in a[1..] ensures y != a[0] {
          var k :| 0 <= k < |a[1..]| && a[1..][k] == y;
          assert Less(a[0], a[k + 1]);
          LessIrreflexive(a[0]);
        }
        assert a == [a[0]] + a[1..];
      }
      assert Elems(b[1..]) == Elems(b) - {b[0]} by {
        forall y | y in b[1..] ensures y != b[0] {
          var k :| 0 <= k < |b[1..]| && b[1..][k] == y;
          assert Less(b[0], b[k + 1]);
          LessIrreflexive(b[0]);
        }
        assert b == [b[0]] + b[1..];
      }
      StrictlySortedUnique(a[1..], b[1..]);
      assert a == [a[0]] + a[1..] && b == [b[0]] + b[1..];
    } else {
      ElemsEmpty(a);
      ElemsEmpty(b);
    }
  }

  /** Sorting U+FF21 and U+1F600 puts the emoji first, because its high surrogate 0xD83D is below 0xFF21. */
  lemma SortDistinctBySurrogates()
    ensures SortDistinct(["\U{FF21}", "\U{1F600}"]) == ["\U{1F600}", "\U{FF21}"]
  {
    var xs, r := ["\U{FF21}", "\U{1F600}"], ["\U{1F600}", "\U{FF21}"];
    SupplementaryBeforeHighBmp('\U{1F600}', '\U{FF21}');
    assert StrictlySorted(r);
    assert Elems(r) == Elems(xs) by {
      ElemsCons(xs[0], xs[1..]);
      ElemsCons(r[0], r[1..]);
      assert xs == [xs[0]] + [xs[1]] && r == [r[0]] + [r[1]];
      assert Elems([xs[1]]) == {xs[1]} && Elems([r[1]]) == {r[1]};
    }
    StrictlySortedUnique(SortDistinct(xs), r);
  }

  lemma ElemsEmpty(s: seq<string>)
    ensures Elems(s) == {} <==> s == []
  {
    if s != [] { assert s[0] in Elems(s); }
  }
}
