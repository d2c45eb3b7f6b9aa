/**
 * The catalog's `q` search (`startups/views.py`, `get_queryset`): a
 * non-empty `q` keeps the startups whose name, description or tags contain
 * it, ignoring case.  The database's case folding is the parameter `fold`.
 */
module CatalogSearch {
  import opened Wrappers
  import opened Types
  import opened Sequences
  import StringOrder

  /** `s` with every character folded. */
  function Folded(s: string, fold: char -> char): (r: string)
    ensures |r| == |s| && forall k :: 0 <= k < |s| ==> r[k] == fold(s[k])
  {
    seq(|s|, k requires 0 <= k < |s| => fold(s[k]))
  }

  /** The folded query occurs in the folded field from position `i` on. */
  predicate OccursAt(field: string, q: string, fold: char -> char, i: int)
  {
    0 <= i <= |field| - |q| && Folded(field, fold)[i..i + |q|] == Folded(q, fold)
  }

  /** `field__icontains=q`: the folded query occurs somewhere in the folded field. */
  predicate IContains(field: string, q: string, fold: char -> char)
  {
    exists i :: 0 <= i <= |field| - |q| && OccursAt(field, q, fold, i)
  }

  /** The three fields the search looks at, and only those. */
  predicate Matches(s: Startup, q: string, fold: char -> char)
  {
    IContains(s.name, q, fold) || IContains(s.description, q, fold) || IContains(s.tags, q, fold)
  }

  /** The filtered queryset, in the order of the base queryset. */
  function Filter(base: seq<Startup>, q: string, fold: char -> char): (r: seq<Startup>)
    ensures IsSubseq(r, base)
    ensures forall k :: 0 <= k < |r| ==> Matches(r[k], q, fold)
    ensures forall k :: 0 <= k < |base| && Matches(base[k], q, fold) ==> base[k] in r
  {
    if base == [] then []
    else
      var rest := Filter(base[1..], q, fold);
      assert forall k :: 1 <= k < |base| ==> base[k] == base[1..][k - 1];
      if Matches(base[0], q, fold) then
        var r := [base[0]] + rest;
        assert r[1..] == rest;
        r
      else
        SubseqOfTail(rest, base);
        rest
  }

  /** `get_queryset` for the query parameter `q`, which may be absent. */
  function Search(base: seq<Startup>, q: Option<string>, fold: char -> char): (r: seq<Startup>)
    ensures IsSubseq(r, base)
  {
    if q.Some? && q.value != "" then Filter(base, q.value, fold) else SubseqRefl(base); base
  }

  /** An absent or empty `q` leaves the queryset as it is. */
  lemma NoQueryNoFilter(base: seq<Startup>, fold: char -> char)
    ensures Search(base, None, fold) == base
    ensures Search(base, Some(""), fold) == base
  {
  }

  /** With a `q`, the result is exactly the startups of the base matching in name, description or tags. */
  lemma SearchSoundComplete(base: seq<Startup>, q: string, fold: char -> char, s: Startup)
    requires q != ""
    ensures s in Search(base, Some(q), fold) <==> s in base && Matches(s, q, fold)
  {
    var r := Search(base, Some(q), fold);
    if s in r {
      SubseqMembers(r, base, s);
    }
  }

  /** The base queryset's `-created_at` order: no startup comes after a newer one. */
  predicate NewestFirst(s: seq<Startup>)
  {
    forall i, j :: 0 <= i < j < |s| ==> !StringOrder.Less(s[i].createdAt, s[j].createdAt)
  }

  /** Filtering keeps the newest-first order. */
  lemma {:induction false} FilterKeepsOrder(base: seq<Startup>, q: string, fold: char -> char)
    requires NewestFirst(base)
    ensures NewestFirst(Filter(base, q, fold))
  {
    if base != [] {
      var rest := Filter(base[1..], q, fold);
      assert NewestFirst(base[1..]) by {
        forall i, j | 0 <= i < j < |base| - 1
          ensures !StringOrder.Less(base[1..][i].createdAt, base[1..][j].createdAt)
        {
          assert base[1..][i] == base[i + 1] && base[1..][j] == base[j + 1];
        }
      }
      FilterKeepsOrder(base[1..], q, fold);
      if Matches(base[0], q, fold) {
        var r := [base[0]] + rest;
        forall i, j | 0 <= i < j < |r| ensures !StringOrder.Less(r[i].createdAt, r[j].createdAt) {
          if i == 0 {
            assert r[j] in base[1..] by { SubseqMembers(rest, base[1..], r[j]); }
            var m :| 0 <= m < |base[1..]| && base[1..][m] == r[j];
            assert base[m + 1] == r[j];
          } else {
            assert r[i] == rest[i - 1] && r[j] == rest[j - 1];
          }
        }
      }
    }
  }

  /** The search result keeps the newest-first order of the base queryset. */
  lemma SearchKeepsOrder(base: seq<Startup>, q: Option<string>, fold: char -> char)
    requires NewestFirst(base)
    ensures NewestFirst(Search(base, q, fold))
  {
    if q.Some? && q.value != "" { FilterKeepsOrder(base, q.value, fold); }
  }

  /** A change to any other field, such as the location, does not change whether a startup matches. */
  lemma OnlySearchedFieldsMatter(s: Startup, t: Startup, q: string, fold: char -> char)
    requires s.name == t.name && s.description == t.description && s.tags == t.tags
    ensures Matches(s, q, fold) <==> Matches(t, q, fold)
  {
  }
}
