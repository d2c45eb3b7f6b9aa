/**
 * The analytics endpoints (`analytics/views.py`): the dashboard's grouped
 * counts over the user's watchlisted startups and over the whole catalog,
 * and the rows of the watchlist CSV export.  Query results are sequences
 * of records; timestamp formatting is a parameter.
 */
module Analytics {
  import opened Wrappers
  import opened Sequences
  import Text
  import Decimal
  import StartupRecord

  /** A startup row of the catalog table. */
  datatype StartupRow = StartupRow(id: int, name: string, website: Option<string>, location: string,
                                   industry: string, stage: string, description: string, tags: string)

  /** A watchlist row: whose it is, which startup, and when it was added. */
  datatype WatchRow = WatchRow(user: int, startup: StartupRow, createdAt: int)

  /** One grouped value and how many startups have it. */
  datatype Entry = Entry(key: string, count: nat)

  /** The columns a dashboard list groups by. */
  datatype Dimension = ByIndustry | ByLocation | ByStage

  function KeyOf(s: StartupRow, d: Dimension): string
  {
    match d
    case ByIndustry => s.industry
    case ByLocation => s.location
    case ByStage => s.stage
  }

  function Keys(rows: seq<StartupRow>, d: Dimension): (ks: seq<string>)
    ensures |ks| == |rows| && forall k :: 0 <= k < |rows| ==> ks[k] == KeyOf(rows[k], d)
  {
    seq(|rows|, k requires 0 <= k < |rows| => KeyOf(rows[k], d))
  }

  function Total(es: seq<Entry>): nat
  {
    if es == [] then 0 else es[0].count + Total(es[1..])
  }

  predicate DistinctKeys(es: seq<Entry>)
  {
    forall i, j :: 0 <= i < j < |es| ==> es[i].key != es[j].key
  }

  predicate NonIncreasing(es: seq<Entry>)
  {
    forall i, j :: 0 <= i < j < |es| ==> es[i].count >= es[j].count
  }

  /** One entry per distinct key, in order of first occurrence, with its number of occurrences. */
  function Tally(keys: seq<string>): (es: seq<Entry>)
    ensures |es| <= |keys|
    ensures keys != [] ==> es != [] && es[0] == Entry(keys[0], Count(keys, keys[0]))
    decreases |keys|
  {
    if keys == [] then []
    else [Entry(keys[0], Count(keys, keys[0]))] + Tally(RemoveAll(keys[1..], keys[0]))
  }

  /** Every entry counts the occurrences of its key among `keys`, which holds it. */
  predicate CountsOf(es: seq<Entry>, keys: seq<string>)
  {
    forall k :: 0 <= k < |es| ==> es[k].count == Count(keys, es[k].key) && es[k].key in keys
  }

  /** Every key has an entry. */
  predicate Covers(es: seq<Entry>, keys: seq<string>)
  {
    forall y :: y in keys ==> exists k :: 0 <= k < |es| && es[k].key == y
  }

  /**
   * Every entry counts the occurrences of its key, keys are distinct, every
   * key is listed, and the counts add up to the number of keys.
   */
  lemma {:induction false} TallyCorrect(keys: seq<string>)
    ensures var es := Tally(keys);
      CountsOf(es, keys) && DistinctKeys(es) && Covers(es, keys) && Total(es) == |keys|
    decreases |keys|
  {
    if keys != [] {
      var removed := RemoveAll(keys[1..], keys[0]);
      var rest := Tally(removed);
      TallyCorrect(removed);
      var es := Tally(keys);
      assert es == [Entry(keys[0], Count(keys, keys[0]))] + rest;
      TallyStepCounts(keys, rest);
      TallyStepDistinct(keys, rest);
      TallyStepCovers(keys, rest);
      assert es[1..] == rest;
      assert Total(es) == Count(keys, keys[0]) + Total(rest);
    }
  }

  /** Putting the first key's entry ahead of the tally of the others keeps every count right. */
  lemma TallyStepCounts(keys: seq<string>, rest: seq<Entry>)
    requires keys != [] && CountsOf(rest, RemoveAll(keys[1..], keys[0]))
    ensures CountsOf([Entry(keys[0], Count(keys, keys[0]))] + rest, keys)
  {
    var x := keys[0];
    var removed := RemoveAll(keys[1..], x);
    var es := [Entry(x, Count(keys, x))] + rest;
    forall k | 0 <= k < |es| ensures es[k].count == Count(keys, es[k].key) && es[k].key in keys {
      if k > 0 {
        var y := rest[k - 1].key;
        assert es[k] == rest[k - 1];
        assert y in removed;
        assert Count(keys, y) == Count(keys[1..], y) == Count(removed, y);
        SubseqMembers(removed, keys[1..], y);
      }
    }
  }

  /** The first key is not among the others' entries, so keys stay distinct. */
  lemma TallyStepDistinct(keys: seq<string>, rest: seq<Entry>)
    requires keys != [] && CountsOf(rest, RemoveAll(keys[1..], keys[0])) && DistinctKeys(rest)
    ensures DistinctKeys([Entry(keys[0], Count(keys, keys[0]))] + rest)
  {
    forall k | 0 <= k < |rest| ensures keys[0] != rest[k].key {
      assert rest[k].key in RemoveAll(keys[1..], keys[0]);
    }
    ConsDistinct(Entry(keys[0], Count(keys, keys[0])), rest);
  }

  /** Every key is the first one or is left after removing it. */
  lemma TallyStepCovers(keys: seq<string>, rest: seq<Entry>)
    requires keys != [] && Covers(rest, RemoveAll(keys[1..], keys[0]))
    ensures Covers([Entry(keys[0], Count(keys, keys[0]))] + rest, keys)
  {
    var head := Entry(keys[0], Count(keys, keys[0]));
    forall y | y in keys ensures exists k :: 0 <= k < |rest| + 1 && ([head] + rest)[k].key == y {
      if y != keys[0] { LeftAfterRemoval(keys, y); }
      ConsHasKey(head, rest, y);
    }
  }

  /** A key of the head or of the tail is a key of the whole list. */
  lemma ConsHasKey(h: Entry, t: seq<Entry>, y: string)
    requires h.key == y || exists k :: 0 <= k < |t| && t[k].key == y
    ensures exists k :: 0 <= k < |t| + 1 && ([h] + t)[k].key == y
  {
    if h.key == y {
      assert ([h] + t)[0].key == y;
    } else {
      var k :| 0 <= k < |t| && t[k].key == y;
      assert ([h] + t)[k + 1] == t[k];
    }
  }

  /** A key other than the first is still there once the first is removed from the others. */
  lemma LeftAfterRemoval(keys: seq<string>, y: string)
    requires keys != [] && y in keys && y != keys[0]
    ensures y in RemoveAll(keys[1..], keys[0])
  {
    var i :| 0 <= i < |keys| && keys[i] == y;
    assert keys[1..][i - 1] == y;
    assert Count(RemoveAll(keys[1..], keys[0]), y) == Count(keys[1..], y);
  }

  /** An entry ahead of a non-increasing list with no larger count keeps it non-increasing. */
  lemma ConsNonIncreasing(h: Entry, t: seq<Entry>)
    requires NonIncreasing(t) && forall k :: 0 <= k < |t| ==> h.count >= t[k].count
    ensures NonIncreasing([h] + t)
  {
    var r := [h] + t;
    forall i, j | 0 <= i < j < |r| ensures r[i].count >= r[j].count {
      assert r[j] == t[j - 1];
      if i > 0 { assert r[i] == t[i - 1]; }
    }
  }

  /** A key ahead of a list of distinct keys not holding it keeps the keys distinct. */
  lemma ConsDistinct(h: Entry, t: seq<Entry>)
    requires DistinctKeys(t) && forall k :: 0 <= k < |t| ==> h.key != t[k].key
    ensures DistinctKeys([h] + t)
  {
    var r := [h] + t;
    forall i, j | 0 <= i < j < |r| ensures r[i].key != r[j].key {
      assert r[j] == t[j - 1];
      if i > 0 { assert r[i] == t[i - 1]; }
    }
  }

  /** Puts `e` after every entry with at least its count. */
  function InsertByCount(e: Entry, s: seq<Entry>): (r: seq<Entry>)
    ensures multiset(r) == multiset(s) + multiset{e}
    ensures Total(r) == Total(s) + e.count
  {
    if s == [] then [e]
    else if s[0].count >= e.count then
      var rest := InsertByCount(e, s[1..]);
      var r := [s[0]] + rest;
      assert r[1..] == rest;
      assert s == [s[0]] + s[1..];
      r
    else
      var r := [e] + s;
      assert r[1..] == s;
      r
  }

  /** The entries after inserting are `e` and the entries before. */
  lemma InsertMembers(e: Entry, s: seq<Entry>, x: Entry)
    ensures x in InsertByCount(e, s) <==> x == e || x in s
  {
    var r := InsertByCount(e, s);
    assert x in r <==> x in multiset(r);
    assert x in s <==> x in multiset(s);
  }

  /** Inserting into a non-increasing list keeps it non-increasing. */
  lemma {:induction false} InsertKeepsOrder(e: Entry, s: seq<Entry>)
    requires NonIncreasing(s)
    ensures NonIncreasing(InsertByCount(e, s))
  {
    if s == [] {
    } else if s[0].count >= e.count {
      var rest := InsertByCount(e, s[1..]);
      assert NonIncreasing(s[1..]) by {
        forall i, j | 0 <= i < j < |s[1..]| ensures s[1..][i].count >= s[1..][j].count {
          assert s[1..][i] == s[i + 1] && s[1..][j] == s[j + 1];
        }
      }
      InsertKeepsOrder(e, s[1..]);
      forall k | 0 <= k < |rest| ensures s[0].count >= rest[k].count {
        InsertMembers(e, s[1..], rest[k]);
        if rest[k] != e {
          var m :| 0 <= m < |s[1..]| && s[1..][m] == rest[k];
          assert s[m + 1] == rest[k];
        }
      }
      ConsNonIncreasing(s[0], rest);
    } else {
      ConsNonIncreasing(e, s);
    }
  }

  lemma {:induction false} TotalAppend(s: seq<Entry>, e: Entry)
    ensures Total(s + [e]) == Total(s) + e.count
  {
    if s != [] {
      assert (s + [e])[1..] == s[1..] + [e];
      TotalAppend(s[1..], e);
    }
  }

  /** `order_by('-count')`: the entries by non-increasing count. */
  function SortByCount(s: seq<Entry>): (r: seq<Entry>)
    ensures multiset(r) == multiset(s)
    ensures NonIncreasing(r)
    ensures Total(r) == Total(s)
  {
    if s == [] then []
    else
      var init := s[..|s| - 1];
      assert s == init + [s[|s| - 1]];
      TotalAppend(init, s[|s| - 1]);
      InsertKeepsOrder(s[|s| - 1], SortByCount(init));
      InsertByCount(s[|s| - 1], SortByCount(init))
  }

  /** Sorting keeps keys distinct. */
  lemma {:induction false} SortKeepsDistinct(s: seq<Entry>)
    requires DistinctKeys(s)
    ensures DistinctKeys(SortByCount(s))
  {
    if s != [] {
      var init := s[..|s| - 1];
      var e := s[|s| - 1];
      assert DistinctKeys(init) by {
        forall i, j | 0 <= i < j < |init| ensures init[i].key != init[j].key {
          assert init[i] == s[i] && init[j] == s[j];
        }
      }
      SortKeepsDistinct(init);
      var sorted := SortByCount(init);
      forall k | 0 <= k < |sorted| ensures sorted[k].key != e.key {
        assert sorted[k] in multiset(init);
        var m :| 0 <= m < |init| && init[m] == sorted[k];
        assert s[m] == init[m];
      }
      InsertKeepsDistinct(e, sorted);
    }
  }

  /** Inserting an entry whose key is new keeps keys distinct. */
  lemma {:induction false} InsertKeepsDistinct(e: Entry, s: seq<Entry>)
    requires DistinctKeys(s) && forall k :: 0 <= k < |s| ==> s[k].key != e.key
    ensures DistinctKeys(InsertByCount(e, s))
  {
    if s == [] {
    } else if s[0].count >= e.count {
      var rest := InsertByCount(e, s[1..]);
      assert DistinctKeys(s[1..]) by {
        forall i, j | 0 <= i < j < |s[1..]| ensures s[1..][i].key != s[1..][j].key {
          assert s[1..][i] == s[i + 1] && s[1..][j] == s[j + 1];
        }
      }
      InsertKeepsDistinct(e, s[1..]);
      forall k | 0 <= k < |rest| ensures s[0].key != rest[k].key {
        InsertMembers(e, s[1..], rest[k]);
        if rest[k] != e {
          var m :| 0 <= m < |s[1..]| && s[1..][m] == rest[k];
          assert s[m + 1] == rest[k];
        }
      }
      ConsDistinct(s[0], rest);
    } else {
      ConsDistinct(e, s);
    }
  }

  /** `values(d).annotate(count=Count('id')).order_by('-count')` over `rows`. */
  function GroupCounts(rows: seq<StartupRow>, d: Dimension): seq<Entry>
  {
    SortByCount(Tally(Keys(rows, d)))
  }

  /**
   * A grouped list has one entry per distinct value of the column, with the
   * number of rows holding it, by non-increasing count, and its counts add
   * up to the number of rows.
   */
  lemma GroupCountsCorrect(rows: seq<StartupRow>, d: Dimension)
    ensures var g := GroupCounts(rows, d);
      && NonIncreasing(g) && DistinctKeys(g) && Total(g) == |rows|
      && CountsOf(g, Keys(rows, d)) && (forall k :: 0 <= k < |g| ==> g[k].count > 0)
      && (forall r :: r in rows ==> exists k :: 0 <= k < |g| && g[k].key == KeyOf(r, d))
  {
    var keys := Keys(rows, d);
    var t := Tally(keys);
    assert SortByCount(t) == GroupCounts(rows, d);
    TallyCorrect(keys);
    SortKeepsDistinct(t);
    SortedCounts(keys, t);
    CountsPositive(SortByCount(t), keys);
    SortedCovers(t, keys);
    RowsCovered(rows, d, SortByCount(t));
  }

  /** Sorting keeps every entry's count of its key. */
  lemma SortedCounts(keys: seq<string>, t: seq<Entry>)
    requires CountsOf(t, keys)
    ensures CountsOf(SortByCount(t), keys)
  {
    var g := SortByCount(t);
    forall k | 0 <= k < |g| ensures g[k].count == Count(keys, g[k].key) && g[k].key in keys {
      SortMembers(t, g[k]);
      var m :| 0 <= m < |t| && t[m] == g[k];
    }
  }

  /** A listed key occurs, so its count is positive. */
  lemma CountsPositive(g: seq<Entry>, keys: seq<string>)
    requires CountsOf(g, keys)
    ensures forall k :: 0 <= k < |g| ==> g[k].count > 0
  {
  }

  /** Entries for every key are entries for the key of every row. */
  lemma RowsCovered(rows: seq<StartupRow>, d: Dimension, g: seq<Entry>)
    requires Covers(g, Keys(rows, d))
    ensures forall r :: r in rows ==> exists k :: 0 <= k < |g| && g[k].key == KeyOf(r, d)
  {
    forall r | r in rows ensures exists k :: 0 <= k < |g| && g[k].key == KeyOf(r, d) {
      KeyListed(rows, d, r);
    }
  }

  /** Sorting keeps an entry for every key. */
  lemma SortedCovers(t: seq<Entry>, keys: seq<string>)
    requires Covers(t, keys)
    ensures Covers(SortByCount(t), keys)
  {
    forall x | x in keys ensures exists k :: 0 <= k < |SortByCount(t)| && SortByCount(t)[k].key == x {
      SortedHasKey(t, x);
    }
  }

  /** Sorting keeps an entry under every key. */
  lemma SortedHasKey(t: seq<Entry>, x: string)
    requires exists m :: 0 <= m < |t| && t[m].key == x
    ensures exists k :: 0 <= k < |SortByCount(t)| && SortByCount(t)[k].key == x
  {
    var m :| 0 <= m < |t| && t[m].key == x;
    SortMembers(t, t[m]);
    var g := SortByCount(t);
    var k :| 0 <= k < |g| && g[k] == t[m];
  }

  /** Sorting moves entries but neither adds nor drops one. */
  lemma SortMembers(s: seq<Entry>, e: Entry)
    ensures e in SortByCount(s) <==> e in s
  {
    assert e in SortByCount(s) <==> e in multiset(SortByCount(s));
    assert e in s <==> e in multiset(s);
  }

  /** The key of every row is among the keys. */
  lemma KeyListed(rows: seq<StartupRow>, d: Dimension, r: StartupRow)
    requires r in rows
    ensures KeyOf(r, d) in Keys(rows, d)
  {
    var i :| 0 <= i < |rows| && rows[i] == r;
    assert Keys(rows, d)[i] == KeyOf(r, d);
  }

  /** The first `n` entries, or all of them when there are fewer (`[:n]`). */
  function Top(es: seq<Entry>, n: nat): (r: seq<Entry>)
    ensures |r| <= n && |r| <= |es| && r == es[..|r|]
    ensures |es| <= n ==> r == es
  {
    if |es| <= n then es else es[..n]
  }

  /** `Startup.objects.filter(id__in=ids)`: catalog rows whose id is listed, each once, in catalog order. */
  function Chosen(catalog: seq<StartupRow>, ids: seq<int>): (r: seq<StartupRow>)
    ensures IsSubseq(r, catalog)
    ensures forall k :: 0 <= k < |r| ==> r[k].id in ids
    ensures forall s :: s in catalog && s.id in ids ==> s in r
  {
    if catalog == [] then []
    else
      var rest := Chosen(catalog[1..], ids);
      if catalog[0].id in ids then
        var r := [catalog[0]] + rest;
        assert r[1..] == rest;
        r
      else
        SubseqOfTail(rest, catalog);
        rest
  }

  /** Chosen rows depend on which ids are listed, not on how often: repeated rows count once. */
  lemma {:induction false} ChosenBySet(catalog: seq<StartupRow>, ids: seq<int>, others: seq<int>)
    requires forall x :: x in ids <==> x in others
    ensures Chosen(catalog, ids) == Chosen(catalog, others)
  {
    if catalog != [] { ChosenBySet(catalog[1..], ids, others); }
  }

  /** Primary keys are unique. */
  predicate DistinctIds(rows: seq<StartupRow>)
  {
    forall i, j :: 0 <= i < j < |rows| ==> rows[i].id != rows[j].id
  }

  /** With unique primary keys, no startup is counted twice. */
  lemma {:induction false} ChosenDistinct(catalog: seq<StartupRow>, ids: seq<int>)
    requires DistinctIds(catalog)
    ensures DistinctIds(Chosen(catalog, ids))
  {
    if catalog != [] {
      TailDistinctIds(catalog);
      ChosenDistinct(catalog[1..], ids);
      var rest := Chosen(catalog[1..], ids);
      if catalog[0].id in ids {
        forall s | s in rest ensures s.id != catalog[0].id {
          SubseqMembers(rest, catalog[1..], s);
        }
        ConsDistinctIds(catalog[0], rest);
      }
    }
  }

  /** The rows after the first have unique keys, none of them the first row's key. */
  lemma TailDistinctIds(rows: seq<StartupRow>)
    requires rows != [] && DistinctIds(rows)
    ensures DistinctIds(rows[1..]) && forall s :: s in rows[1..] ==> s.id != rows[0].id
  {
    var t := rows[1..];
    forall i, j | 0 <= i < j < |t| ensures t[i].id != t[j].id {
      assert t[i] == rows[i + 1] && t[j] == rows[j + 1];
    }
    forall s | s in t ensures s.id != rows[0].id {
      var m :| 0 <= m < |t| && t[m] == s;
      assert rows[m + 1] == s;
    }
  }

  /** A row whose key is not among rows with unique keys keeps the keys unique in front of them. */
  lemma ConsDistinctIds(h: StartupRow, t: seq<StartupRow>)
    requires DistinctIds(t) && forall s :: s in t ==> s.id != h.id
    ensures DistinctIds([h] + t)
  {
    var r := [h] + t;
    forall i, j | 0 <= i < j < |r| ensures r[i].id != r[j].id {
      assert r[j] == t[j - 1] && r[j] in t;
      if i > 0 { assert r[i] == t[i - 1]; }
    }
  }

  datatype Dashboard = Dashboard(
    watchlistCount: nat, notesCount: nat, totalStartups: nat,
    industries: seq<Entry>, locations: seq<Entry>, stages: seq<Entry>,
    globalIndustries: seq<Entry>, globalLocations: seq<Entry>)

  /**
   * `analytics_dashboard` for a user whose watchlist rows name the startups
   * `watchIds` and whose notes name the startups `noteIds`.
   */
  function AnalyticsDashboard(catalog: seq<StartupRow>, watchIds: seq<int>, noteIds: seq<int>): (dash: Dashboard)
    ensures dash.totalStartups == |catalog|
    ensures dash.watchlistCount <= |catalog| && dash.notesCount <= |catalog|
    ensures |dash.globalIndustries| <= 10 && |dash.globalLocations| <= 10
  {
    var watched, noted := Chosen(catalog, watchIds), Chosen(catalog, noteIds);
    SubseqLength(watched, catalog);
    SubseqLength(noted, catalog);
    Dashboard(
      |watched|, |noted|, |catalog|,
      GroupCounts(watched, ByIndustry), GroupCounts(watched, ByLocation), GroupCounts(watched, ByStage),
      Top(GroupCounts(catalog, ByIndustry), 10), Top(GroupCounts(catalog, ByLocation), 10))
  }

  /** The user lists each cover the watched startups once over, by non-increasing count. */
  lemma UserListsSumToWatchlistCount(catalog: seq<StartupRow>, watchIds: seq<int>, noteIds: seq<int>)
    ensures var dash := AnalyticsDashboard(catalog, watchIds, noteIds);
      && Total(dash.industries) == dash.watchlistCount && NonIncreasing(dash.industries) && DistinctKeys(dash.industries)
      && Total(dash.locations) == dash.watchlistCount && NonIncreasing(dash.locations) && DistinctKeys(dash.locations)
      && Total(dash.stages) == dash.watchlistCount && NonIncreasing(dash.stages) && DistinctKeys(dash.stages)
  {
    var watched := Chosen(catalog, watchIds);
    GroupCountsCorrect(watched, ByIndustry);
    GroupCountsCorrect(watched, ByLocation);
    GroupCountsCorrect(watched, ByStage);
  }

  /** The global lists are the ten (or fewer) largest groups of the catalog, by non-increasing count. */
  lemma GlobalListsTopTen(catalog: seq<StartupRow>, watchIds: seq<int>, noteIds: seq<int>)
    ensures var dash := AnalyticsDashboard(catalog, watchIds, noteIds);
      && |dash.globalIndustries| <= 10 && NonIncreasing(dash.globalIndustries)
      && dash.globalIndustries == GroupCounts(catalog, ByIndustry)[..|dash.globalIndustries|]
      && |dash.globalLocations| <= 10 && NonIncreasing(dash.globalLocations)
      && dash.globalLocations == GroupCounts(catalog, ByLocation)[..|dash.globalLocations|]
  {
    var dash := AnalyticsDashboard(catalog, watchIds, noteIds);
    TopKeepsOrder(GroupCounts(catalog, ByIndustry), 10);
    TopKeepsOrder(GroupCounts(catalog, ByLocation), 10);
  }

  lemma TopKeepsOrder(es: seq<Entry>, n: nat)
    requires NonIncreasing(es)
    ensures NonIncreasing(Top(es, n))
  {
    var r := Top(es, n);
    forall i, j | 0 <= i < j < |r| ensures r[i].count >= r[j].count {
      assert r[i] == es[i] && r[j] == es[j];
    }
  }

  /** The counts count startups, not rows: listing a startup twice changes nothing. */
  lemma CountsAreDistinctStartups(catalog: seq<StartupRow>, watchIds: seq<int>, noteIds: seq<int>, again: int)
    requires again in watchIds && again in noteIds
    ensures AnalyticsDashboard(catalog, watchIds + [again], noteIds + [again]) == AnalyticsDashboard(catalog, watchIds, noteIds)
    ensures DistinctIds(catalog) ==> DistinctIds(Chosen(catalog, watchIds))
  {
    ChosenBySet(catalog, watchIds + [again], watchIds);
    ChosenBySet(catalog, noteIds + [again], noteIds);
    if DistinctIds(catalog) { ChosenDistinct(catalog, watchIds); }
  }

  // ---------------------------------------------------------------- export

  const ExportHeader: seq<string> := [
    "Startup Name", "Industry", "Location", "Stage", "Website", "Description", "Tags", "Added to Watchlist"
  ]

  /** `startup.website or ''` */
  function WebsiteCell(w: Option<string>): (cell: string)
    ensures w.Some? ==> cell == w.value
    ensures w.None? ==> cell == ""
  {
    if w.Some? then w.value else ""
  }

  /** `', '.join(startup.tag_list)`: the tags cell, which parses back to the same tags. */
  function TagsCell(tags: string): (cell: string)
    ensures StartupRecord.TagList(cell) == StartupRecord.TagList(tags)
  {
    StartupRecord.TagListStable(tags);
    Text.Join(StartupRecord.TagList(tags), ", ")
  }

  /** The export row of one watchlist row; `stamp` formats its creation time. */
  function ExportRow(item: WatchRow, stamp: int -> string): (row: seq<string>)
    ensures |row| == 8
  {
    var s := item.startup;
    [s.name, s.industry, s.location, s.stage, WebsiteCell(s.website), s.description,
     TagsCell(s.tags), stamp(item.createdAt)]
  }

  /** The rows of the user's watchlist, in query order. */
  function UserRows(items: seq<WatchRow>, user: int): (r: seq<WatchRow>)
    ensures forall k :: 0 <= k < |r| ==> r[k].user == user
    ensures IsSubseq(r, items)
    ensures forall w :: Count(r, w) == (if w.user == user then Count(items, w) else 0)
  {
    if items == [] then []
    else
      var rest := UserRows(items[1..], user);
      if items[0].user == user then
        var r := [items[0]] + rest;
        assert r[1..] == rest;
        r
      else
        SubseqOfTail(rest, items);
        rest
  }

  /** Every watchlist row of the user is exported, and nothing else is. */
  lemma UserRowsComplete(items: seq<WatchRow>, user: int, w: WatchRow)
    ensures w in UserRows(items, user) <==> w in items && w.user == user
  {
    assert Count(UserRows(items, user), w) == (if w.user == user then Count(items, w) else 0);
  }

  /** `watchlist_export`: the user's watchlist rows, written out by `BuildCsv`. */
  method WatchlistExport(items: seq<WatchRow>, user: int, stamp: int -> string) returns (csvData: seq<seq<string>>)
    ensures |csvData| == |UserRows(items, user)| + 1
    ensures csvData[0] == ExportHeader
    ensures forall k :: 0 <= k < |UserRows(items, user)| ==> csvData[k + 1] == ExportRow(UserRows(items, user)[k], stamp)
    ensures forall k :: 0 <= k < |csvData| ==> |csvData[k]| == 8
  {
    var watchlistItems := UserRows(items, user);
    csvData := BuildCsv(watchlistItems, stamp);
  }

  /** The CSV rows of `watchlist_export`: the header, then one row per item, built in a loop. */
  method BuildCsv(watchlistItems: seq<WatchRow>, stamp: int -> string) returns (csvData: seq<seq<string>>)
    ensures |csvData| == |watchlistItems| + 1
    ensures csvData[0] == ExportHeader
    ensures forall k :: 0 <= k < |watchlistItems| ==> csvData[k + 1] == ExportRow(watchlistItems[k], stamp)
    ensures forall k :: 0 <= k < |csvData| ==> |csvData[k]| == 8
  {
    csvData := [ExportHeader];
    for i := 0 to |watchlistItems|
      invariant |csvData| == i + 1 && csvData[0] == ExportHeader
      invariant forall k :: 0 <= k < i ==> csvData[k + 1] == ExportRow(watchlistItems[k], stamp)
      invariant forall k :: 0 <= k < |csvData| ==> |csvData[k]| == 8
    {
      var row := ExportRow(watchlistItems[i], stamp);
      var before := csvData;
      csvData := before + [row];
      assert csvData[..i + 1] == before && csvData[i + 1] == row;
    }
  }

  /** `watchlist_{username}_{id}.csv` */
  function ExportFilename(username: string, id: int): (name: string)
    ensures |name| >= 15 && name[..10] == "watchlist_" && name[|name| - 4..] == ".csv"
  {
    "watchlist_" + username + "_" + Decimal.IntToString(id) + ".csv"
  }

  /** The filename names the user, then the id, which reads back from it. */
  lemma FilenameReadsBack(username: string, id: int)
    ensures var name := ExportFilename(username, id);
      && name[10..10 + |username|] == username
      && Decimal.ParseInt(name[11 + |username|..|name| - 4]) == id
  {
    var digits := Decimal.IntToString(id);
    var head := "watchlist_" + username;
    var pre := head + "_";
    var name := ExportFilename(username, id);
    assert name == pre + digits + ".csv";
    assert |pre| == 11 + |username| && |name| == |pre| + |digits| + 4;
    assert name[|pre|..|name| - 4] == digits by {
      assert (pre + digits + ".csv")[|pre|..|pre| + |digits|] == digits;
    }
    assert name[10..10 + |username|] == username by {
      assert name[..|head|] == head;
      assert head[10..] == username;
    }
    Decimal.ParseIntToString(id);
  }
}
