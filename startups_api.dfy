/**
 * Request building for the catalog endpoints (`api/startups.ts`): the query
 * string of the list request, and the facet lists derived from one page of
 * results.
 */
module StartupsApi {
  import opened Wrappers
  import opened Types
  import Decimal
  import StringOrder

  /** The filter keys, in the order the query string lists them. */
  const ParamOrder: seq<string> := ["q", "industry", "location", "stage", "page", "ordering"]

  type Param = (string, string)

  /** Position of a key in `ParamOrder` (6 for a key that is not a filter key). */
  function Rank(key: string): nat
  {
    if key == "q" then 0 else if key == "industry" then 1 else if key == "location" then 2
    else if key == "stage" then 3 else if key == "page" then 4 else if key == "ordering" then 5 else 6
  }

  /** The parameter a string filter contributes: present and non-empty (truthy), or nothing. */
  function StringParam(key: string, v: Option<string>): seq<Param>
  {
    if v.Some? && v.value != "" then [(key, v.value)] else []
  }

  /** The page parameter: present and non-zero (truthy), as its decimal string. */
  function PageParam(page: Option<int>): seq<Param>
  {
    if page.Some? && page.value != 0 then [("page", Decimal.IntToString(page.value))] else []
  }

  /** The parameters of the list request, in the order `getStartups` appends them. */
  function ParamsFor(f: StartupFilters): (params: seq<Param>)
    ensures |params| <= 6
    ensures forall k :: 0 <= k < |params| ==> params[k].1 != ""
  {
    StringParam("q", f.q) + StringParam("industry", f.industry) + StringParam("location", f.location)
    + StringParam("stage", f.stage) + PageParam(f.page) + StringParam("ordering", f.ordering)
  }

  /** `getStartups`: appends each truthy filter to a parameter builder, one field at a time. */
  method BuildParams(filters: StartupFilters) returns (params: seq<Param>)
    ensures params == ParamsFor(filters)
  {
    params := [];
    if filters.q.Some? && filters.q.value != "" {
      params := params + [("q", filters.q.value)];
    }
    assert params == StringParam("q", filters.q);
    ghost var done := params;
    if filters.industry.Some? && filters.industry.value != "" {
      params := params + [("industry", filters.industry.value)];
    }
    assert params == done + StringParam("industry", filters.industry);
    done := params;
    if filters.location.Some? && filters.location.value != "" {
      params := params + [("location", filters.location.value)];
    }
    assert params == done + StringParam("location", filters.location);
    done := params;
    if filters.stage.Some? && filters.stage.value != "" {
      params := params + [("stage", filters.stage.value)];
    }
    assert params == done + StringParam("stage", filters.stage);
    done := params;
    if filters.page.Some? && filters.page.value != 0 {
      params := params + [("page", Decimal.IntToString(filters.page.value))];
    }
    assert params == done + PageParam(filters.page);
    done := params;
    if filters.ordering.Some? && filters.ordering.value != "" {
      params := params + [("ordering", filters.ordering.value)];
    }
    assert params == done + StringParam("ordering", filters.ordering);
  }

  /** A string filter is sent exactly when it is present and non-empty (truthy). */
  predicate Sent(v: Option<string>, value: string)
  {
    v == Some(value) && value != ""
  }

  /** Every parameter is a filter key, and keys appear at most once, in the fixed order. */
  lemma ParamsOrdered(f: StartupFilters)
    ensures RankedBelow(ParamsFor(f), 6)
  {
    var p0 := StringParam("q", f.q);
    var p1 := p0 + StringParam("industry", f.industry);
    var p2 := p1 + StringParam("location", f.location);
    var p3 := p2 + StringParam("stage", f.stage);
    var p4 := p3 + PageParam(f.page);
    var p5 := p4 + StringParam("ordering", f.ordering);
    assert RankedBelow(p0, 1) by { StringPart("q", f.q); AppendPart([], "q", p0, 0); assert [] + p0 == p0; }
    assert RankedBelow(p1, 2) by { StringPart("industry", f.industry); AppendPart(p0, "industry", StringParam("industry", f.industry), 1); }
    assert RankedBelow(p2, 3) by { StringPart("location", f.location); AppendPart(p1, "location", StringParam("location", f.location), 2); }
    assert RankedBelow(p3, 4) by { StringPart("stage", f.stage); AppendPart(p2, "stage", StringParam("stage", f.stage), 3); }
    assert RankedBelow(p4, 5) by { AppendPart(p3, "page", PageParam(f.page), 4); }
    assert RankedBelow(p5, 6) by { StringPart("ordering", f.ordering); AppendPart(p4, "ordering", StringParam("ordering", f.ordering), 5); }
  }

  /** A string part is empty or one parameter under its key. */
  lemma StringPart(key: string, v: Option<string>)
    ensures |StringParam(key, v)| <= 1 && forall k :: 0 <= k < |StringParam(key, v)| ==> StringParam(key, v)[k].0 == key
  {
  }

  /** A key is sent exactly when its filter is truthy, with the filter's value. */
  lemma ParamsPresence(f: StartupFilters)
    ensures forall v :: ("q", v) in ParamsFor(f) <==> Sent(f.q, v)
    ensures forall v :: ("industry", v) in ParamsFor(f) <==> Sent(f.industry, v)
    ensures forall v :: ("location", v) in ParamsFor(f) <==> Sent(f.location, v)
    ensures forall v :: ("stage", v) in ParamsFor(f) <==> Sent(f.stage, v)
    ensures forall v :: ("ordering", v) in ParamsFor(f) <==> Sent(f.ordering, v)
    ensures forall v :: ("page", v) in ParamsFor(f) <==>
      f.page.Some? && f.page.value != 0 && v == Decimal.IntToString(f.page.value)
  {
    var p := ParamsFor(f);
    forall v ensures ("q", v) in p <==> Sent(f.q, v) {
      KeyOnlyIn(f, ("q", v), 0);
    }
    forall v ensures ("industry", v) in p <==> Sent(f.industry, v) {
      KeyOnlyIn(f, ("industry", v), 1);
    }
    forall v ensures ("location", v) in p <==> Sent(f.location, v) {
      KeyOnlyIn(f, ("location", v), 2);
    }
    forall v ensures ("stage", v) in p <==> Sent(f.stage, v) {
      KeyOnlyIn(f, ("stage", v), 3);
    }
    forall v ensures ("page", v) in p <==> f.page.Some? && f.page.value != 0 && v == Decimal.IntToString(f.page.value) {
      KeyOnlyIn(f, ("page", v), 4);
    }
    forall v ensures ("ordering", v) in p <==> Sent(f.ordering, v) {
      KeyOnlyIn(f, ("ordering", v), 5);
    }
  }

  /** The parts of `ParamsFor`, one per filter key, in order. */
  function Parts(f: StartupFilters): seq<seq<Param>>
  {
    [StringParam("q", f.q), StringParam("industry", f.industry), StringParam("location", f.location),
     StringParam("stage", f.stage), PageParam(f.page), StringParam("ordering", f.ordering)]
  }

  /** A parameter with the key of rank `r` can only come from part `r`. */
  lemma KeyOnlyIn(f: StartupFilters, x: Param, r: nat)
    requires r < 6 && Rank(x.0) == r
    ensures x in ParamsFor(f) <==> x in Parts(f)[r]
  {
    var parts := Parts(f);
    assert ParamsFor(f) == parts[0] + parts[1] + parts[2] + parts[3] + parts[4] + parts[5];
    forall k | 0 <= k < 6 && k != r ensures x !in parts[k] {
    }
  }

  /** The page parameter reads back as the page number. */
  lemma PageParamReadsBack(f: StartupFilters)
    ensures forall v :: ("page", v) in ParamsFor(f) ==> Decimal.ParseInt(v) == f.page.value
  {
    ParamsPresence(f);
    if f.page.Some? && f.page.value != 0 {
      Decimal.ParseIntToString(f.page.value);
    }
  }

  /** No truthy filter, no parameter. */
  lemma ParamsEmpty(f: StartupFilters)
    ensures ParamsFor(f) == [] <==>
      !(f.q.Some? && f.q.value != "") && !(f.industry.Some? && f.industry.value != "")
      && !(f.location.Some? && f.location.value != "") && !(f.stage.Some? && f.stage.value != "")
      && !(f.page.Some? && f.page.value != 0) && !(f.ordering.Some? && f.ordering.value != "")
  {
  }

  /** Ranks strictly increase along the list and stay below `bound`. */
  predicate RankedBelow(p: seq<Param>, bound: nat)
  {
    (forall i :: 0 <= i < |p| ==> Rank(p[i].0) < bound)
    && forall i, j :: 0 <= i < j < |p| ==> Rank(p[i].0) < Rank(p[j].0)
  }

  /** Appending the part of the key of rank `r` keeps the ranks increasing. */
  lemma AppendPart(a: seq<Param>, key: string, b: seq<Param>, r: nat)
    requires RankedBelow(a, r) && Rank(key) == r
    requires |b| <= 1 && forall k :: 0 <= k < |b| ==> b[k].0 == key
    ensures RankedBelow(a + b, r + 1)
  {
  }

  /** `params.toString()` without percent-encoding: `k=v` pairs joined by `&`. */
  function Serialize(params: seq<Param>): string
  {
    if params == [] then ""
    else if |params| == 1 then params[0].0 + "=" + params[0].1
    else params[0].0 + "=" + params[0].1 + "&" + Serialize(params[1..])
  }

  /** The path of the list request: the parameters after `/startups/?`, nothing more when there are none. */
  function ListPath(params: seq<Param>): (path: string)
    ensures |path| >= 11 && path[..11] == "/startups/?"
    ensures params == [] <==> path == "/startups/?"
  {
    var path := "/startups/?" + Serialize(params);
    assert params != [] ==> |Serialize(params)| > 0;
    path
  }

  /** The facet lists offered by the filter controls. */
  datatype FilterOptions = FilterOptions(industries: seq<string>, locations: seq<string>, stages: seq<string>)

  /**
   * `getFilterOptions`: the distinct industries and locations of the fetched
   * page, each sorted ascending, and the fixed stage list.
   */
  function FilterOptionsOf(results: seq<Startup>): (options: FilterOptions)
    ensures StringOrder.StrictlySorted(options.industries)
    ensures StringOrder.StrictlySorted(options.locations)
    ensures forall x :: x in options.industries <==> exists s :: s in results && s.industry == x
    ensures forall x :: x in options.locations <==> exists s :: s in results && s.location == x
    ensures options.stages == Stages
  {
    var o := FilterOptions(StringOrder.SortDistinct(Industries(results)), StringOrder.SortDistinct(Locations(results)), Stages);
    IndustriesOf(results);
    LocationsOf(results);
    assert forall x :: x in o.industries <==> x in StringOrder.Elems(Industries(results));
    assert forall x :: x in o.locations <==> x in StringOrder.Elems(Locations(results));
    o
  }

  /** `data.results.map(s => s.industry)` */
  function Industries(results: seq<Startup>): seq<string>
  {
    seq(|results|, k requires 0 <= k < |results| => results[k].industry)
  }

  /** `data.results.map(s => s.location)` */
  function Locations(results: seq<Startup>): seq<string>
  {
    seq(|results|, k requires 0 <= k < |results| => results[k].location)
  }

  /** The industries listed are those of the fetched startups. */
  lemma IndustriesOf(results: seq<Startup>)
    ensures forall x :: x in Industries(results) <==> exists s :: s in results && s.industry == x
  {
    var industries := Industries(results);
    forall x ensures x in industries <==> exists s :: s in results && s.industry == x {
      if x in industries {
        var k :| 0 <= k < |industries| && industries[k] == x;
        assert results[k] in results;
      }
      if exists s :: s in results && s.industry == x {
        var s :| s in results && s.industry == x;
        var k :| 0 <= k < |results| && results[k] == s;
        assert industries[k] == x;
      }
    }
  }

  /** The locations listed are those of the fetched startups. */
  lemma LocationsOf(results: seq<Startup>)
    ensures forall x :: x in Locations(results) <==> exists s :: s in results && s.location == x
  {
    var locations := Locations(results);
    forall x ensures x in locations <==> exists s :: s in results && s.location == x {
      if x in locations {
        var k :| 0 <= k < |locations| && locations[k] == x;
        assert results[k] in results;
      }
      if exists s :: s in results && s.location == x {
        var s :| s in results && s.location == x;
        var k :| 0 <= k < |results| && results[k] == s;
        assert locations[k] == x;
      }
    }
  }
}
