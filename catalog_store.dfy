/**
 * The catalog store (`store/startups.ts`): the current page of startups,
 * its pagination, the active filters, the facet options and the loading
 * and error flags.  Network results are parameters of the actions.
 */
module CatalogStore {
  import opened Wrappers
  import opened Types
  import opened StartupsApi

  /** `initialFilters` */
  const InitialFilters := StartupFilters(Some(""), Some(""), Some(""), Some(""), Some(1), Some("-created_at"))

  datatype Pagination = Pagination(count: int, next: Option<string>, previous: Option<string>, currentPage: int)

  const InitialPagination := Pagination(0, None, None, 1)

  const FetchStartupsFailed := "Failed to fetch startups"
  const FetchFilterOptionsFailed := "Failed to fetch filter options"

  /** `{ ...current, ...patch }`: each key the patch has overrides, the others are kept. */
  function Merge(current: StartupFilters, patch: StartupFilters): StartupFilters
  {
    StartupFilters(
      if patch.q.Some? then patch.q else current.q,
      if patch.industry.Some? then patch.industry else current.industry,
      if patch.location.Some? then patch.location else current.location,
      if patch.stage.Some? then patch.stage else current.stage,
      if patch.page.Some? then patch.page else current.page,
      if patch.ordering.Some? then patch.ordering else current.ordering)
  }

  /** Merging the same patch twice is merging it once; merging nothing changes nothing. */
  lemma MergeIdempotent(current: StartupFilters, patch: StartupFilters)
    ensures Merge(Merge(current, patch), patch) == Merge(current, patch)
    ensures Merge(current, NoFilters) == current
  {
  }

  /** `filters.page || 1`: the page a fetch reports as current, never 0. */
  function EffectivePage(f: StartupFilters): (p: int)
    ensures p != 0
    ensures f.page.Some? && f.page.value != 0 ==> p == f.page.value
    ensures f.page.None? || f.page == Some(0) ==> p == 1
  {
    if f.page.Some? && f.page.value != 0 then f.page.value else 1
  }

  /** The synchronous filter actions. */
  datatype FilterAction = SetFilters(patch: StartupFilters) | SetPage(page: int) | ClearFilters

  /** The filters after one synchronous action. */
  function Apply(f: StartupFilters, a: FilterAction): StartupFilters
  {
    match a
    case SetFilters(patch) => Merge(f, patch).(page := Some(1))
    case SetPage(p) => f.(page := Some(p))
    case ClearFilters => InitialFilters
  }

  /** The filters after a sequence of actions, oldest first. */
  function Run(f: StartupFilters, actions: seq<FilterAction>): StartupFilters
  {
    if actions == [] then f else Apply(Run(f, actions[..|actions| - 1]), actions[|actions| - 1])
  }

  /** Whatever came before, a trailing filter change or clear leaves the first page selected. */
  lemma LastChangeSelectsFirstPage(f: StartupFilters, actions: seq<FilterAction>)
    requires actions != [] && !actions[|actions| - 1].SetPage?
    ensures Run(f, actions).page == Some(1)
  {
  }

  /** Starting from the initial filters, only `setPage` moves away from page 1. */
  lemma {:induction false} PageStaysFirstWithoutSetPage(actions: seq<FilterAction>)
    requires forall k :: 0 <= k < |actions| ==> !actions[k].SetPage?
    ensures Run(InitialFilters, actions).page == Some(1)
  {
    if actions != [] {
      PageStaysFirstWithoutSetPage(actions[..|actions| - 1]);
    }
  }

  /** Clearing is idempotent and forgets every earlier action. */
  lemma ClearForgets(f: StartupFilters, actions: seq<FilterAction>)
    ensures Run(f, actions + [ClearFilters]) == InitialFilters
    ensures Apply(Apply(f, ClearFilters), ClearFilters) == Apply(f, ClearFilters)
  {
    assert (actions + [ClearFilters])[..|actions|] == actions;
  }

  class StartupsStore {
    var startups: seq<Startup>
    var pagination: Pagination
    var filters: StartupFilters
    var filterOptions: FilterOptions
    var isLoading: bool
    var isLoadingFilters: bool
    var error: Option<string>

    constructor()
      ensures startups == [] && pagination == InitialPagination && filters == InitialFilters
      ensures filterOptions == FilterOptions([], [], [])
      ensures !isLoading && !isLoadingFilters && error == None
    {
      startups := [];
      pagination := InitialPagination;
      filters := InitialFilters;
      filterOptions := FilterOptions([], [], []);
      isLoading := false;
      isLoadingFilters := false;
      error := None;
    }

    /**
     * `fetchStartups(overrides)`: requests the list for the stored filters
     * merged with `overrides`; `response` is how that request settles.
     * Success stores the page, its pagination and the merged filters;
     * failure records the message and keeps the data and the old filters.
     */
    method FetchStartups(overrides: StartupFilters, response: Outcome<PaginatedResponse<Startup>>)
      returns (requestPath: string)
      modifies this
      ensures requestPath == ListPath(ParamsFor(Merge(old(filters), overrides)))
      ensures response.Ok? ==>
        && startups == response.value.results
        && pagination == Pagination(response.value.count, response.value.next, response.value.previous,
                                    EffectivePage(Merge(old(filters), overrides)))
        && filters == Merge(old(filters), overrides)
        && error == None
      ensures response.Err? ==>
        && startups == old(startups) && pagination == old(pagination) && filters == old(filters)
        && error == Some(MessageOr(response.thrown, FetchStartupsFailed))
      ensures !isLoading
      ensures filterOptions == old(filterOptions) && isLoadingFilters == old(isLoadingFilters)
    {
      isLoading, error := true, None;
      var merged := Merge(filters, overrides);
      var params := BuildParams(merged);
      requestPath := ListPath(params);
      match response {
        case Ok(page) =>
          startups := page.results;
          pagination := Pagination(page.count, page.next, page.previous, EffectivePage(merged));
          filters := merged;
          isLoading := false;
        case Err(thrown) =>
          error := Some(MessageOr(thrown, FetchStartupsFailed));
          isLoading := false;
      }
    }

    /**
     * `fetchFilterOptions()`: `response` is how the unfiltered list request
     * settles.  Only success replaces the options; failure sets the shared
     * error.  Either way the filter-loading flag ends cleared.
     */
    method FetchFilterOptions(response: Outcome<seq<Startup>>)
      modifies this
      ensures response.Ok? ==> filterOptions == FilterOptionsOf(response.value) && error == old(error)
      ensures response.Err? ==>
        filterOptions == old(filterOptions) && error == Some(MessageOr(response.thrown, FetchFilterOptionsFailed))
      ensures !isLoadingFilters
      ensures startups == old(startups) && pagination == old(pagination) && filters == old(filters)
      ensures isLoading == old(isLoading)
    {
      isLoadingFilters := true;
      match response {
        case Ok(results) =>
          filterOptions := FilterOptionsOf(results);
          isLoadingFilters := false;
        case Err(thrown) =>
          error := Some(MessageOr(thrown, FetchFilterOptionsFailed));
          isLoadingFilters := false;
      }
    }

    /** `setFilters(patch)`: overwrites the supplied keys, keeps the others, and returns to page 1. */
    method SetFilters(patch: StartupFilters)
      modifies this`filters
      ensures filters == Apply(old(filters), FilterAction.SetFilters(patch))
      ensures filters.page == Some(1)
      ensures filters.q == (if patch.q.Some? then patch.q else old(filters).q)
      ensures filters.industry == (if patch.industry.Some? then patch.industry else old(filters).industry)
      ensures filters.location == (if patch.location.Some? then patch.location else old(filters).location)
      ensures filters.stage == (if patch.stage.Some? then patch.stage else old(filters).stage)
      ensures filters.ordering == (if patch.ordering.Some? then patch.ordering else old(filters).ordering)
    {
      var merged := Merge(filters, patch);
      filters := merged.(page := Some(1));
    }

    /** `clearFilters()`: back to the initial filters. */
    method ClearFilters()
      modifies this`filters
      ensures filters == Apply(old(filters), FilterAction.ClearFilters) == InitialFilters
    {
      filters := InitialFilters;
    }

    /** `setPage(page)`: changes the page and nothing else; it does not fetch. */
    method SetPage(page: int)
      modifies this`filters
      ensures filters == Apply(old(filters), FilterAction.SetPage(page))
      ensures filters.page == Some(page) && filters == old(filters).(page := Some(page))
    {
      filters := filters.(page := Some(page));
    }

    /** `setError(error)` */
    method SetError(e: Option<string>)
      modifies this`error
      ensures error == e
    {
      error := e;
    }

    /** `clearError()` */
    method ClearError()
      modifies this`error
      ensures error == None
    {
      error := None;
    }
  }
}
