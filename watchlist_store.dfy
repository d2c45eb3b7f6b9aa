/**
 * The local watchlist store (`store/watchlist.ts`): the ids of the
 * startups the user has watched, with add, remove and a membership test.
 * Only the id list survives a reload.
 */
module WatchlistStore {
  import opened Wrappers
  import opened Sequences

  /** The part of the store `partialize` hands to storage. */
  datatype PersistedWatchlist = PersistedWatchlist(watchlistItems: seq<int>)

  /** Adding appends even an id that is already there: the list grows by one and holds the id. */
  lemma AddGrows(items: seq<int>, id: int)
    ensures |items + [id]| == |items| + 1
    ensures Count(items + [id], id) == Count(items, id) + 1
    ensures id in items + [id]
  {
    CountAppend(items, [id], id);
    assert Count([id], id) == 1 + Count([id][1..], id);
  }

  /** Removal is idempotent, and removing an absent id changes nothing. */
  lemma RemoveIdempotent(items: seq<int>, id: int)
    ensures RemoveAll(RemoveAll(items, id), id) == RemoveAll(items, id)
    ensures id !in items ==> RemoveAll(items, id) == items
  {
    RemoveAbsent(RemoveAll(items, id), id);
    if id !in items { RemoveAbsent(items, id); }
  }

  /** Removing right after adding undoes the add and every earlier copy of the id. */
  lemma AddThenRemove(items: seq<int>, id: int)
    ensures RemoveAll(items + [id], id) == RemoveAll(items, id)
  {
    RemoveAllAppend(items, [id], id);
    assert RemoveAll([id], id) == [];
  }

  /** Removing one id keeps every other id that was there. */
  lemma RemoveKeepsOthers(items: seq<int>, id: int, other: int)
    requires other != id
    ensures other in RemoveAll(items, id) <==> other in items
  {
  }

  class WatchlistStore {
    var watchlistItems: seq<int>
    var isLoading: bool
    var error: Option<string>

    /** The initial store, or the one rehydrated from a saved id list. */
    constructor(saved: Option<PersistedWatchlist>)
      ensures watchlistItems == (if saved.Some? then saved.value.watchlistItems else [])
      ensures !isLoading && error == None
    {
      watchlistItems := if saved.Some? then saved.value.watchlistItems else [];
      isLoading := false;
      error := None;
    }

    /** `partialize`: only the id list is saved. */
    function Persisted(): (p: PersistedWatchlist)
      reads this
      ensures p.watchlistItems == watchlistItems
    {
      PersistedWatchlist(watchlistItems)
    }

    /** `addToWatchlist(id)`: appends the id and clears the error. */
    method AddToWatchlist(startupId: int)
      modifies this
      ensures watchlistItems == old(watchlistItems) + [startupId]
      ensures error == None && isLoading == old(isLoading)
      ensures startupId in watchlistItems
    {
      watchlistItems := watchlistItems + [startupId];
      error := None;
    }

    /** `removeFromWatchlist(id)`: drops every occurrence, keeping the others in order. */
    method RemoveFromWatchlist(startupId: int)
      modifies this`watchlistItems
      ensures watchlistItems == RemoveAll(old(watchlistItems), startupId)
      ensures startupId !in watchlistItems
      ensures IsSubseq(watchlistItems, old(watchlistItems))
    {
      watchlistItems := RemoveAll(watchlistItems, startupId);
    }

    /** `isInWatchlist(id)`: a membership test that changes nothing. */
    method IsInWatchlist(startupId: int) returns (present: bool)
      ensures present <==> startupId in watchlistItems
    {
      present := startupId in watchlistItems;
    }

    /** `setLoading(loading)` */
    method SetLoading(loading: bool)
      modifies this`isLoading
      ensures isLoading == loading
    {
      isLoading := loading;
    }

    /** `setError(error)` */
    method SetError(e: Option<string>)
      modifies this`error
      ensures error == e
    {
      error := e;
    }

    /** `clearError()` */
    method ClearError()
      modifies this`error
      ensures error == None
    {
      error := None;
    }
  }

  /** Saving and rehydrating gives back the same id list, with fresh flags. */
  method SaveAndReload(store: WatchlistStore) returns (reloaded: WatchlistStore)
    ensures reloaded.watchlistItems == store.watchlistItems
    ensures !reloaded.isLoading && reloaded.error == None
  {
    reloaded := new WatchlistStore(Some(store.Persisted()));
  }
}
