/**
 * The watchlist endpoints' client side (`api/watchlist.ts`): which record
 * a removal deletes, the membership test over the fetched list, and the
 * body of an add request.  The fetch of `/watchlist/` is a parameter.
 */
module WatchlistApi {
  import opened Wrappers
  import opened Types
  import Decimal

  /** One record of the user's watchlist as the server lists it. */
  datatype WatchlistItem = WatchlistItem(id: int, startup: int, startupName: string, userUsername: string, createdAt: string)

  /** `items.find(item => item.startup === startupId)`, as the index of the first match. */
  function FindFirst(items: seq<WatchlistItem>, startupId: int): (r: Option<nat>)
    ensures r.None? <==> forall i :: 0 <= i < |items| ==> items[i].startup != startupId
    ensures r.Some? ==> r.value < |items| && items[r.value].startup == startupId
    ensures r.Some? ==> forall i :: 0 <= i < r.value ==> items[i].startup != startupId
  {
    if items == [] then None
    else if items[0].startup == startupId then Some(0)
    else
      var rest := FindFirst(items[1..], startupId);
      assert forall i :: 1 <= i < |items| ==> items[i] == items[1..][i - 1];
      if rest.Some? then Some(rest.value + 1) else None
  }

  /** The path a delete request goes to for the record `id`. */
  function DeletePath(id: int): string
  {
    "/watchlist/" + Decimal.IntToString(id) + "/"
  }

  /**
   * `removeFromWatchlist(startupId)` after the list fetch settled as
   * `fetched`: the path of the one delete it issues, no delete when nothing
   * matches, or the fetch's error passed on.
   */
  function RemovalRequest(fetched: Outcome<seq<WatchlistItem>>, startupId: int): (r: Outcome<Option<string>>)
    ensures fetched.Err? ==> r == Err(fetched.thrown)
    ensures fetched.Ok? ==> r.Ok?
    ensures fetched.Ok? && FindFirst(fetched.value, startupId).None? ==> r == Ok(None)
    ensures fetched.Ok? && FindFirst(fetched.value, startupId).Some? ==>
      r == Ok(Some(DeletePath(fetched.value[FindFirst(fetched.value, startupId).value].id)))
  {
    match fetched
    case Err(thrown) => Err(thrown)
    case Ok(items) =>
      var i := FindFirst(items, startupId);
      if i.Some? then Ok(Some(DeletePath(items[i.value].id))) else Ok(None)
  }

  /** `isInWatchlist(startupId)` after the list fetch settled as `fetched`; a failed fetch answers false. */
  function IsInWatchlist(fetched: Outcome<seq<WatchlistItem>>, startupId: int): (present: bool)
    ensures fetched.Err? ==> !present
    ensures fetched.Ok? ==> (present <==> exists i :: 0 <= i < |fetched.value| && fetched.value[i].startup == startupId)
  {
    fetched.Ok? && exists i :: 0 <= i < |fetched.value| && fetched.value[i].startup == startupId
  }

  /** A removal deletes something exactly when the membership test on the same list says yes. */
  lemma RemovalMatchesMembership(items: seq<WatchlistItem>, startupId: int)
    ensures RemovalRequest(Ok(items), startupId).value.Some? <==> IsInWatchlist(Ok(items), startupId)
  {
  }

  /** The id in a delete path reads back as the record id, so distinct records give distinct paths. */
  lemma DeletePathIdentifiesRecord(id: int, other: int)
    ensures Decimal.ParseInt(DeletePath(id)[11..|DeletePath(id)| - 1]) == id
    ensures DeletePath(id) == DeletePath(other) ==> id == other
  {
    assert DeletePath(id)[11..|DeletePath(id)| - 1] == Decimal.IntToString(id);
    Decimal.ParseIntToString(id);
    if DeletePath(id) == DeletePath(other) {
      assert DeletePath(other)[11..|DeletePath(other)| - 1] == Decimal.IntToString(other);
      Decimal.IntToStringInjective(id, other);
    }
  }

  /** The body of `addToWatchlist(startupId)`: exactly `{startup: startupId}`. */
  function AddBody(startupId: int): (body: Json)
    ensures body.JObj? && body.fields.Keys == {"startup"} && body.fields["startup"] == JNum(startupId)
  {
    JObj(map["startup" := JNum(startupId)])
  }

  /** Every add body passes `AddToWatchlistSchema`. */
  lemma AddBodyValid(startupId: int)
    ensures Validate(AddBody(startupId), AddToWatchlistSchema) == Success(map["startup" := JNum(startupId)])
  {
    assert Conforms(AddBody(startupId).fields, AddToWatchlistSchema);
    assert SchemaKeys(AddToWatchlistSchema) == {"startup"} by {
      assert AddToWatchlistSchema[0] in AddToWatchlistSchema;
    }
    var r := Validate(AddBody(startupId), AddToWatchlistSchema);
    assert r.value == map["startup" := JNum(startupId)];
  }
}
