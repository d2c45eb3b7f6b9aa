/**
 * The HTTP client's interceptors (`api/client.ts`).  The request
 * interceptor attaches the bearer header from the saved session; the
 * response interceptor answers a first 401 by refreshing the access token
 * and sending the same request object once more.
 *
 * Browser storage is a map from keys to what parsing the stored text
 * gives; the server's replies, numbered by transmission, and the outcome of
 * the refresh call are parameters.
 */
module Gateway {
  import opened Wrappers
  import opened SessionStore

  /** The storage key the session store saves under. */
  const AuthKey := "auth-storage"

  const LoginPage := "/login"

  /**
   * What `JSON.parse` makes of the text saved under a key.  `Blank` is the
   * empty text; `Malformed` is text whose parsing, or reading `.state` off
   * the parsed value, throws (invalid JSON, the literal `null`);
   * `Document` is a parsed object with its optional `state` object and the
   * `version` written beside it.
   */
  datatype StoredDoc = Blank | Malformed | Document(state: Option<StoredSession>, version: int)

  type Storage = map<string, StoredDoc>

  datatype Response = Response(status: int, body: string)

  /** How one transmission ends: a response, or an error with the status of its response if it had one. */
  datatype Reply = Answered(response: Response) | Refused(status: Option<int>)

  /** Why a request was rejected. */
  datatype Reason = HttpFailure(status: Option<int>) | RefreshFailure(thrown: Thrown) | StorageFailure

  datatype Settled = Resolved(response: Response) | Rejected(reason: Reason)

  /**
   * Everything one call of the client does: how it settles, the storage it
   * leaves, where it redirects the page, the Authorization header of each
   * transmission of the request, and the refresh tokens it sends to the
   * refresh endpoint.
   */
  datatype Exchange = Exchange(settled: Settled, storage: Storage, redirect: Option<string>,
                               sent: seq<Option<string>>, refreshRequests: seq<string>)

  /** The saved session, when there is one the interceptors can read. */
  function SavedState(storage: Storage): (s: Option<StoredSession>)
    ensures s.Some? <==> AuthKey in storage && storage[AuthKey].Document? && storage[AuthKey].state.Some?
  {
    if AuthKey in storage && storage[AuthKey].Document? then storage[AuthKey].state else None
  }

  /** The header the request interceptor attaches, if any: never one without a usable saved access token. */
  function BearerHeader(storage: Storage): (h: Option<string>)
    ensures h.Some? <==> SavedState(storage).Some? && Truthy(SavedState(storage).value.accessToken)
    ensures h.Some? ==> h.value == "Bearer " + SavedState(storage).value.accessToken.value
  {
    var s := SavedState(storage);
    if s.Some? && Truthy(s.value.accessToken) then Some("Bearer " + s.value.accessToken.value) else None
  }

  /** The header a request goes out with: the interceptor's, or the one it already had. */
  function Attach(header: Option<string>, storage: Storage): (h: Option<string>)
    ensures BearerHeader(storage).Some? ==> h == BearerHeader(storage)
    ensures BearerHeader(storage).None? ==> h == header
  {
    if BearerHeader(storage).Some? then BearerHeader(storage) else header
  }

  /**
   * What the session store persists under `auth-storage` is what the request
   * interceptor reads back: a signed-in store's requests carry its access
   * token, and a signed-out store's requests go out with the header they had.
   */
  lemma PersistedSessionAuthorizes(store: AuthStore, version: int, header: Option<string>)
    requires store.Valid()
    ensures var storage := map[AuthKey := Document(Some(store.Persisted()), version)];
      && SavedState(storage) == Some(store.Persisted())
      && BearerHeader(storage) == (if Truthy(store.accessToken) then Some("Bearer " + store.accessToken.value) else None)
      && (!store.isAuthenticated ==> Attach(header, storage) == header)
  {
  }

  /** Without a saved session, or with one that cannot be read, the request goes out with no new header. */
  lemma NoSessionNoHeader(storage: Storage, header: Option<string>)
    requires AuthKey !in storage || storage[AuthKey] == Blank || storage[AuthKey] == Malformed
    ensures Attach(header, storage) == header
  {
  }

  /** One transmission of a request whose `_retry` flag is `retry`, and how the interceptor settles it. */
  function Transmit(retry: bool, header: Option<string>, storage: Storage, server: nat -> Reply, k: nat,
                    refresh: Outcome<string>): (e: Exchange)
    decreases if retry then 0 else 1, 1
    ensures e.sent != [] && e.sent[0] == Attach(header, storage)
    ensures e.redirect.Some? ==> e.redirect == Some(LoginPage) && AuthKey !in e.storage
  {
    var h := Attach(header, storage);
    match server(k)
    case Answered(r) => Exchange(Resolved(r), storage, None, [h], [])
    case Refused(status) =>
      var e := Recover(retry, h, storage, status, server, k, refresh);
      e.(sent := [h] + e.sent)
  }

  /**
   * The response interceptor's error branch, for a request whose `_retry`
   * flag was `retry` and that went out with `header`; `sent` holds only the
   * transmissions it makes itself.
   */
  function Recover(retry: bool, header: Option<string>, storage: Storage, status: Option<int>,
                   server: nat -> Reply, k: nat, refresh: Outcome<string>): (e: Exchange)
    decreases if retry then 0 else 1, 0
    ensures e.redirect.Some? ==> e.redirect == Some(LoginPage) && AuthKey !in e.storage
  {
    var asIs := Exchange(Rejected(HttpFailure(status)), storage, None, [], []);
    if status != Some(401) || retry then asIs
    else if AuthKey !in storage || storage[AuthKey].Blank? then asIs
    else if storage[AuthKey].Malformed? then Exchange(Rejected(StorageFailure), storage - {AuthKey}, Some(LoginPage), [], [])
    else
      var doc := storage[AuthKey];
      if doc.state.None? || !Truthy(doc.state.value.refreshToken) then asIs
      else
        var token := doc.state.value.refreshToken.value;
        match refresh
        case Err(thrown) =>
          Exchange(Rejected(RefreshFailure(thrown)), storage - {AuthKey}, Some(LoginPage), [], [token])
        case Ok(access) =>
          var updated := storage[AuthKey := Document(Some(doc.state.value.(accessToken := Some(access))), doc.version)];
          var again := Transmit(true, Some("Bearer " + access), updated, server, k + 1, refresh);
          again.(refreshRequests := [token] + again.refreshRequests)
  }

  /** A request object is sent at most twice, and only once when it is already marked as retried. */
  lemma AtMostOneRetry(retry: bool, header: Option<string>, storage: Storage, server: nat -> Reply, k: nat,
                       refresh: Outcome<string>)
    ensures var e := Transmit(retry, header, storage, server, k, refresh);
      1 <= |e.sent| <= 2 && (retry ==> |e.sent| == 1) && |e.refreshRequests| <= 1
  {
    var h := Attach(header, storage);
    if server(k).Refused? && !retry && server(k).status == Some(401) && AuthKey in storage {
      var doc := storage[AuthKey];
      if doc.Document? && doc.state.Some? && Truthy(doc.state.value.refreshToken) && refresh.Ok? {
        var updated := storage[AuthKey := Document(Some(doc.state.value.(accessToken := Some(refresh.value))), doc.version)];
        var again := Transmit(true, Some("Bearer " + refresh.value), updated, server, k + 1, refresh);
        assert |again.sent| == 1 && again.refreshRequests == [];
      }
    }
  }

  /** A successful response passes through untouched. */
  lemma SuccessPassesThrough(retry: bool, header: Option<string>, storage: Storage, server: nat -> Reply, k: nat,
                             refresh: Outcome<string>)
    requires server(k).Answered?
    ensures Transmit(retry, header, storage, server, k, refresh)
      == Exchange(Resolved(server(k).response), storage, None, [Attach(header, storage)], [])
  {
  }

  /** Any error but a 401 on a fresh request is rejected as it is, with no refresh and no storage change. */
  lemma OtherErrorsRejected(retry: bool, header: Option<string>, storage: Storage, server: nat -> Reply, k: nat,
                            refresh: Outcome<string>)
    requires server(k).Refused? && (server(k).status != Some(401) || retry)
    ensures Transmit(retry, header, storage, server, k, refresh)
      == Exchange(Rejected(HttpFailure(server(k).status)), storage, None, [Attach(header, storage)], [])
  {
  }

  /** With no saved session, or no usable refresh token in it, the 401 itself is rejected and storage is untouched. */
  lemma NoRefreshTokenRejectsOriginal(header: Option<string>, storage: Storage, server: nat -> Reply, k: nat,
                                      refresh: Outcome<string>)
    requires server(k) == Refused(Some(401))
    requires AuthKey !in storage || storage[AuthKey].Blank?
      || (storage[AuthKey].Document? && (SavedState(storage).None? || !Truthy(SavedState(storage).value.refreshToken)))
    ensures Transmit(false, header, storage, server, k, refresh)
      == Exchange(Rejected(HttpFailure(Some(401))), storage, None, [Attach(header, storage)], [])
  {
  }

  /**
   * A refreshed token rewrites only the saved access token, and the request
   * goes out once more carrying it; the reply to that second transmission
   * decides the result, and its failure leaves the saved session in place.
   */
  lemma RefreshRewritesAccessToken(header: Option<string>, storage: Storage, server: nat -> Reply, k: nat,
                                   access: string)
    requires server(k) == Refused(Some(401))
    requires SavedState(storage).Some? && Truthy(SavedState(storage).value.refreshToken)
    ensures var saved := SavedState(storage).value;
      var e := Transmit(false, header, storage, server, k, Ok(access));
      && e.storage == storage[AuthKey := Document(Some(saved.(accessToken := Some(access))), storage[AuthKey].version)]
      && SavedState(e.storage) == Some(saved.(accessToken := Some(access)))
      && e.refreshRequests == [saved.refreshToken.value]
      && |e.sent| == 2 && e.sent[1] == Some("Bearer " + access)
      && e.redirect == None
      && (server(k + 1).Answered? ==> e.settled == Resolved(server(k + 1).response))
      && (server(k + 1).Refused? ==> e.settled == Rejected(HttpFailure(server(k + 1).status)))
  {
    var saved := SavedState(storage).value;
    var updated := storage[AuthKey := Document(Some(saved.(accessToken := Some(access))), storage[AuthKey].version)];
    assert Attach(Some("Bearer " + access), updated) == Some("Bearer " + access);
  }

  /** A failed refresh, or a saved text that cannot be parsed, drops the saved session and sends the page to the login screen. */
  lemma RefreshFailureClearsSession(header: Option<string>, storage: Storage, server: nat -> Reply, k: nat,
                                    refresh: Outcome<string>)
    requires server(k) == Refused(Some(401))
    requires AuthKey in storage
    requires storage[AuthKey].Malformed? || (SavedState(storage).Some? && Truthy(SavedState(storage).value.refreshToken) && refresh.Err?)
    ensures var e := Transmit(false, header, storage, server, k, refresh);
      && e.storage == storage - {AuthKey}
      && AuthKey !in e.storage
      && e.redirect == Some(LoginPage)
      && |e.sent| == 1
      && e.settled == (if storage[AuthKey].Malformed? then Rejected(StorageFailure) else Rejected(RefreshFailure(refresh.thrown)))
  {
  }

  /** A request in flight: its `_retry` mark and its Authorization header. */
  class Request {
    var retry: bool
    var authorization: Option<string>

    constructor(authorization: Option<string>)
      ensures !retry && this.authorization == authorization
    {
      retry := false;
      this.authorization := authorization;
    }
  }

  /** The browser state the interceptors touch: local storage and the page location. */
  class Client {
    var storage: Storage
    var location: Option<string>

    constructor(storage: Storage)
      ensures this.storage == storage && location == None
    {
      this.storage := storage;
      location := None;
    }

    /** The request interceptor: sets the bearer header when a usable access token is saved, and always lets the request go on. */
    method InterceptRequest(req: Request)
      modifies req`authorization
      ensures req.authorization == Attach(old(req.authorization), storage)
    {
      var header := BearerHeader(storage);
      if header.Some? {
        req.authorization := header;
      }
    }

    /**
     * Sends `req` as transmission number `k`, runs the response interceptor
     * on the reply, and returns how the call settles, the header of each
     * transmission and the refresh tokens sent.
     */
    method Send(req: Request, server: nat -> Reply, k: nat, refresh: Outcome<string>)
      returns (settled: Settled, sent: seq<Option<string>>, refreshRequests: seq<string>)
      modifies this, req
      decreases if req.retry then 0 else 1, 1
      ensures var e := Transmit(old(req.retry), old(req.authorization), old(storage), server, k, refresh);
        && settled == e.settled && sent == e.sent && refreshRequests == e.refreshRequests
        && storage == e.storage
        && location == (if e.redirect.Some? then e.redirect else old(location))
      ensures req.retry == (old(req.retry) || server(k) == Refused(Some(401)))
      ensures sent != [] && req.authorization == sent[|sent| - 1]
    {
      InterceptRequest(req);
      var header := req.authorization;
      match server(k) {
        case Answered(r) =>
          settled, sent, refreshRequests := Resolved(r), [header], [];
        case Refused(status) =>
          var more;
          settled, more, refreshRequests := OnRejected(req, status, server, k, refresh);
          sent := [header] + more;
      }
    }

    /** The response interceptor's error handler for transmission `k` of `req`. */
    method OnRejected(req: Request, status: Option<int>, server: nat -> Reply, k: nat, refresh: Outcome<string>)
      returns (settled: Settled, sent: seq<Option<string>>, refreshRequests: seq<string>)
      modifies this, req
      decreases if req.retry then 0 else 1, 0
      ensures var e := Recover(old(req.retry), old(req.authorization), old(storage), status, server, k, refresh);
        && settled == e.settled && sent == e.sent && refreshRequests == e.refreshRequests
        && storage == e.storage
        && location == (if e.redirect.Some? then e.redirect else old(location))
      ensures req.retry == (old(req.retry) || status == Some(401))
      ensures req.authorization == (if sent == [] then old(req.authorization) else sent[|sent| - 1])
    {
      settled, sent, refreshRequests := Rejected(HttpFailure(status)), [], [];
      if status != Some(401) || req.retry {
        return;
      }
      req.retry := true;
      if AuthKey !in storage || storage[AuthKey].Blank? {
        return;
      }
      if storage[AuthKey].Malformed? {
        storage := storage - {AuthKey};
        location := Some(LoginPage);
        settled := Rejected(StorageFailure);
        return;
      }
      var doc := storage[AuthKey];
      if doc.state.None? || !Truthy(doc.state.value.refreshToken) {
        return;
      }
      var token := doc.state.value.refreshToken.value;
      match refresh {
        case Err(thrown) =>
          storage := storage - {AuthKey};
          location := Some(LoginPage);
          settled, refreshRequests := Rejected(RefreshFailure(thrown)), [token];
        case Ok(access) =>
          storage := storage[AuthKey := Document(Some(doc.state.value.(accessToken := Some(access))), doc.version)];
          req.authorization := Some("Bearer " + access);
          var more;
          settled, sent, more := Send(req, server, k + 1, refresh);
          refreshRequests := [token] + more;
      }
    }
  }
}
