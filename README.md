# Startup Scout — a verified model of its state layer and pure helpers

Startup Scout is a small dashboard for browsing a startup catalog. A React client keeps three stores:

- the catalog, with its filters, pagination and facet options;
- a local watchlist of startup ids;
- the signed-in session.

The client talks to a Django backend through an HTTP client. That client attaches a bearer token and refreshes it once when a request comes back 401. The backend adds a free-text search over the catalog, a tag-list parser, a per-user analytics dashboard and a CSV export of the watchlist.

This project models that logic in Dafny:

- **Stores.** They are classes whose methods update their fields. Each method states its whole new state.
- **HTTP client.** It is a `Client` class with mutually recursive methods `Send`/`OnRejected`. They are proved equal to the pure functions `Transmit`/`Recover`, and the retry and storage properties are proved about those functions.
- **Network and storage.** Every network result is a parameter (`Outcome` = `Ok(value)` or `Err(thrown)`, where a thrown value is an `Error` instance with a message or some other value). Browser storage is a map from key to the parsed view of the stored document.
- **Pure code.** Query-parameter building, facet lists, the pagination window, filter chips and labels, form validation, schemas, `tag_list`, the `q` search and the analytics aggregation are functions with lemmas. The loops in the source (`getVisiblePages` and the CSV export) are methods with loop invariants proved against those functions. `getStartups`' parameter building and `validateForm` are sequences of `if`s; they are methods that update their result step by step, also proved against those functions.

Modules:

- `Wrappers`: Option, Result, Outcome and JS truthiness.
- `Sequences`: counting, subsequences and remove-all.
- `Text`: trim/strip, split and join.
- `Decimal`: integer to decimal string and back.
- `StringOrder`: JavaScript's string order, on UTF-16 code units, and sorted, duplicate-free lists.
- `Types`: zod schemas and records.
- `StartupsApi`, `WatchlistApi`: the API helpers.
- `CatalogStore`, `WatchlistStore`, `SessionStore`: the three stores.
- `Gateway`: the HTTP client.
- `Pagination`, `FilterPanel`, `LoginFormModel`: the components.
- `StartupRecord`: the model's `tag_list` and stage choices.
- `CatalogSearch`: the `q` filter.
- `Analytics`: the dashboard and export.

The watchlist store (`store/watchlist.ts`) keeps a local list of startup ids and makes no server call; that is what is modelled.

## Model

| member | source | states |
|---|---|---|
| CatalogStore.StartupsStore.constructor | startup-scout-frontend/src/store/startups.ts:36-61 | The initial state: no startups, pagination `{0, null, null, 1}`, the fixed initial filters, empty options, not loading, no error. |
| CatalogStore.EffectivePage | startup-scout-frontend/src/store/startups.ts:78 | `filters.page \|\| 1`: the page is never 0; an absent page or page 0 gives 1, otherwise the page itself. |
| CatalogStore.Merge | startup-scout-frontend/src/store/startups.ts:68 | `{ ...current, ...patch }`: each key the patch sets takes the patch's value, every other key keeps the current one. It is the reference definition behind MergeIdempotent, SetFilters and FetchStartups. |
| CatalogStore.MergeIdempotent | startup-scout-frontend/src/store/startups.ts:68 | Spreading the same overrides twice is the same as once, and spreading no overrides keeps the filters. |
| CatalogStore.StartupsStore.FetchStartups | startup-scout-frontend/src/store/startups.ts:63-89 | Requests the list path built from the merged filters. On success: results, count/next/previous, the effective page and the merged filters are stored and the error is cleared. On failure: startups, pagination and filters keep their old values (overrides are not stored) and the error is the thrown message or "Failed to fetch startups". Loading ends false either way; the options fields are untouched. |
| CatalogStore.StartupsStore.FetchFilterOptions | startup-scout-frontend/src/store/startups.ts:91-106 | Replaces the options only on success; on failure keeps them and sets the shared error (message or "Failed to fetch filter options"). `isLoadingFilters` ends false; catalog fields and `isLoading` are untouched. |
| CatalogStore.StartupsStore.SetFilters | startup-scout-frontend/src/store/startups.ts:108-112 | Overwrites exactly the supplied keys, keeps every other filter field, and sets page to 1; only `filters` changes. |
| CatalogStore.StartupsStore.ClearFilters | startup-scout-frontend/src/store/startups.ts:114-116 | Filters become `{q:'', industry:'', location:'', stage:'', page:1, ordering:'-created_at'}`; only `filters` changes. |
| CatalogStore.StartupsStore.SetPage | startup-scout-frontend/src/store/startups.ts:118-122 | Only `filters.page` changes, to the given page; nothing is fetched. |
| CatalogStore.StartupsStore.SetError | startup-scout-frontend/src/store/startups.ts:124-126 | Sets only the error. |
| CatalogStore.StartupsStore.ClearError | startup-scout-frontend/src/store/startups.ts:128-130 | Clears only the error. |
| CatalogStore.LastChangeSelectsFirstPage | startup-scout-frontend/src/store/startups.ts:108-122 | After any sequence of filter actions whose last is not `setPage`, the page is 1. |
| CatalogStore.PageStaysFirstWithoutSetPage | startup-scout-frontend/src/store/startups.ts:36-116 | From the initial filters, no sequence of `setFilters`/`clearFilters` ever leaves page 1. |
| CatalogStore.ClearForgets | startup-scout-frontend/src/store/startups.ts:114-116 | Clearing after any history yields the initial filters, and clearing is idempotent. |
| WatchlistStore.WatchlistStore.constructor | startup-scout-frontend/src/store/watchlist.ts:20-24 | Starts from the persisted items, or none; not loading, no error. |
| WatchlistStore.WatchlistStore.AddToWatchlist | startup-scout-frontend/src/store/watchlist.ts:26-31 | Appends the id last, keeps the prior items in order, clears the error; afterwards the id is a member. |
| WatchlistStore.AddGrows | startup-scout-frontend/src/store/watchlist.ts:28 | Adding grows the list by exactly one, even for an id already present. |
| WatchlistStore.WatchlistStore.RemoveFromWatchlist | startup-scout-frontend/src/store/watchlist.ts:33-37 | Removes every occurrence; afterwards the id is absent and the rest is an order-preserving subsequence. |
| WatchlistStore.RemoveIdempotent | startup-scout-frontend/src/store/watchlist.ts:35 | Removing twice is removing once; removing an absent id changes nothing. |
| WatchlistStore.RemoveKeepsOthers | startup-scout-frontend/src/store/watchlist.ts:35 | Every other id stays a member exactly when it was one. |
| WatchlistStore.AddThenRemove | startup-scout-frontend/src/store/watchlist.ts:26-37 | Adding then removing the same id equals just removing it. |
| WatchlistStore.WatchlistStore.IsInWatchlist | startup-scout-frontend/src/store/watchlist.ts:39-41 | True iff the id is in the list; changes nothing. |
| WatchlistStore.WatchlistStore.SetLoading | startup-scout-frontend/src/store/watchlist.ts:43-45 | Sets only `isLoading`. |
| WatchlistStore.WatchlistStore.SetError | startup-scout-frontend/src/store/watchlist.ts:47-49 | Sets only the error. |
| WatchlistStore.WatchlistStore.ClearError | startup-scout-frontend/src/store/watchlist.ts:51-53 | Clears only the error. |
| WatchlistStore.WatchlistStore.Persisted | startup-scout-frontend/src/store/watchlist.ts:55-58 | The persisted subset is the item list alone. |
| WatchlistStore.SaveAndReload | startup-scout-frontend/src/store/watchlist.ts:55-58 | A store rebuilt from the persisted subset has the same items but default loading and error flags. |
| SessionStore.AuthStore.constructor | startup-scout-frontend/src/store/auth.ts:53-58 | The anonymous state, which satisfies the invariant that `isAuthenticated`, user and both tokens are present together. |
| SessionStore.AuthStore.Authenticate | startup-scout-frontend/src/store/auth.ts:61-99 | The shared body of login and register, with the same contract as both. |
| SessionStore.AuthStore.Login | startup-scout-frontend/src/store/auth.ts:61-79 | Success stores user and both tokens, authenticates, clears the error. Failure keeps user, tokens and `isAuthenticated`, sets the message or "Login failed", and re-raises the thrown value. Loading ends false; the invariant is kept. |
| SessionStore.AuthStore.Register | startup-scout-frontend/src/store/auth.ts:81-99 | As login, with the fallback "Registration failed". |
| SessionStore.AuthStore.Logout | startup-scout-frontend/src/store/auth.ts:101-109 | Nulls user and tokens, unauthenticates, clears the error, leaves `isLoading`; the result is the same whatever the prior state (idempotent). |
| SessionStore.AuthStore.RefreshAccessToken | startup-scout-frontend/src/store/auth.ts:111-127 | Without a truthy refresh token: raises "No refresh token available" and changes nothing. On success: replaces only the access token. On failure: logs out and re-raises. The invariant is kept. |
| SessionStore.AuthStore.ClearError | startup-scout-frontend/src/store/auth.ts:129-131 | Clears only the error. |
| SessionStore.AuthStore.SetLoading | startup-scout-frontend/src/store/auth.ts:133-135 | Sets only `isLoading`. |
| SessionStore.AuthStore.Persisted | startup-scout-frontend/src/store/auth.ts:137-144 | The persisted subset is exactly user, both tokens and `isAuthenticated`; in a consistent store it is authenticated iff user and both tokens are present, and a signed-out one persists none of them. |
| Gateway.PersistedSessionAuthorizes | startup-scout-frontend/src/api/client.ts:19-32 | What the session store persists under `auth-storage` is read back by the request interceptor: a signed-in store's requests carry `Bearer <its access token>`, a signed-out store's requests keep the header they had. |
| Gateway.SavedState | startup-scout-frontend/src/api/client.ts:20-24 | A saved session exists iff the key is stored, parses, and has a `state`. |
| Gateway.BearerHeader | startup-scout-frontend/src/api/client.ts:19-32 | A header exists iff the stored `state.accessToken` is truthy, and then it is "Bearer " + token. |
| Gateway.Attach | startup-scout-frontend/src/api/client.ts:17-33 | Sets the header when there is a token; otherwise the request goes on with its header as it was. |
| Gateway.NoSessionNoHeader | startup-scout-frontend/src/api/client.ts:21-30 | With nothing stored, a blank entry or an unparsable one, no header is set and the request proceeds. |
| Gateway.Client.InterceptRequest | startup-scout-frontend/src/api/client.ts:17-37 | Sets the request's Authorization as `Attach` decides. |
| Gateway.Transmit | startup-scout-frontend/src/api/client.ts:40-87 | One transmission and how the response interceptor settles it. The first header sent is the request interceptor's (`Attach`), and a redirect is only ever to `/login`, with `auth-storage` removed. |
| Gateway.Recover | startup-scout-frontend/src/api/client.ts:44-86 | The interceptor's error branch. A redirect is only ever to `/login`, with `auth-storage` removed. |
| Gateway.Client.Send | startup-scout-frontend/src/api/client.ts:40-87 | Sends a request and runs the response interceptor. The outcome, the headers sent, the refresh calls, the new storage and the redirect are those of `Transmit`. The request ends marked `_retry` iff it was, or the server answered 401, and its `Authorization` header is the one last sent. |
| Gateway.Client.OnRejected | startup-scout-frontend/src/api/client.ts:44-86 | The error branch. Its result is that of `Recover`, and it marks `_retry` on the first 401. The request keeps its header unless it is re-sent, and then holds the header last sent. |
| Gateway.AtMostOneRetry | startup-scout-frontend/src/api/client.ts:47-73 | Whatever the server and the refresh outcome, one request object is sent at most twice and refreshes at most once; a request already marked is sent once. |
| Gateway.SuccessPassesThrough | startup-scout-frontend/src/api/client.ts:41-43 | A successful response resolves unchanged, with storage untouched and one transmission. |
| Gateway.OtherErrorsRejected | startup-scout-frontend/src/api/client.ts:47-85 | Any error other than a first 401 is rejected as it was, with no refresh and storage untouched. |
| Gateway.NoRefreshTokenRejectsOriginal | startup-scout-frontend/src/api/client.ts:52-85 | With no stored data or no refresh token, the original 401 is rejected and storage is untouched. |
| Gateway.RefreshRewritesAccessToken | startup-scout-frontend/src/api/client.ts:58-73 | On refresh success, only `state.accessToken` changes in storage and the refresh token is sent once. The request is re-sent once with the new bearer header. Its result, even a failure, settles the call without clearing storage, because the retry is returned un-awaited. |
| Gateway.RefreshFailureClearsSession | startup-scout-frontend/src/api/client.ts:54-81 | A refresh failure or an unparsable stored document removes `auth-storage`, redirects to `/login` and rejects with that error. |
| StartupsApi.ParamsFor | startup-scout-frontend/src/api/startups.ts:9-14 | The parameters `getStartups` appends: at most six, none with an empty value. Which keys appear, and in what order, is stated by ParamsPresence and ParamsOrdered. |
| StartupsApi.BuildParams | startup-scout-frontend/src/api/startups.ts:9-14 | The parameter list appended one field at a time equals `ParamsFor`. |
| StartupsApi.ParamsPresence | startup-scout-frontend/src/api/startups.ts:9-14 | A key appears with a value iff that filter is truthy (empty strings and page 0 are omitted); page is sent as its decimal string. |
| StartupsApi.ParamsOrdered | startup-scout-frontend/src/api/startups.ts:9-14 | Keys appear at most once each, in the order q, industry, location, stage, page, ordering. |
| StartupsApi.KeyOnlyIn | startup-scout-frontend/src/api/startups.ts:9-14 | A parameter occurs in the list iff it occurs in the part for its own key. |
| StartupsApi.PageParamReadsBack | startup-scout-frontend/src/api/startups.ts:13 | The page parameter parses back to the page number. |
| StartupsApi.ParamsEmpty | startup-scout-frontend/src/api/startups.ts:9-14 | No parameters iff no filter is truthy. |
| StartupsApi.ListPath | startup-scout-frontend/src/api/startups.ts:16 | The path is "/startups/?" followed by the parameters, and equals "/startups/?" exactly when there are none. |
| StartupsApi.FilterOptionsOf | startup-scout-frontend/src/api/startups.ts:27-36 | Industries and locations are sorted ascending by UTF-16 code units (the default `.sort()` order) and duplicate-free, with the same values as the results; stages are the fixed eight. |
| StringOrder.SortDistinct | startup-scout-frontend/src/api/startups.ts:32-33 | `[...new Set(xs)].sort()`: strictly sorted by UTF-16 code units, with the same elements as `xs`. |
| StringOrder.Units | startup-scout-frontend/src/api/startups.ts:32-33 | A character's UTF-16 code units: one unit below U+10000, otherwise a high then a low surrogate. |
| StringOrder.CharLessTotal | startup-scout-frontend/src/api/startups.ts:32-33 | Two different characters have different code units, so one sorts before the other. |
| StringOrder.LessIsCodeUnitOrder | startup-scout-frontend/src/api/startups.ts:32-33 | The character-wise order equals JavaScript's lexicographic comparison of the strings' UTF-16 code units. |
| StringOrder.LessTotal | startup-scout-frontend/src/api/startups.ts:32-33 | Of two different strings one sorts before the other. |
| StringOrder.BmpCompareByCodePoint | startup-scout-frontend/src/api/startups.ts:32-33 | Below U+10000 one-character strings compare as their code points. |
| StringOrder.SupplementaryBeforeHighBmp | startup-scout-frontend/src/api/startups.ts:32-33 | A character above U+FFFF sorts before every character from U+E000 to U+FFFF, through its surrogate pair. |
| StringOrder.SortDistinctBySurrogates | startup-scout-frontend/src/api/startups.ts:32-33 | Sorting U+FF21 and U+1F600 gives U+1F600 first. |
| StringOrder.StrictlySortedUnique | startup-scout-frontend/src/api/startups.ts:32-33 | Two strictly sorted lists with the same elements are equal, so the facet list is determined by the set of values. |
| WatchlistApi.FindFirst | startup-scout-frontend/src/api/watchlist.ts:28 | `find`: the index of the first item with that startup, or none iff no item has it. |
| WatchlistApi.RemovalRequest | startup-scout-frontend/src/api/watchlist.ts:25-32 | Deletes exactly the record of the first matching item, issues nothing when none matches, and propagates a fetch failure. |
| WatchlistApi.IsInWatchlist | startup-scout-frontend/src/api/watchlist.ts:35-42 | True iff some item's startup equals the argument; false, not an error, when the fetch fails. |
| WatchlistApi.RemovalMatchesMembership | startup-scout-frontend/src/api/watchlist.ts:25-42 | A delete is issued exactly when the membership test says the startup is in the list. |
| WatchlistApi.DeletePathIdentifiesRecord | startup-scout-frontend/src/api/watchlist.ts:30 | The delete path carries the record id, which reads back from it, and distinct ids give distinct paths. |
| WatchlistApi.AddBody | startup-scout-frontend/src/api/watchlist.ts:20 | The add body is exactly `{startup: startupId}`. |
| WatchlistApi.AddBodyValid | startup-scout-frontend/src/api/watchlist.ts:20 | The add body passes the add-to-watchlist schema unchanged. |
| Pagination.Render | startup-scout-frontend/src/components/Pagination.tsx:17 | Nothing is rendered iff there is at most one page. |
| Pagination.VisiblePages | startup-scout-frontend/src/components/Pagination.tsx:19-47 | What `getVisiblePages` returns: page 1, a gap when the window starts after page 3, the pages within two of the current one (excluding the ends), then a gap when the window ends before the next-to-last page, and the last page when there are two or more. Its properties are the Visible* and Gap* lemmas. |
| Pagination.GetVisiblePages | startup-scout-frontend/src/components/Pagination.tsx:19-47 | The loop-built list equals `VisiblePages`. |
| Pagination.Layout | startup-scout-frontend/src/components/Pagination.tsx:32-45 | The list is the leading part, the window of pages, then the trailing part. |
| Pagination.VisibleEnds | startup-scout-frontend/src/components/Pagination.tsx:32-45 | With two or more pages the list starts with page 1 and ends with the last page. |
| Pagination.VisibleIncreasing | startup-scout-frontend/src/components/Pagination.tsx:24-45 | The page numbers are strictly increasing, so no page is listed twice, for any current page. |
| Pagination.VisibleCoversWindow | startup-scout-frontend/src/components/Pagination.tsx:24-30 | Every page within 2 of the current page and inside 1..total is listed. |
| Pagination.VisibleBounded | startup-scout-frontend/src/components/Pagination.tsx:20-45 | At most 9 entries; a gap only at the second or second-to-last position; two gaps are never adjacent. |
| Pagination.GapPlacement | startup-scout-frontend/src/components/Pagination.tsx:32-44 | For an in-range current page, a leading gap iff `current - 2 > 2` and a trailing gap iff `current + 2 < total - 1`. |
| Pagination.GapsHidePages | startup-scout-frontend/src/components/Pagination.tsx:32-44 | For an in-range current page, neighbouring pages are consecutive and each gap hides at least one page. |
| Pagination.OutOfRangeGap | startup-scout-frontend/src/components/Pagination.tsx:25-41 | With a current page beyond the last, a gap can appear that hides nothing. |
| Pagination.Previous | startup-scout-frontend/src/components/Pagination.tsx:56-84 | Disabled iff on page 1 or loading; requests current - 1. |
| Pagination.Next | startup-scout-frontend/src/components/Pagination.tsx:63-114 | Disabled iff on the last page or loading; requests current + 1. |
| Pagination.PageButton | startup-scout-frontend/src/components/Pagination.tsx:97-101 | Disabled iff loading; requests its own page. |
| Pagination.EnabledTargetsInRange | startup-scout-frontend/src/components/Pagination.tsx:56-64 | An enabled Previous or Next only requests pages inside 1..total. |
| FilterPanel.ActiveIff | startup-scout-frontend/src/components/StartupFilters.tsx:30-32 | Active iff some text filter is non-empty or the page is neither 0 nor 1. |
| FilterPanel.PageOneIsNotAFilter | startup-scout-frontend/src/components/StartupFilters.tsx:30-32 | Page 1 alone is not active; page 2 is. |
| FilterPanel.InitialFiltersActive | startup-scout-frontend/src/components/StartupFilters.tsx:30-32 | The initial and cleared filters already count as active, because the ordering is non-empty. |
| FilterPanel.StageLabel | startup-scout-frontend/src/components/StartupFilters.tsx:34-37 | A label keeps the length of its stage value. |
| FilterPanel.ReplaceFirstUnderscore | startup-scout-frontend/src/components/StartupFilters.tsx:36 | `replace('_', ' ')`: only the first underscore becomes a space. |
| FilterPanel.Upper | startup-scout-frontend/src/components/StartupFilters.tsx:36 | Upper-cases character by character. |
| FilterPanel.FirstUnderscore | startup-scout-frontend/src/components/StartupFilters.tsx:36 | The position of the first underscore, if any. |
| FilterPanel.PlainLabel | startup-scout-frontend/src/components/StartupFilters.tsx:36 | A stage without an underscore is just upper-cased. |
| FilterPanel.SeriesLabel | startup-scout-frontend/src/components/StartupFilters.tsx:36 | `series_x` becomes `SERIES X`. |
| FilterPanel.PlainStageLabels | startup-scout-frontend/src/components/StartupFilters.tsx:34-37 | The labels of idea, mvp, seed, growth and ipo. |
| FilterPanel.SeriesStageLabels | startup-scout-frontend/src/components/StartupFilters.tsx:34-37 | The labels of the three series stages. |
| FilterPanel.LaterUnderscoresKept | startup-scout-frontend/src/components/StartupFilters.tsx:36 | Only the first underscore is replaced: "a_b_c" becomes "A B_C". |
| FilterPanel.StageOptions | startup-scout-frontend/src/components/StartupFilters.tsx:34-37 | One option per stage, in order, labelled by its stage label. |
| FilterPanel.PlainOptions | startup-scout-frontend/src/components/StartupFilters.tsx:39-47 | Industry and location options map one-to-one, in order, with the label equal to the value. |
| FilterPanel.PatchOf | startup-scout-frontend/src/components/StartupFilters.tsx:25-28 | A select change patches its own field and nothing else. |
| FilterPanel.Chips | startup-scout-frontend/src/components/StartupFilters.tsx:107-150 | A chip is shown for a field iff that field is non-empty. |
| FilterPanel.ChipImpliesActive | startup-scout-frontend/src/components/StartupFilters.tsx:105-107 | A shown chip means the filters are active. |
| FilterPanel.EventsReturnToFirstPage | startup-scout-frontend/src/components/StartupFilters.tsx:21-144 | Typing, selecting and removing a chip all go through `setFilters`, so each returns to page 1, keeps the ordering, sets its own field and keeps the others. |
| FilterPanel.ChipRemovalHidesOnlyIt | startup-scout-frontend/src/components/StartupFilters.tsx:107-150 | Removing a chip hides that chip and leaves the other chips as they were. |
| LoginFormModel.FormErrors | startup-scout-frontend/src/components/LoginForm.tsx:32-45 | Error keys lie within {username, password}, with the exact messages. Username is flagged iff it trims to empty, password iff it is empty, and there are no errors iff the form is valid. |
| LoginFormModel.UsernameMissingIff | startup-scout-frontend/src/components/LoginForm.tsx:35 | The username is flagged iff it is all whitespace. |
| LoginFormModel.OnlyUsernameTrimmed | startup-scout-frontend/src/components/LoginForm.tsx:35-41 | A whitespace-only password passes; a whitespace-only username fails. |
| LoginFormModel.LoginForm.constructor | startup-scout-frontend/src/components/LoginForm.tsx:13-17 | Empty username and password, no errors. |
| LoginFormModel.LoginForm.HandleChange | startup-scout-frontend/src/components/LoginForm.tsx:21-30 | Stores the value, clears only that field's error when it had one, and clears the store error when one is set. |
| LoginFormModel.LoginForm.ValidateForm | startup-scout-frontend/src/components/LoginForm.tsx:32-45 | The error map filled step by step equals `FormErrors`; returns whether the form is valid. |
| LoginFormModel.LoginForm.HandleSubmit | startup-scout-frontend/src/components/LoginForm.tsx:47-60 | An invalid form never calls login and leaves the store alone. `onSuccess` runs iff login resolved. A login failure is swallowed. Once login is called the store ends not loading; a success stores the response's user and both tokens with no error, and a failure keeps the identity and stores the error message or "Login failed". The store invariant is kept. |
| Text.Trim | startup-scout-frontend/src/components/LoginForm.tsx:35 | `trim()`/`strip()`: the result is the input minus whitespace-only ends, with no outer whitespace. |
| Text.TrimAllSpace | startup-scout-frontend/src/components/LoginForm.tsx:35 | A string trims to empty iff it is all whitespace. |
| Text.Split | startup_scout_backend/startups/models.py:36 | `split(',')`: one more part than separators, no separator inside a part, and joining the parts back gives the input. |
| Types.Validate | startup-scout-frontend/src/types/index.ts:4-72 | An object schema accepts iff the value is an object whose every key is present with the right type; the result holds exactly the schema's keys, with the input's values (unknown keys are stripped), and still conforms; otherwise it reports at least one issue. |
| Types.StripConforms | startup-scout-frontend/src/types/index.ts:4-16 | Stripping a conforming object to the schema's keys keeps every schema key and conformance. |
| Types.CheckKey | startup-scout-frontend/src/types/index.ts:4-16 | A key has no issue iff present with the right type; a missing key reports an issue at that key (zod's "Required"). |
| Types.Check | startup-scout-frontend/src/types/index.ts:4-16 | No issues iff the object conforms; every issue names a schema key. |
| Types.MissingKeyRejected | startup-scout-frontend/src/types/index.ts:4-16 | Every required key that is absent is reported. |
| Types.ParseStartup | startup-scout-frontend/src/types/index.ts:4-16 | A startup parses iff every field is present with its type: `website` may be null, and the stage is one of the eight values. The result is a valid startup. |
| Types.BuildStartup | startup-scout-frontend/src/types/index.ts:4-16 | A conforming object yields a valid startup. |
| Types.StartupRoundTrip | startup-scout-frontend/src/types/index.ts:4-16 | Encoding a valid startup and parsing it gives it back. |
| Types.ToJsonConforms | startup-scout-frontend/src/types/index.ts:4-16 | Every valid startup encodes to a conforming object. |
| Types.ParseCreateNote | startup-scout-frontend/src/types/index.ts:65-68 | Note data parses iff it conforms. The parsed startup and content are the input's own values, and the content has length at least 1. |
| Types.NoteRoundTrip | startup-scout-frontend/src/types/index.ts:65-68 | A note form with non-empty content parses to exactly the note it holds. |
| Types.EmptyNoteRejected | startup-scout-frontend/src/types/index.ts:67 | Empty content fails with "Note content is required" at `content`. |
| StartupRecord.StageChoicesMatchFrontend | startup_scout_backend/startups/models.py:5-20 | The stage choice keys are exactly the eight client stage values, in order, and the default stage is "idea". |
| StartupRecord.TagList | startup_scout_backend/startups/models.py:32-37 | At most one tag more than there are commas; no tag is empty or has outer whitespace. |
| StartupRecord.CleanSegments | startup_scout_backend/startups/models.py:36 | The comprehension keeps only non-empty stripped segments. |
| StartupRecord.TagListOrder | startup_scout_backend/startups/models.py:36 | The tags are the non-empty stripped segments, in their order, and none is lost: each non-empty value occurs as often as among the stripped segments, repeats included. |
| StartupRecord.CleanCount | startup_scout_backend/startups/models.py:36 | The comprehension keeps every non-empty stripped value exactly as often as it occurs. |
| StartupRecord.EmptyTagsNoTags | startup_scout_backend/startups/models.py:35-37 | Empty tags give no tags. |
| StartupRecord.OnlySeparatorsNoTags | startup_scout_backend/startups/models.py:36 | A string of only commas and whitespace gives no tags. |
| StartupRecord.JoinRoundTrip | startup_scout_backend/startups/models.py:32-37 | For non-empty, trimmed, comma-free tags, parsing their ", " join gives them back. |
| StartupRecord.PaddedJoinRoundTrip | startup_scout_backend/startups/models.py:36 | The same round trip with leading whitespace before the join (the inductive step). |
| StartupRecord.TagListPlain | startup_scout_backend/startups/models.py:36 | Every parsed tag is non-empty, trimmed and comma-free. |
| StartupRecord.TagListStable | startup_scout_backend/analytics/views.py:101 | Joining the tag list with ", " and parsing again gives the same tag list. |
| CatalogSearch.Filter | startup_scout_backend/startups/views.py:23-27 | The kept startups are an order-preserving subsequence of the base. Every kept one contains `q` case-insensitively in name, description or tags, and every such startup is kept. |
| CatalogSearch.Search | startup_scout_backend/startups/views.py:17-29 | The result is always a subsequence of the base queryset. |
| CatalogSearch.NoQueryNoFilter | startup_scout_backend/startups/views.py:21-29 | An absent or empty `q` leaves the queryset unchanged. |
| CatalogSearch.SearchSoundComplete | startup_scout_backend/startups/views.py:23-27 | With a non-empty `q`, a startup is in the result iff it is in the base and matches. |
| CatalogSearch.FilterKeepsOrder | startup_scout_backend/startups/views.py:15-27 | Filtering keeps newest-first order. |
| CatalogSearch.SearchKeepsOrder | startup_scout_backend/startups/views.py:15-29 | The result stays ordered by `-created_at` when the base is. |
| CatalogSearch.OnlySearchedFieldsMatter | startup_scout_backend/startups/views.py:24-26 | Whether a startup matches depends only on its name, description and tags. |
| Analytics.Chosen | startup_scout_backend/analytics/views.py:21-25 | `id__in`: the catalog rows whose id is listed, in catalog order, all of them and only them. |
| Analytics.ChosenBySet | startup_scout_backend/analytics/views.py:20-25 | The chosen rows depend only on the set of listed ids. |
| Analytics.ChosenDistinct | startup_scout_backend/analytics/views.py:21-25 | With unique primary keys no startup is chosen twice. |
| Analytics.Tally | startup_scout_backend/analytics/views.py:28 | The first group is the first key with its count. |
| Analytics.TallyCorrect | startup_scout_backend/analytics/views.py:28-36 | Grouping gives one entry per distinct value, counting its rows; the counts add up to the number of rows. |
| Analytics.InsertByCount | startup_scout_backend/analytics/views.py:28 | Inserting adds exactly the new entry (as a multiset) and its count to the total. |
| Analytics.InsertKeepsOrder | startup_scout_backend/analytics/views.py:28 | Inserting into a list in non-increasing count order keeps that order. |
| Analytics.InsertKeepsDistinct | startup_scout_backend/analytics/views.py:28 | Inserting an entry with a new key keeps the keys distinct. |
| Analytics.SortByCount | startup_scout_backend/analytics/views.py:28-49 | `order_by('-count')`: a permutation in non-increasing count order with the same total. |
| Analytics.SortKeepsDistinct | startup_scout_backend/analytics/views.py:28-36 | Sorting keeps the group values distinct. |
| Analytics.GroupCountsCorrect | startup_scout_backend/analytics/views.py:28-37 | A grouped list has one entry per distinct value, in non-increasing count order. Each count is that value's positive number of rows, and the counts sum to the number of rows. |
| Analytics.Top | startup_scout_backend/analytics/views.py:45-49 | `[:10]`: a prefix of at most ten entries, all of them when there are fewer. |
| Analytics.TopKeepsOrder | startup_scout_backend/analytics/views.py:45-49 | A prefix of a count-ordered list stays count-ordered. |
| Analytics.AnalyticsDashboard | startup_scout_backend/analytics/views.py:13-67 | `analytics_dashboard`: `total_startups_available` is the catalog size. The watchlist and note counts are counts of distinct catalog startups, so they never exceed it. Each global list has at most ten entries. |
| Analytics.UserListsSumToWatchlistCount | startup_scout_backend/analytics/views.py:20-41 | Each user list is count-ordered with distinct values, and its counts sum to `watchlist_count`. |
| Analytics.GlobalListsTopTen | startup_scout_backend/analytics/views.py:45-50 | Each global list has at most ten entries and is the count-ordered head of the catalog's grouping. |
| Analytics.CountsAreDistinctStartups | startup_scout_backend/analytics/views.py:20-42 | `watchlist_count` and `notes_count` count distinct startups: a repeated id changes nothing. |
| Analytics.UserRows | startup_scout_backend/analytics/views.py:77 | The user's watchlist rows in query order: each row of the user appears as often as in the table, and no other row appears. |
| Analytics.UserRowsComplete | startup_scout_backend/analytics/views.py:77 | A row is exported iff it is in the table and belongs to the user. |
| Analytics.WebsiteCell | startup_scout_backend/analytics/views.py:99 | `website or ''`: a missing website is the empty cell. |
| Analytics.ExportRow | startup_scout_backend/analytics/views.py:94-103 | Every export row has eight columns. |
| Analytics.WatchlistExport | startup_scout_backend/analytics/views.py:77-103 | The eight-column header first, then exactly one eight-column row per watchlist row of the user, in order. |
| Analytics.BuildCsv | startup_scout_backend/analytics/views.py:80-103 | The loop writes the header, then row k+1 is the export row of item k, every row eight cells wide. |
| Analytics.TagsCell | startup_scout_backend/analytics/views.py:101 | The tags cell, comma-joined, parses back to the startup's tag list. |
| Analytics.ExportFilename | startup_scout_backend/analytics/views.py:118 | The filename starts with "watchlist_" and ends with ".csv". |
| Analytics.FilenameReadsBack | startup_scout_backend/analytics/views.py:118 | The filename is `watchlist_{username}_{id}.csv`: the username and the id read back from it. |

## Left out

- I/O and foreign libraries are parameters or abstractions: axios transport, `localStorage` text and `JSON.parse`, `window.location`, and zustand `persist` serialisation. Logging with `console.error` (for example when the stored session cannot be parsed, or the refresh fails) has no effect on state and is not modelled.
  - Each network call is an `Outcome` parameter.
  - The server is a function from transmission number to reply.
  - Storage is a map from key to the parsed view of the document.
- Rehydration of the session store from storage is not modelled. Only the persisted subset (`Persisted`) is.
- Concurrency is not modelled: the 300 ms search debounce, and races between overlapping async store actions. Each action is one atomic step from its start to its settlement.
- The intermediate "loading" states inside an async action are not modelled. Only the state after the action settles is.
- URLSearchParams percent-encoding is not modelled. Parameters are (key, value) pairs joined with `=` and `&`.
- CSV quoting by `csv.writer` is not modelled. The export is a list of rows of cells.
- `strftime` is a parameter `stamp`.
- Case folding for `icontains` is a parameter `fold` that is applied to each character. Database collation is not modelled.
- Text.IsSpace: whitespace is the six ASCII characters space, tab, newline, vertical tab, form feed and carriage return, for both `trim()` and `strip()`. Python's `strip()` also removes `\x1c`–`\x1f`, `\x85` and Unicode whitespace, and JavaScript's `trim()` removes Unicode whitespace, so for example `tag_list` of `"\x1ctag"` yields `"tag"` in Python but `"\x1ctag"` in the model. Non-ASCII upper-casing is not modelled either.
- `createdAt` order is the string order of the ISO timestamps, not a comparison of dates.
- Gateway.AtMostOneRetry: bounds the retries of one request object only. The refresh call goes through the same client, and a 401 from the refresh endpoint would enter the interceptor with a new request object. That nested call is the refresh outcome parameter, so global termination is not claimed.
- Types.CheckKey: a missing key is reported with the model's code `Required`. zod reports it with code `invalid_type` and message "Required"; the model's code stands for that pair.
- Zod issue messages other than the note-content one, and paths into array elements, are not modelled. A key present with value `undefined` is treated as missing.
- Types.Json: `JNum` holds integers only. Non-integer numbers, which `z.number()` accepts, are not modelled.
- WatchlistApi.IsInWatchlist: `getWatchlist` returns only the first page of results, so membership is decided on that page alone, as in the source.
- Pagination.OutOfRangeGap: the placement lemmas GapPlacement and GapsHidePages require `1 <= current <= total`. With a current page out of range, a gap may hide nothing, as this lemma shows.
- Group ties: the database leaves the order of equal counts unspecified. The model keeps first-occurrence order among ties, and only the non-increasing order is claimed.
- The analytics model takes the user's watchlist and note rows as lists of startup ids. User filtering, authentication and the `unique_together` constraints are not part of it; the counts are of distinct startups in any case.
- Django serializers, urls, viewsets and permission classes are framework configuration, so they are not modelled. So are the one-call API wrappers (`api/auth.ts`, `api/notes.ts`, `api/analytics.ts`), the seed command, and all rendering and JSX.
- The richer server-synchronised watchlist store that some pages expect is not part of this model. Only the local id-list store is.
- Login and register request bodies are not modelled. Each response is an `Outcome` parameter.
