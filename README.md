# SpotifyProvider, modelled in Dafny

`SpotifyProvider` is the one service a Blazor WebAssembly client uses to reach the Spotify Web API. It has two halves, and this project models both.

- **Sign-in session.** This is the browser side of the OAuth 2.0 authorization code flow with PKCE (section 4.1 of RFC 6749, and RFC 7636). `LoginAsync` stores the code verifier and sends the browser to the authorization page. `HandleCodeAsync` exchanges the returned code, together with the stored verifier, for an access token, stores that token and strips the code from the address bar. `IsLoggedInAsync` loads the token from local storage when needed, logs out when it has expired, and otherwise attaches it to the API client. `LogoutAsync` forgets the token and forces a reload.
- **Paged listing and search.** `ListAsync` and `SearchAsync` run the same do-while loop. Each round requests a page of 50 at offsets 0, 50, … and appends its items. The loop stops on a null page, on a reported count other than 50, or once 100 items are gathered. The requested item kind picks the remote operation, and a kind with no operation gives a null page.

Files:

- `Wrappers.dfy` holds `Option`, which stands for a nullable reference.
- `Paging.dfy` holds the loop. `FetchPages` is the loop as a method, and the functions `Walk` and `Aggregate` specify it. This file also has the dispatch (`ListFetch`, `SearchFetch`, `SearchTypeFor`), `ListAsync`, `SearchAsync` and the lemmas about the loop's outcome.
- `Session.dfy` describes each session operation as a function on a `Session` snapshot. The snapshot holds the in-memory token, the key-value store, the navigation log, the token attached to the API client and the log of store accesses. The file also has the lemmas relating these operations.
- `Provider.dfy` holds the class `SpotifyProvider` with those fields. Each method updates the fields step by step and is proved to produce exactly the state the matching `Session` function gives (`State()` is the abstract value). `redirectUri` is a `const`, so it cannot change after construction.

The model follows the code where it departs from how such a provider is usually described:

- A token counts as expired only when its expiration is strictly before now (`<`), not at or before it.
- When pages are consistent, the loop makes at most two rounds, not three.
- The search selector for `Category` sets no flag at all, so "exactly one flag" does not hold for it. Only "at most one" holds.
- Listing and searching do not consult the session before fetching.
- The token's store key is `"_token"`.

## Model

| member | source | states |
|---|---|---|
| Paging.Walk | Code/Blazorfy/SpotifyProvider.cs:117-141 | Specification of the loop from a given offset and what has been gathered so far: one round requesting limit 50 at that offset, appending the page's items and the round's calls, then another round at offset + 50 exactly when the count was 50 and fewer than 100 items are gathered. It has no contract of its own; the rows below state its properties |
| Paging.WalkExtends | Code/Blazorfy/SpotifyProvider.cs:117-141 | The loop only ever extends what it has gathered: items, page requests and remote calls grow by appending, at least one request is added, and every added request has limit 50 |
| Paging.FetchPages | Code/Blazorfy/SpotifyProvider.cs:114-142 | The do-while loop returns exactly the listing that `Aggregate` specifies (items, page requests, remote calls) |
| Paging.OrderlyStep | Code/Blazorfy/SpotifyProvider.cs:134-138 | A round at offset 50·k appends that page's items and calls after those of the earlier rounds |
| Paging.WalkOrderly | Code/Blazorfy/SpotifyProvider.cs:117-141 | From any orderly point, the finished loop is orderly; after every round but the last the count was 50 with fewer than 100 items gathered, and after the last round the loop condition fails |
| Paging.AggregateShape | Code/Blazorfy/SpotifyProvider.cs:114-141 | Round k requests limit 50 at offset 50·k. The result is the items of the non-null pages, in fetch order. The calls are those of the rounds, in order. After every round but the last, the reported count was 50 and fewer than 100 items had been gathered; after the last, the count was not 50 or 100 items had been reached |
| Paging.ShortFirstPage | Code/Blazorfy/SpotifyProvider.cs:117-141 | A first page reporting fewer than 50 (null and 0 included) ends the loop after exactly one round, returning exactly that page's items |
| Paging.FullPagesReachCap | Code/Blazorfy/SpotifyProvider.cs:137-141 | When every page is full (count 50, 50 items), exactly two rounds run, at offsets 0 and 50, and exactly 100 items come back, in page order |
| Paging.WalkBounded | Code/Blazorfy/SpotifyProvider.cs:134-141 | With consistent pages and one full page gathered at most, the loop ends with at most two rounds and at most 100 items |
| Paging.ConsistentPagesBounded | Code/Blazorfy/SpotifyProvider.cs:134-141 | When each page's count equals its item count (at most 50), the loop terminates after at most two rounds with at most 100 items |
| Paging.SearchTypeFor | Code/Blazorfy/SpotifyProvider.cs:155-160 | At most one of Playlist/Album/Show is set, and one is set exactly when the kind is not `Category` |
| Paging.ListFetch | Code/Blazorfy/SpotifyProvider.cs:119-131 | A listing round makes at most one remote call, and that call is about the page requested. `Category` and `SimplifiedPlaylist` make exactly one call; any other kind gets a null page and makes no call |
| Paging.SearchFetch | Code/Blazorfy/SpotifyProvider.cs:154-166 | A search round makes exactly one call: the search for the query, with the kind's selector, for the page requested. A kind other than `SimplifiedPlaylist` gets a null page |
| Paging.CallsFollowRequests | Code/Blazorfy/SpotifyProvider.cs:121-131 | When each round makes one call about its own page, the k-th remote call is the call for the k-th page request |
| Paging.CallsFollowOffsets | Code/Blazorfy/SpotifyProvider.cs:114-141 | When each round makes one call about its own page, the loop makes at least one call and its k-th call is the call for limit 50 at offset 50·k |
| Paging.ListUnsupportedIsEmpty | Code/Blazorfy/SpotifyProvider.cs:119-139 | Listing a kind other than `Category` or `SimplifiedPlaylist` makes one round with no remote call and returns no item |
| Paging.SearchUnsupportedIsEmpty | Code/Blazorfy/SpotifyProvider.cs:154-176 | Searching a kind other than `SimplifiedPlaylist` makes exactly one search call (at offset 0, with that kind's selector) and returns no item |
| Paging.ListCallsFollowOffsets | Code/Blazorfy/SpotifyProvider.cs:119-137 | For `Category` the k-th call is `GetAllCategories` at offset 50·k. For `SimplifiedPlaylist` it is `GetCategoryPlaylists(id, …)` at offset 50·k |
| Paging.SearchCallsFollowOffsets | Code/Blazorfy/SpotifyProvider.cs:155-174 | Searching makes at least one call, and the k-th call is the search for the query with the kind's selector at offset 50·k |
| Paging.ListAsync | Code/Blazorfy/SpotifyProvider.cs:111-143 | Returns the loop's items and calls. Call k is `GetAllCategories` or `GetCategoryPlaylists(id, …)` at offset 50·k. Unsupported kinds return no items and make no calls |
| Paging.SearchAsync | Code/Blazorfy/SpotifyProvider.cs:146-180 | Returns the loop's items and calls. There is at least one call, and call k is the search for the query with the kind's selector at offset 50·k. Unsupported kinds return no items after exactly one call |
| Session.LoggedIn | Code/Blazorfy/SpotifyProvider.cs:46-47 | Definition: logged in means a token is held in memory; the store is not consulted. It has no contract of its own |
| Session.ReadToken | Code/Blazorfy/SpotifyProvider.cs:72 | A token read back is the token stored under `"_token"`. For a well-typed store, null comes back exactly when the key is missing or holds null |
| Session.ReadVerifier | Code/Blazorfy/SpotifyProvider.cs:93-94 | A verifier read back is the text stored under `"codeVerifier"`. For a well-typed store, null comes back exactly when the key is missing or holds null |
| Session.Hydrate | Code/Blazorfy/SpotifyProvider.cs:72 | A held token is kept and the store is not read. Otherwise the stored token is loaded with one recorded read. Afterwards a token is held exactly when one was held or one was stored. Store, navigation and attached token are unchanged |
| Session.Persist | Code/Blazorfy/SpotifyProvider.cs:30-31 | A store write changes only the written key. The token, navigation and attached token stay as they were |
| Session.Login | Code/Blazorfy/SpotifyProvider.cs:50-60 | The verifier is stored under `"codeVerifier"` with one write, even when the URI is null. An unforced navigation to the URI is recorded only when the URI is non-null. The key set gains exactly the verifier key. The token, the attached token and every other key's value are unchanged |
| Session.Logout | Code/Blazorfy/SpotifyProvider.cs:63-67 | Afterwards no token is held and none is stored. A forced navigation to the redirect URI is appended. The key set gains exactly the token key. The verifier and the other keys' values are untouched |
| Session.CheckSession | Code/Blazorfy/SpotifyProvider.cs:70-86 | The answer is whether a token is still held. A true answer means the token is unexpired and attached. A false answer means there is no token in memory or in the store. The verifier is untouched |
| Session.HandleCode | Code/Blazorfy/SpotifyProvider.cs:89-104 | A failed exchange propagates and leaves token, store and navigation unchanged. Otherwise the reply is the final `IsLoggedIn`. A true reply means an unexpired, attached token |
| Session.CheckSessionReadsOnlyWhenUnloaded | Code/Blazorfy/SpotifyProvider.cs:72 | The store is read exactly once when no token is held in memory, and not at all otherwise |
| Session.ExpiredTokenLogsOut | Code/Blazorfy/SpotifyProvider.cs:73-78 | A token whose expiration is strictly before now is dropped and null is stored for it. A forced navigation to the redirect URI is recorded and the answer is false |
| Session.LiveTokenIsAttached | Code/Blazorfy/SpotifyProvider.cs:79-83 | A token with expiration at or after now is kept and attached, with store and navigation untouched, and the answer is true |
| Session.NoTokenIsLoggedOut | Code/Blazorfy/SpotifyProvider.cs:72-85 | With no token anywhere, the answer is false and the only change is the recorded read |
| Session.LoggedOutStaysLoggedOut | Code/Blazorfy/SpotifyProvider.cs:70-86 | After a check answers false, any later check, at any time, answers false too |
| Session.CheckSessionStable | Code/Blazorfy/SpotifyProvider.cs:70-86 | A second check at the same instant gives the same answer |
| Session.LogoutIdempotent | Code/Blazorfy/SpotifyProvider.cs:63-67 | Logging out twice leaves the same token, store and attached token as logging out once |
| Session.HandleNoCodeIsCheck | Code/Blazorfy/SpotifyProvider.cs:89-104 | Without a code, handling the callback is exactly the session check |
| Session.CodeExchangeLogsIn | Code/Blazorfy/SpotifyProvider.cs:91-103 | Suppose exchanging the code with the stored verifier issues an unexpired token. Then that token is held, stored and attached, one unforced navigation to the redirect URI is recorded, and the reply is true |
| Session.ExpiredIssuedTokenLogsOut | Code/Blazorfy/SpotifyProvider.cs:95-103 | A token issued already expired ends logged out: nothing is stored for it, and an unforced then a forced navigation are recorded |
| Session.VerifierSurvivesRedirect | Code/Blazorfy/SpotifyProvider.cs:57-94 | The verifier stored at login is still the stored verifier after any sequence of session checks and logouts |
| Session.LoginThenCallback | Code/Blazorfy/SpotifyProvider.cs:50-104 | After login, the callback passes the verifier generated at login to the exchange. A live token issued for it logs the user in |
| Provider.SpotifyProvider.constructor | Code/Blazorfy/SpotifyProvider.cs:34-43 | The redirect URI is fixed. No token is held or attached, and nothing has been navigated or accessed yet |
| Provider.SpotifyProvider.IsLoggedIn | Code/Blazorfy/SpotifyProvider.cs:46-47 | The getter is `LoggedIn` of the provider's state: a token is held in memory. It has no contract of its own; `LogoutAsync` and `IsLoggedInAsync` state it |
| Provider.SpotifyProvider.SetTokenAsync | Code/Blazorfy/SpotifyProvider.cs:30-31 | Writes the nullable token under `"_token"` |
| Provider.SpotifyProvider.LoginAsync | Code/Blazorfy/SpotifyProvider.cs:50-60 | The new state is `Login` of the old one |
| Provider.SpotifyProvider.LogoutAsync | Code/Blazorfy/SpotifyProvider.cs:63-67 | The new state is `Logout` of the old one, and `IsLoggedIn` is false |
| Provider.SpotifyProvider.IsLoggedInAsync | Code/Blazorfy/SpotifyProvider.cs:70-86 | The new state and the answer are `CheckSession` of the old state, and the answer equals `IsLoggedIn` |
| Provider.SpotifyProvider.HandleCodeAsync | Code/Blazorfy/SpotifyProvider.cs:89-104 | The new state and the reply are `HandleCode` of the old state |

## Left out

- Paging.FetchPages: the source loop can spin forever when the remote reports count 50 with no items. The model instead requires `Progressing`: a page reporting count 50 carries at least one item.
- Paging.ListAsync: requires `Progressing` for its dispatch, for the same reason as `FetchPages`.
- Paging.SearchAsync: requires `Progressing` for its dispatch, for the same reason as `FetchPages`.
- The Spotify SDK is foreign HTTP and crypto code, so it appears only as oracle parameters. This covers the authorization URI and verifier generation, the token exchange, the category, playlist and search endpoints, and `SetToken` (recorded as the attached token). PKCE challenge hashing happens inside the SDK.
- The `Scope.None` argument is not modelled: it is a constant, and the authorization oracle receives only the redirect URI and the state.
- Paging.SearchFetch: a search call that returns null instead of a response is not modelled. The source dereferences the response for `SimplifiedPlaylist` (lines 161 and 165) and would throw; the search oracle always returns a response.
- The SDK's `Page` type is not part of this model. The model takes `new Page() { Limit = total }` to start at offset 0, and `page.Offset += total` to advance it by 50. The offset advances only after a non-null page, and a null page ends the loop, so every round after the first follows a non-null page.
- An exchange that returns null instead of a token or an exception is not modelled.
- `GetUserAsync` only passes the call through to the SDK, so there is nothing to state about it.
- Deriving the redirect URI from the page address (`GetLeftPart(UriPartial.Path)`) is library URI handling. The constructor takes the redirect URI as given, and URIs are opaque strings.
- `NavigationManager` is replaced by a log of `(uri, forceLoad)` requests. The reload a forced navigation triggers, and the loss of in-memory state that comes with it, are not modelled.
- Local storage is a `map` from keys to values. Values are assumed to have the type their key is read as (`WellTyped`), so JSON serialization and deserialization failures are not modelled.
- Storage failures, which propagate as exceptions in the source, are not modelled.
- The clock is replaced by an integer `now` passed in, with no time zones.
- `async`/`await` is modelled as sequential steps, since nothing runs concurrently.
- Runtime type tests and `as Paging<TItem>` casts are replaced by the `ItemKind` enumeration. Pages whose item sequence is null, where `AddRange` would throw, are not modelled.
- `LogoutAsync` leaves the attached token attached to the API client (the model keeps `attached`). The forced reload that follows discards the client, and that reload is not modelled.
