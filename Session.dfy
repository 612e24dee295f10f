/**
  The session half of the provider: the client side of the OAuth 2.0
  authorization code flow with PKCE (section 4.1 of RFC 6749, RFC 7636).
  A `Session` is a snapshot of everything the provider changes: the in-memory
  token, the persistent key-value store, the browser navigations issued and the
  token attached to the API client. Each operation is a function from the
  snapshot before to the snapshot after.
 */
module Session {
  import opened Wrappers

  /** Store key of the token (`nameof(_token)`). */
  const TokenKey: string := "_token"
  /** Store key of the PKCE code verifier (`nameof(codeVerifier)`). */
  const CodeVerifierKey: string := "codeVerifier"
  /** The `state` sent with the authorization request and the exchange (`nameof(SpotifyProvider)`). */
  const ClientState: string := "SpotifyProvider"

  /** A bearer credential and the instant it stops being valid. */
  datatype AccessToken = AccessToken(value: string, expiration: int)

  /** What the store holds under a key; `Null` is a stored `null`. */
  datatype StoredValue = Null | TokenData(token: AccessToken) | TextData(text: string)

  /** An access to the store, in the order performed. */
  datatype StoreOp = Get(key: string) | Set(key: string, value: StoredValue)

  /** A navigation request; `forceLoad` bypasses the client-side router and reloads. */
  datatype Navigation = Navigation(uri: string, forceLoad: bool)

  /** What the SDK hands back when asked for an authorization URI: the URI (possibly null) and a fresh verifier. */
  datatype AuthRequest = AuthRequest(uri: Option<string>, verifier: string)

  /** The outcome of exchanging an authorization code: a token, or a rejection (an exception in the source). */
  datatype Exchange = Issued(token: AccessToken) | Rejected

  datatype Session = Session(
    token: Option<AccessToken>,
    store: map<string, StoredValue>,
    navigation: seq<Navigation>,
    attached: Option<AccessToken>,
    storeLog: seq<StoreOp>)

  /** Result of `IsLoggedInAsync`: the new snapshot and the answer. */
  datatype Checked = Checked(session: Session, loggedIn: bool)

  /** What `HandleCodeAsync` gives its caller: an answer, or the exchange's failure propagated. */
  datatype Reply = Returned(loggedIn: bool) | ExchangeFailed

  /** Result of `HandleCodeAsync`: the new snapshot and the reply. */
  datatype Handled = Handled(session: Session, reply: Reply)

  /** `IsLoggedIn`: a token is held in memory. */
  predicate LoggedIn(s: Session) {
    s.token.Some?
  }

  /**
    The provider only ever stores a token (or null) under the token key and text (or null) under the verifier key.
    No operation needs it: it documents the domain the provider keeps its store in, and under it reading the
    token back yields null exactly when the key is missing or holds null (see `ReadToken`).
   */
  ghost predicate WellTyped(store: map<string, StoredValue>) {
    && (TokenKey in store ==> !store[TokenKey].TextData?)
    && (CodeVerifierKey in store ==> !store[CodeVerifierKey].TokenData?)
  }

  /** The stored value of a nullable token. */
  function StoredToken(t: Option<AccessToken>): StoredValue {
    if t.Some? then TokenData(t.value) else Null
  }

  /** `GetItemAsync<AccessToken>("_token")`: null when the key is missing or holds null. */
  function ReadToken(store: map<string, StoredValue>): (r: Option<AccessToken>)
    ensures r.Some? ==> TokenKey in store && store[TokenKey] == TokenData(r.value)
    ensures WellTyped(store) ==> (r.None? <==> TokenKey !in store || store[TokenKey].Null?)
  {
    if TokenKey in store && store[TokenKey].TokenData? then Some(store[TokenKey].token) else None
  }

  /** `GetItemAsync<string>("codeVerifier")`: null when the key is missing or holds null. */
  function ReadVerifier(store: map<string, StoredValue>): (r: Option<string>)
    ensures r.Some? ==> CodeVerifierKey in store && store[CodeVerifierKey] == TextData(r.value)
    ensures WellTyped(store) ==> (r.None? <==> CodeVerifierKey !in store || store[CodeVerifierKey].Null?)
  {
    if CodeVerifierKey in store && store[CodeVerifierKey].TextData? then Some(store[CodeVerifierKey].text) else None
  }

  /** `SetItemAsync(key, v)`: overwrite one key and log the write. */
  function Persist(s: Session, key: string, v: StoredValue): (t: Session)
    ensures t.store.Keys == s.store.Keys + {key} && t.store[key] == v
    ensures forall k :: k in s.store && k != key ==> t.store[k] == s.store[k]
    ensures t.token == s.token && t.navigation == s.navigation && t.attached == s.attached
  {
    s.(store := s.store[key := v], storeLog := s.storeLog + [Set(key, v)])
  }

  /** `LoginAsync`: ask for an authorization URI, always store the verifier, navigate only when a URI came back. */
  function Login(s: Session, redirectUri: string, authorize: (string, string) -> AuthRequest): (t: Session)
    ensures var req := authorize(redirectUri, ClientState);
            && ReadVerifier(t.store) == Some(req.verifier)
            && t.storeLog == s.storeLog + [Set(CodeVerifierKey, TextData(req.verifier))]
            && t.navigation == s.navigation + (if req.uri.Some? then [Navigation(req.uri.value, false)] else [])
    ensures t.token == s.token && t.attached == s.attached
    ensures ReadToken(t.store) == ReadToken(s.store)
    ensures t.store.Keys == s.store.Keys + {CodeVerifierKey}
    ensures forall k :: k in s.store && k != CodeVerifierKey ==> t.store[k] == s.store[k]
    ensures WellTyped(s.store) ==> WellTyped(t.store)
  {
    var req := authorize(redirectUri, ClientState);
    var stored := Persist(s, CodeVerifierKey, TextData(req.verifier));
    if req.uri.Some? then stored.(navigation := stored.navigation + [Navigation(req.uri.value, false)]) else stored
  }

  /** `LogoutAsync`: forget the token, store null for it, force a reload of the redirect URI. */
  function Logout(s: Session, redirectUri: string): (t: Session)
    ensures !LoggedIn(t) && ReadToken(t.store) == None
    ensures t.navigation == s.navigation + [Navigation(redirectUri, true)]
    ensures t.storeLog == s.storeLog + [Set(TokenKey, Null)]
    ensures t.attached == s.attached
    ensures ReadVerifier(t.store) == ReadVerifier(s.store)
    ensures t.store.Keys == s.store.Keys + {TokenKey}
    ensures forall k :: k in s.store && k != TokenKey ==> t.store[k] == s.store[k]
    ensures WellTyped(s.store) ==> WellTyped(t.store)
  {
    Persist(s.(token := None), TokenKey, StoredToken(None)).(navigation := s.navigation + [Navigation(redirectUri, true)])
  }

  /** `_token ??= GetItemAsync(...)`: the store is consulted only when no token is held. */
  function Hydrate(s: Session): (h: Session)
    ensures LoggedIn(s) ==> h == s
    ensures !LoggedIn(s) ==> h.token == ReadToken(s.store) && h.storeLog == s.storeLog + [Get(TokenKey)]
    ensures LoggedIn(h) <==> LoggedIn(s) || ReadToken(s.store).Some?
    ensures h.store == s.store && h.navigation == s.navigation && h.attached == s.attached
  {
    if s.token.Some? then s else s.(token := ReadToken(s.store), storeLog := s.storeLog + [Get(TokenKey)])
  }

  /**
    `IsLoggedInAsync`: hydrate; an expired token (expiration strictly before `now`) logs out,
    an unexpired one is attached to the API client; answer whether a token is still held.
   */
  function CheckSession(s: Session, redirectUri: string, now: int): (c: Checked)
    ensures c.loggedIn == LoggedIn(c.session)
    ensures c.loggedIn ==> c.session.token.value.expiration >= now && c.session.attached == c.session.token
    ensures !c.loggedIn ==> c.session.token == None && ReadToken(c.session.store) == None
    ensures ReadVerifier(c.session.store) == ReadVerifier(s.store)
    ensures WellTyped(s.store) ==> WellTyped(c.session.store)
  {
    var h := Hydrate(s);
    if h.token.None? then
      Checked(h, false)
    else
      var after := if h.token.value.expiration < now then Logout(h, redirectUri) else h.(attached := h.token);
      Checked(after, LoggedIn(after))
  }

  /**
    `HandleCodeAsync`: with a code, exchange it together with the stored verifier, store the token
    issued and navigate (without reload) to the redirect URI; in every case finish with `IsLoggedInAsync`.
   */
  function HandleCode(s: Session, redirectUri: string, code: Option<string>, currentUri: string,
                      exchange: (string, string, string, Option<string>) -> Exchange, now: int): (h: Handled)
    ensures h.reply.ExchangeFailed? ==>
              && code.Some?
              && h.session.token == s.token && h.session.store == s.store
              && h.session.navigation == s.navigation && h.session.attached == s.attached
    ensures h.reply.Returned? ==> h.reply.loggedIn == LoggedIn(h.session)
    ensures h.reply == Returned(true) ==> h.session.token.value.expiration >= now && h.session.attached == h.session.token
    ensures WellTyped(s.store) ==> WellTyped(h.session.store)
  {
    if code.None? then
      var c := CheckSession(s, redirectUri, now);
      Handled(c.session, Returned(c.loggedIn))
    else
      var read := s.(storeLog := s.storeLog + [Get(CodeVerifierKey)]);
      match exchange(currentUri, redirectUri, ClientState, ReadVerifier(s.store))
      case Rejected => Handled(read, ExchangeFailed)
      case Issued(t) =>
        var stored := Persist(read.(token := Some(t)), TokenKey, StoredToken(Some(t)));
        var c := CheckSession(stored.(navigation := stored.navigation + [Navigation(redirectUri, false)]), redirectUri, now);
        Handled(c.session, Returned(c.loggedIn))
  }

  // ---------------------------------------------------------------------------
  // Properties of the session operations

  /** Number of store reads in a log. */
  function Reads(log: seq<StoreOp>): nat {
    if log == [] then 0 else Reads(log[..|log| - 1]) + (if log[|log| - 1].Get? then 1 else 0)
  }

  lemma {:induction false} ReadsAppend(a: seq<StoreOp>, b: seq<StoreOp>)
    ensures Reads(a + b) == Reads(a) + Reads(b)
    decreases |b|
  {
    if b == [] {
      assert a + b == a;
    } else {
      var n := |b| - 1;
      assert (a + b)[..|a + b| - 1] == a + b[..n];
      ReadsAppend(a, b[..n]);
    }
  }

  /** `IsLoggedInAsync` reads the store exactly once when no token is held, and never otherwise. */
  lemma CheckSessionReadsOnlyWhenUnloaded(s: Session, redirectUri: string, now: int)
    ensures Reads(CheckSession(s, redirectUri, now).session.storeLog) == Reads(s.storeLog) + (if s.token.None? then 1 else 0)
  {
    var h := Hydrate(s);
    ReadsAppend(s.storeLog, [Get(TokenKey)]);
    assert [Get(TokenKey)][..0] == [];
    assert Reads([Get(TokenKey)]) == 1;
    assert Reads([Set(TokenKey, Null)]) == 0 by {
      assert [Set(TokenKey, Null)][..0] == [];
    }
    if h.token.Some? && h.token.value.expiration < now {
      ReadsAppend(h.storeLog, [Set(TokenKey, Null)]);
    }
  }

  /** A token that expired before `now` is dropped, null is stored for it, the redirect URI is reloaded; the answer is false. */
  lemma ExpiredTokenLogsOut(s: Session, redirectUri: string, now: int, t: AccessToken)
    requires Hydrate(s).token == Some(t) && t.expiration < now
    ensures var c := CheckSession(s, redirectUri, now);
            && !c.loggedIn
            && c.session.token == None
            && c.session.store == s.store[TokenKey := Null]
            && c.session.navigation == s.navigation + [Navigation(redirectUri, true)]
            && c.session.attached == s.attached
  {
  }

  /** A token not yet expired is attached to the API client and kept; the store and navigation are untouched. */
  lemma LiveTokenIsAttached(s: Session, redirectUri: string, now: int, t: AccessToken)
    requires Hydrate(s).token == Some(t) && t.expiration >= now
    ensures var c := CheckSession(s, redirectUri, now);
            && c.loggedIn
            && c.session.token == Some(t) && c.session.attached == Some(t)
            && c.session.store == s.store && c.session.navigation == s.navigation
  {
  }

  /** With no token in memory or in the store the answer is false and only the read is recorded. */
  lemma NoTokenIsLoggedOut(s: Session, redirectUri: string, now: int)
    requires s.token == None && ReadToken(s.store) == None
    ensures CheckSession(s, redirectUri, now) == Checked(s.(storeLog := s.storeLog + [Get(TokenKey)]), false)
  {
  }

  /** Once a check answers false, every later check answers false too, whatever the time, until a new token is issued. */
  lemma LoggedOutStaysLoggedOut(s: Session, redirectUri: string, now: int, later: int)
    requires !CheckSession(s, redirectUri, now).loggedIn
    ensures !CheckSession(CheckSession(s, redirectUri, now).session, redirectUri, later).loggedIn
  {
  }

  /** A check that answered true answers true again at the same instant. */
  lemma CheckSessionStable(s: Session, redirectUri: string, now: int)
    ensures var c := CheckSession(s, redirectUri, now);
            CheckSession(c.session, redirectUri, now).loggedIn == c.loggedIn
  {
  }

  /** Logging out a second time leaves the token and the store as the first time did. */
  lemma LogoutIdempotent(s: Session, redirectUri: string)
    ensures var once := Logout(s, redirectUri);
            var twice := Logout(once, redirectUri);
            twice.token == once.token && twice.store == once.store && twice.attached == once.attached
  {
  }

  /** Without a code, handling the callback is exactly the session check. */
  lemma HandleNoCodeIsCheck(s: Session, redirectUri: string, currentUri: string,
                            exchange: (string, string, string, Option<string>) -> Exchange, now: int)
    ensures var c := CheckSession(s, redirectUri, now);
            HandleCode(s, redirectUri, None, currentUri, exchange, now) == Handled(c.session, Returned(c.loggedIn))
  {
  }

  /**
    With a code whose exchange (given the stored verifier) issues a live token: the token is held,
    stored and attached, one soft navigation to the redirect URI is recorded, and the answer is true.
   */
  lemma CodeExchangeLogsIn(s: Session, redirectUri: string, code: string, currentUri: string,
                           exchange: (string, string, string, Option<string>) -> Exchange, now: int, t: AccessToken)
    requires exchange(currentUri, redirectUri, ClientState, ReadVerifier(s.store)) == Issued(t)
    requires t.expiration >= now
    ensures var h := HandleCode(s, redirectUri, Some(code), currentUri, exchange, now);
            && h.reply == Returned(true)
            && h.session.token == Some(t) && h.session.attached == Some(t)
            && ReadToken(h.session.store) == Some(t)
            && h.session.navigation == s.navigation + [Navigation(redirectUri, false)]
            && h.session.storeLog == s.storeLog + [Get(CodeVerifierKey), Set(TokenKey, TokenData(t))]
  {
  }

  /** With a code whose exchange issues a token that is already expired, the callback ends logged out after a forced reload. */
  lemma ExpiredIssuedTokenLogsOut(s: Session, redirectUri: string, code: string, currentUri: string,
                                  exchange: (string, string, string, Option<string>) -> Exchange, now: int, t: AccessToken)
    requires exchange(currentUri, redirectUri, ClientState, ReadVerifier(s.store)) == Issued(t)
    requires t.expiration < now
    ensures var h := HandleCode(s, redirectUri, Some(code), currentUri, exchange, now);
            && h.reply == Returned(false)
            && h.session.token == None && ReadToken(h.session.store) == None
            && h.session.navigation == s.navigation + [Navigation(redirectUri, false), Navigation(redirectUri, true)]
  {
  }

  /**
    The PKCE handoff: the verifier stored by `Login` survives any number of session checks and
    logouts (the page reloads in between), so the code exchange receives exactly that verifier.
   */
  lemma {:induction false} VerifierSurvivesRedirect(s: Session, redirectUri: string, authorize: (string, string) -> AuthRequest,
                                                    nows: seq<int>, logouts: seq<bool>)
    requires |logouts| == |nows|
    ensures ReadVerifier(Reload(Login(s, redirectUri, authorize), redirectUri, nows, logouts).store)
         == Some(authorize(redirectUri, ClientState).verifier)
    decreases |nows|
  {
    if nows != [] {
      VerifierSurvivesRedirect(s, redirectUri, authorize, nows[..|nows| - 1], logouts[..|nows| - 1]);
    }
  }

  /** A run of page loads, each either a session check at the given instant or a logout. */
  function Reload(s: Session, redirectUri: string, nows: seq<int>, logouts: seq<bool>): Session
    requires |logouts| == |nows|
    decreases |nows|
  {
    if nows == [] then s
    else
      var before := Reload(s, redirectUri, nows[..|nows| - 1], logouts[..|nows| - 1]);
      if logouts[|nows| - 1] then Logout(before, redirectUri) else CheckSession(before, redirectUri, nows[|nows| - 1]).session
  }

  /** Login followed by the callback: the code is exchanged with the verifier generated at login. */
  lemma LoginThenCallback(s: Session, redirectUri: string, authorize: (string, string) -> AuthRequest,
                          code: string, currentUri: string,
                          exchange: (string, string, string, Option<string>) -> Exchange, now: int, t: AccessToken)
    requires exchange(currentUri, redirectUri, ClientState, Some(authorize(redirectUri, ClientState).verifier)) == Issued(t)
    requires t.expiration >= now
    ensures var h := HandleCode(Login(s, redirectUri, authorize), redirectUri, Some(code), currentUri, exchange, now);
            h.reply == Returned(true) && h.session.token == Some(t)
  {
    CodeExchangeLogsIn(Login(s, redirectUri, authorize), redirectUri, code, currentUri, exchange, now, t);
  }
}
