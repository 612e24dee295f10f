/**
  The provider object: the fields the source updates in place, and the methods
  that update them step by step. Each method is proved to leave the object in
  the state the matching `Session` function describes.
 */
module Provider {
  import opened Wrappers
  import opened Session

  class SpotifyProvider {
    /** Derived once, at construction, from the page's address; never reassigned. */
    const redirectUri: string
    /** `_token`: the token held in memory, null when logged out or not yet loaded. */
    var token: Option<AccessToken>
    /** The browser's local storage. */
    var store: map<string, StoredValue>
    /** The navigations requested so far. */
    var navigation: seq<Navigation>
    /** The token attached to the API client by `SetToken`. */
    var attached: Option<AccessToken>
    /** Every store access so far, in order. */
    var storeLog: seq<StoreOp>

    ghost predicate Valid()
      reads this
    {
      WellTyped(store)
    }

    /** The abstract value of the provider. */
    function State(): Session
      reads this
    {
      Session(token, store, navigation, attached, storeLog)
    }

    constructor (redirectUri: string, persisted: map<string, StoredValue>)
      requires WellTyped(persisted)
      ensures Valid() && this.redirectUri == redirectUri
      ensures State() == Session(None, persisted, [], None, [])
    {
      this.redirectUri := redirectUri;
      token := None;
      store := persisted;
      navigation := [];
      attached := None;
      storeLog := [];
    }

    /** `IsLoggedIn`: a token is held in memory. */
    predicate IsLoggedIn()
      reads this
    {
      LoggedIn(State())
    }

    /** `SetTokenAsync`: persist a nullable token under the token key. */
    method SetTokenAsync(t: Option<AccessToken>)
      modifies this
      ensures State() == Persist(old(State()), TokenKey, StoredToken(t))
    {
      store := store[TokenKey := StoredToken(t)];
      storeLog := storeLog + [Set(TokenKey, StoredToken(t))];
    }

    method LoginAsync(authorize: (string, string) -> AuthRequest)
      requires Valid()
      modifies this
      ensures Valid()
      ensures State() == Login(old(State()), redirectUri, authorize)
    {
      var response := authorize(redirectUri, ClientState);
      store := store[CodeVerifierKey := TextData(response.verifier)];
      storeLog := storeLog + [Set(CodeVerifierKey, TextData(response.verifier))];
      if response.uri.Some? {
        navigation := navigation + [Navigation(response.uri.value, false)];
      }
    }

    method LogoutAsync()
      requires Valid()
      modifies this
      ensures Valid()
      ensures State() == Logout(old(State()), redirectUri)
      ensures !IsLoggedIn()
    {
      token := None;
      SetTokenAsync(token);
      navigation := navigation + [Navigation(redirectUri, true)];
    }

    method IsLoggedInAsync(now: int) returns (loggedIn: bool)
      requires Valid()
      modifies this
      ensures Valid()
      ensures Checked(State(), loggedIn) == CheckSession(old(State()), redirectUri, now)
      ensures loggedIn == IsLoggedIn()
    {
      if token.None? {
        storeLog := storeLog + [Get(TokenKey)];
        token := ReadToken(store);
      }
      if token.Some? {
        if token.value.expiration < now {
          LogoutAsync();
        } else {
          attached := token;
        }
        return IsLoggedIn();
      }
      return false;
    }

    method HandleCodeAsync(code: Option<string>, currentUri: string,
                           exchange: (string, string, string, Option<string>) -> Exchange, now: int)
      returns (reply: Reply)
      requires Valid()
      modifies this
      ensures Valid()
      ensures Handled(State(), reply) == HandleCode(old(State()), redirectUri, code, currentUri, exchange, now)
    {
      if code.Some? {
        storeLog := storeLog + [Get(CodeVerifierKey)];
        var codeVerifier := ReadVerifier(store);
        var response := exchange(currentUri, redirectUri, ClientState, codeVerifier);
        if response.Rejected? {
          return ExchangeFailed;
        }
        token := Some(response.token);
        SetTokenAsync(token);
        navigation := navigation + [Navigation(redirectUri, false)];
      }
      var loggedIn := IsLoggedInAsync(now);
      reply := Returned(loggedIn);
    }
  }
}
