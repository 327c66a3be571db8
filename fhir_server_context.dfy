/**
 * The per-server auth store of `FhirServerContextProvider`: three records
 * keyed by server base URL (token endpoint, token response, `fhirUser`),
 * the projections handed to consumers, the single setter that commits a
 * token response, and the rehydration of responses from `sessionStorage`.
 */
module FhirServerContext {
  import opened Wrappers
  import opened Strings
  import opened OAuth
  import opened SessionStorage

  /** What `createContextValue(baseUrl, authRequired)` hands to consumers (setters aside). */
  datatype ServerContext = ServerContext(
    baseUrl: string,
    authRequired: bool,
    tokenEndpoint: string,
    tokenResponse: Option<TokenResponse>,
    accessToken: string,
    refreshToken: string,
    fhirUser: Option<string>
  )

  /** `response?.access_token ?? ""` */
  function AccessTokenOf(response: Option<TokenResponse>): (token: string)
    ensures response.None? ==> token == ""
    ensures response.Some? ==> token == response.value.accessToken
  {
    match response
    case None => ""
    case Some(r) => r.accessToken
  }

  /** `response?.refresh_token ?? ""` */
  function RefreshTokenOf(response: Option<TokenResponse>): (token: string)
    ensures response.None? || response.value.refreshToken.None? ==> token == ""
    ensures response.Some? && response.value.refreshToken.Some? ==> token == response.value.refreshToken.value
  {
    match response
    case None => ""
    case Some(r) => r.refreshToken.GetOr("")
  }

  /**
   * `getResourceIdentifier(url)`: the last two `/`-separated segments joined
   * by `/`, or `null` when the URL has no `/` at all.
   */
  function ResourceIdentifier(url: string): (id: Option<string>)
    ensures id.Some? <==> '/' in url
  {
    SplitParts(url, '/');
    var parts := Split(url, '/');
    if |parts| >= 2 then Some(Join(parts[|parts| - 2..], '/')) else None
  }

  /** A claim `<prefix>/<type>/<id>` yields `<type>/<id>`, e.g. `.../Practitioner/123` gives `Practitioner/123`. */
  lemma ResourceIdentifierOfPath(prefix: string, resourceType: string, id: string)
    requires '/' !in resourceType && '/' !in id
    ensures ResourceIdentifier(prefix + "/" + resourceType + "/" + id) == Some(resourceType + "/" + id)
  {
    var head := prefix + "/" + resourceType;
    var url := head + "/" + id;
    assert prefix + "/" + resourceType + "/" + id == url;
    SplitAppend(head, '/', id);
    SplitAppend(prefix, '/', resourceType);
    var parts := Split(url, '/');
    assert parts == Split(prefix, '/') + [resourceType] + [id];
    var n := |parts|;
    assert parts[n - 2..] == [resourceType, id];
    assert Join([resourceType, id], '/') == resourceType + "/" + id;
  }

  /** A claim that is already `<type>/<id>` is returned as it is. */
  lemma ResourceIdentifierOfReference(resourceType: string, id: string)
    requires '/' !in resourceType && '/' !in id
    ensures ResourceIdentifier(resourceType + "/" + id) == Some(resourceType + "/" + id)
  {
    var url := resourceType + "/" + id;
    assert url == resourceType + ['/'] + id;
    SplitAppend(resourceType, '/', id);
    SplitWithoutSeparator(resourceType, '/');
    var parts := Split(url, '/');
    assert parts == [resourceType, id];
    assert parts[|parts| - 2..] == parts;
    assert Join([resourceType, id], '/') == url;
  }

  /**
   * Lines 85-91 of the setter: the `fhirUser` derived from a committed
   * response. `jwtDecode` throwing makes the whole setter throw.
   */
  function DerivedFhirUser(response: Option<TokenResponse>, decodeIdToken: string -> IdTokenReading): (user: Completion<Option<string>>)
    ensures response.None? ==> user == Normal(None)
    ensures response.Some? ==>
      match decodeIdToken(response.value.idToken)
      case UndecodableIdToken => user.Thrown?
      case NotAnIdToken => user == Normal(None)
      case IdToken(claim) => user == Normal(ResourceIdentifier(claim))
  {
    if response.None? then Normal(None)
    else match decodeIdToken(response.value.idToken)
      case UndecodableIdToken => Thrown
      case NotAnIdToken => Normal(None)
      case IdToken(claim) => Normal(ResourceIdentifier(claim))
  }

  /**
   * Lines 75-83 of the setter: the session entries after persisting `response`
   * under the CSRF state recorded for `baseUrl`. `JSON.parse` of an
   * unparsable `"state"` entry throws, and so does indexing a `null` one.
   */
  function PersistedEntries(entries: map<string, Stored>, baseUrl: string, response: Option<TokenResponse>): (e: Completion<map<string, Stored>>)
    ensures e.Thrown? <==> StateLookupThrows(ReadState(entries))
    ensures ReadState(entries).StateMap? && baseUrl in ReadState(entries).states && ReadState(entries).states[baseUrl] != "" ==>
      e == Normal(entries[ReadState(entries).states[baseUrl] := TokenJson(response)])
    ensures ReadState(entries).NoState? ==> e == Normal(entries)
    ensures ReadState(entries).StateMap? && (baseUrl !in ReadState(entries).states || ReadState(entries).states[baseUrl] == "") ==>
      e == Normal(entries)
  {
    match ReadState(entries)
    case NoState => Normal(entries)
    case NullState => Thrown
    case Unparsable => Thrown
    case StateMap(states) =>
      if baseUrl in states && Truthy(states[baseUrl]) then Normal(entries[states[baseUrl] := TokenJson(response)])
      else Normal(entries)
  }

  /** The records `setTokenResponse` touches, with the session entries. */
  datatype AuthSnapshot = AuthSnapshot(
    tokenResponses: map<string, Option<TokenResponse>>,
    fhirUsers: map<string, Option<string>>,
    entries: map<string, Stored>
  )

  datatype CommitResult = CommitResult(after: AuthSnapshot, threw: bool)

  /**
   * `setTokenResponse(response)` for the server `baseUrl`: the response
   * record is updated first; then the response is persisted; then `fhirUser`
   * is re-derived. A throw in the second or third step leaves the response
   * record updated and `fhirUser` as it was.
   */
  function Commit(s: AuthSnapshot, baseUrl: string, response: Option<TokenResponse>, decodeIdToken: string -> IdTokenReading): (c: CommitResult)
    // only this server's response changes, and it becomes `response` whatever happens next
    ensures c.after.tokenResponses == s.tokenResponses[baseUrl := response]
    // the commit throws exactly on an unreadable "state" entry or an undecodable ID token
    ensures c.threw <==> StateLookupThrows(ReadState(s.entries)) || (response.Some? && decodeIdToken(response.value.idToken).UndecodableIdToken?)
    ensures c.threw ==> c.after.fhirUsers == s.fhirUsers
    ensures !c.threw ==> c.after.fhirUsers == s.fhirUsers[baseUrl := DerivedFhirUser(response, decodeIdToken).value]
    ensures PersistedEntries(s.entries, baseUrl, response).Normal? ==> c.after.entries == PersistedEntries(s.entries, baseUrl, response).value
    ensures PersistedEntries(s.entries, baseUrl, response).Thrown? ==> c.after.entries == s.entries
  {
    var responses := s.tokenResponses[baseUrl := response];
    match PersistedEntries(s.entries, baseUrl, response)
    case Thrown => CommitResult(AuthSnapshot(responses, s.fhirUsers, s.entries), true)
    case Normal(entries) =>
      match DerivedFhirUser(response, decodeIdToken)
      case Thrown => CommitResult(AuthSnapshot(responses, s.fhirUsers, entries), true)
      case Normal(user) => CommitResult(AuthSnapshot(responses, s.fhirUsers[baseUrl := user], entries), false)
  }

  /** Every other server keeps its response and its `fhirUser`. */
  lemma CommitIsolatesServers(s: AuthSnapshot, baseUrl: string, response: Option<TokenResponse>, decodeIdToken: string -> IdTokenReading, other: string)
    requires other != baseUrl
    ensures var a := Commit(s, baseUrl, response, decodeIdToken).after;
      && (other in a.tokenResponses <==> other in s.tokenResponses)
      && (other in s.tokenResponses ==> a.tokenResponses[other] == s.tokenResponses[other])
      && (other in a.fhirUsers <==> other in s.fhirUsers)
      && (other in s.fhirUsers ==> a.fhirUsers[other] == s.fhirUsers[other])
  {
  }

  /** Committing `null` clears the response and, unless the `"state"` entry is unreadable, the `fhirUser`. */
  lemma CommitNullClears(s: AuthSnapshot, baseUrl: string, decodeIdToken: string -> IdTokenReading)
    ensures var c := Commit(s, baseUrl, None, decodeIdToken);
      && c.after.tokenResponses[baseUrl] == None
      && AccessTokenOf(c.after.tokenResponses[baseUrl]) == ""
      && RefreshTokenOf(c.after.tokenResponses[baseUrl]) == ""
      && (c.threw <==> StateLookupThrows(ReadState(s.entries)))
      && (!c.threw ==> c.after.fhirUsers[baseUrl] == None)
  {
  }

  /** The CSRF state recorded for `baseUrl`, if any, is not the literal key `"state"`. */
  predicate StateKeyNotReused(entries: map<string, Stored>, baseUrl: string) {
    ReadState(entries).StateMap? && baseUrl in ReadState(entries).states ==> ReadState(entries).states[baseUrl] != StateKey
  }

  /**
   * A commit leaves the `"state"` map as it found it, unless the CSRF state
   * is the key `"state"` itself. Then the map is replaced by the serialized
   * response: it next parses as that response's object, or as `null`.
   */
  lemma CommitKeepsStateMap(s: AuthSnapshot, baseUrl: string, response: Option<TokenResponse>, decodeIdToken: string -> IdTokenReading)
    ensures StateKeyNotReused(s.entries, baseUrl) ==>
      ReadState(Commit(s, baseUrl, response, decodeIdToken).after.entries) == ReadState(s.entries)
    ensures !StateKeyNotReused(s.entries, baseUrl) ==>
      ReadState(Commit(s, baseUrl, response, decodeIdToken).after.entries) ==
        if response.Some? then StateMap(TokenObject(response.value)) else NullState
  {
    var c := Commit(s, baseUrl, response, decodeIdToken);
    if ReadState(s.entries).StateMap? && baseUrl in ReadState(s.entries).states {
      var csrf := ReadState(s.entries).states[baseUrl];
      if csrf != "" {
        assert c.after.entries == s.entries[csrf := TokenJson(response)];
        assert csrf == StateKey ==> c.after.entries[StateKey] == TokenJson(response);
      }
    }
  }

  /**
   * Committing the same response twice gives the same records as committing
   * it once, provided its CSRF state is not the literal key `"state"`, or
   * the response is not `null` and `baseUrl` names none of its fields.
   * (Persisting under that key replaces the state map by the response.)
   */
  lemma CommitIdempotent(s: AuthSnapshot, baseUrl: string, response: Option<TokenResponse>, decodeIdToken: string -> IdTokenReading)
    requires StateKeyNotReused(s.entries, baseUrl) || (response.Some? && baseUrl !in TokenObject(response.value))
    ensures var once := Commit(s, baseUrl, response, decodeIdToken);
      Commit(once.after, baseUrl, response, decodeIdToken) == once
  {
    CommitKeepsStateMap(s, baseUrl, response, decodeIdToken);
  }

  /** Whether the value stored under a CSRF state can be read back by rehydration without throwing. */
  predicate Loadable(entries: map<string, Stored>, csrfState: string) {
    csrfState !in entries || !StoredTruthy(entries[csrfState]) || ParseTokenResponse(entries[csrfState]).Normal?
  }

  /**
   * `retrieveStoredTokenResponse()`: for every server in the `"state"` map
   * whose CSRF state holds a non-empty stored string, the parsed response.
   */
  function Rehydrated(entries: map<string, Stored>): (r: Completion<map<string, Option<TokenResponse>>>)
    ensures ReadState(entries).NoState? ==> r == Normal(map[])
    // `JSON.parse` throws, or `Object.keys(null)` does
    ensures StateLookupThrows(ReadState(entries)) ==> r.Thrown?
    ensures ReadState(entries).StateMap? ==>
      var states := ReadState(entries).states;
      && (r.Normal? <==> forall b :: b in states ==> Loadable(entries, states[b]))
      && (r.Normal? ==> r.value.Keys <= states.Keys)
      && (r.Normal? ==> forall b :: b in states ==>
            (b in r.value <==> states[b] in entries && StoredTruthy(entries[states[b]])))
      && (r.Normal? ==> forall b :: b in r.value ==> ParseTokenResponse(entries[states[b]]) == Normal(r.value[b]))
  {
    match ReadState(entries)
    case NoState => Normal(map[])
    case NullState => Thrown
    case Unparsable => Thrown
    case StateMap(states) =>
      if forall b :: b in states ==> Loadable(entries, states[b]) then
        Normal(map b | b in states && states[b] in entries && StoredTruthy(entries[states[b]]) :: ParseTokenResponse(entries[states[b]]).value)
      else Thrown
  }

  /**
   * A response persisted by the setter is what rehydration reads back for
   * that server after a reload, and servers with another CSRF state keep
   * what they would have read before.
   */
  lemma PersistThenRehydrate(entries: map<string, Stored>, baseUrl: string, response: Option<TokenResponse>)
    requires ReadState(entries).StateMap?
    requires baseUrl in ReadState(entries).states
    requires ReadState(entries).states[baseUrl] != "" && ReadState(entries).states[baseUrl] != StateKey
    requires Rehydrated(entries).Normal?
    ensures PersistedEntries(entries, baseUrl, response).Normal?
    ensures var after := Rehydrated(PersistedEntries(entries, baseUrl, response).value);
      var states := ReadState(entries).states;
      && after.Normal?
      && baseUrl in after.value && after.value[baseUrl] == response
      && forall b :: b in states && states[b] != states[baseUrl] ==>
           (b in after.value <==> b in Rehydrated(entries).value)
           && (b in after.value ==> after.value[b] == Rehydrated(entries).value[b])
  {
    var states := ReadState(entries).states;
    var csrf := states[baseUrl];
    var e := entries[csrf := TokenJson(response)];
    assert ReadState(e) == ReadState(entries);
    assert forall b :: b in states ==> Loadable(e, states[b]);
  }

  /** The loop over the `"state"` keys that `retrieveStoredTokenResponse` runs at provider start. */
  method RetrieveStoredTokenResponse(session: SessionStore) returns (r: Completion<map<string, Option<TokenResponse>>>)
    ensures r == Rehydrated(session.entries)
  {
    var tokenResponses: map<string, Option<TokenResponse>> := map[];
    var stateKeysStr := session.GetItem(StateKey);
    if stateKeysStr.None? || !StoredTruthy(stateKeysStr.value) {
      return Normal(tokenResponses);
    }
    var parsed := ParseStateObject(stateKeysStr.value);
    if parsed.Thrown? || parsed.value.None? {
      // JSON.parse threw, or Object.keys(null) does
      return Thrown;
    }
    var stateKeys := parsed.value.value;
    ghost var entries := session.entries;
    assert ReadState(entries) == StateMap(stateKeys);
    var pending := stateKeys.Keys;
    while pending != {}
      invariant pending <= stateKeys.Keys
      invariant forall b :: b in stateKeys && b !in pending ==> Loadable(entries, stateKeys[b])
      invariant tokenResponses.Keys <= stateKeys.Keys - pending
      invariant forall b :: b in stateKeys && b !in pending ==>
        (b in tokenResponses <==> stateKeys[b] in entries && StoredTruthy(entries[stateKeys[b]]))
      invariant forall b :: b in tokenResponses ==> ParseTokenResponse(entries[stateKeys[b]]) == Normal(tokenResponses[b])
      decreases pending
    {
      var baseUrl :| baseUrl in pending;
      var responseStr := session.GetItem(stateKeys[baseUrl]);
      if responseStr.Some? && StoredTruthy(responseStr.value) {
        var response := ParseTokenResponse(responseStr.value);
        if response.Thrown? {
          assert !Loadable(entries, stateKeys[baseUrl]);
          return Thrown;
        }
        tokenResponses := tokenResponses[baseUrl := response.value];
      }
      pending := pending - {baseUrl};
    }
    assert forall b :: b in stateKeys ==> Loadable(entries, stateKeys[b]);
    assert tokenResponses == map b | b in stateKeys && stateKeys[b] in entries && StoredTruthy(entries[stateKeys[b]]) :: ParseTokenResponse(entries[stateKeys[b]]).value;
    return Normal(tokenResponses);
  }

  /** The configuration `useConfig()` supplies: the primary server and an optional secondary one. */
  datatype ServerConfig = ServerConfig(fhirServerUrl: string, authRequired: bool)
  datatype AppConfig = AppConfig(fhirServerUrl: string, authRequired: bool, secondaryFhirServer: Option<ServerConfig>)

  /** The provider's state: the three per-server records and the session store it persists into. */
  class AuthStore {
    const session: SessionStore
    var tokenEndpoints: map<string, string>
    var tokenResponses: map<string, Option<TokenResponse>>
    var fhirUsers: map<string, Option<string>>

    /** Provider start: endpoints and users empty, responses taken from rehydration. */
    constructor (session: SessionStore, rehydrated: map<string, Option<TokenResponse>>)
      ensures this.session == session
      ensures tokenEndpoints == map[] && tokenResponses == rehydrated && fhirUsers == map[]
    {
      this.session := session;
      tokenEndpoints := map[];
      tokenResponses := rehydrated;
      fhirUsers := map[];
    }

    function Snapshot(): AuthSnapshot
      reads this, session
    {
      AuthSnapshot(tokenResponses, fhirUsers, session.entries)
    }

    /** `createContextValue(baseUrl, authRequired)`: looks every field up under `baseUrl`. */
    function Context(baseUrl: string, authRequired: bool): (c: ServerContext)
      reads this
      ensures c.baseUrl == baseUrl && c.authRequired == authRequired
      ensures c.tokenResponse == (if baseUrl in tokenResponses then tokenResponses[baseUrl] else None)
      // the tokens are projections of the response, never stored separately
      ensures c.accessToken == AccessTokenOf(c.tokenResponse) && c.refreshToken == RefreshTokenOf(c.tokenResponse)
      ensures c.tokenEndpoint == (if baseUrl in tokenEndpoints then tokenEndpoints[baseUrl] else "")
      ensures c.fhirUser == (if baseUrl in fhirUsers then fhirUsers[baseUrl] else None)
    {
      var response := if baseUrl in tokenResponses then tokenResponses[baseUrl] else None;
      ServerContext(
        baseUrl,
        authRequired,
        if baseUrl in tokenEndpoints then tokenEndpoints[baseUrl] else "",
        response,
        AccessTokenOf(response),
        RefreshTokenOf(response),
        if baseUrl in fhirUsers then fhirUsers[baseUrl] else None)
    }

    /** The provider's value: the primary server always, the secondary one when configured (it wins a clash). */
    function Contexts(config: AppConfig): (ctx: map<string, ServerContext>)
      reads this
      ensures config.secondaryFhirServer.None? ==> ctx.Keys == {config.fhirServerUrl}
      ensures config.secondaryFhirServer.Some? ==> ctx.Keys == {config.fhirServerUrl, config.secondaryFhirServer.value.fhirServerUrl}
      ensures forall u :: u in ctx ==> ctx[u].baseUrl == u
      ensures config.secondaryFhirServer.Some? ==>
        var sec := config.secondaryFhirServer.value;
        ctx[sec.fhirServerUrl] == Context(sec.fhirServerUrl, sec.authRequired)
      ensures config.secondaryFhirServer.None? || config.secondaryFhirServer.value.fhirServerUrl != config.fhirServerUrl ==>
        ctx[config.fhirServerUrl] == Context(config.fhirServerUrl, config.authRequired)
    {
      var primary := map[config.fhirServerUrl := Context(config.fhirServerUrl, config.authRequired)];
      match config.secondaryFhirServer
      case None => primary
      case Some(sec) => primary[sec.fhirServerUrl := Context(sec.fhirServerUrl, sec.authRequired)]
    }

    /** `setTokenEndpoint(endpoint)` of the context for `baseUrl`. */
    method SetTokenEndpoint(baseUrl: string, endpoint: string)
      modifies this
      ensures tokenEndpoints == old(tokenEndpoints)[baseUrl := endpoint]
      ensures tokenResponses == old(tokenResponses) && fhirUsers == old(fhirUsers)
    {
      var endpoints := tokenEndpoints;
      endpoints := endpoints[baseUrl := endpoint];
      tokenEndpoints := endpoints;
    }

    /** `setTokenResponse(response)` of the context for `baseUrl`; `threw` reports an escaping exception. */
    method SetTokenResponse(baseUrl: string, response: Option<TokenResponse>, decodeIdToken: string -> IdTokenReading)
      returns (threw: bool)
      modifies this, session
      ensures CommitResult(Snapshot(), threw) == Commit(old(Snapshot()), baseUrl, response, decodeIdToken)
      ensures tokenEndpoints == old(tokenEndpoints)
    {
      tokenResponses := tokenResponses[baseUrl := response];

      var stateKeysStr := session.GetItem(StateKey);
      if stateKeysStr.Some? && StoredTruthy(stateKeysStr.value) {
        var parsed := ParseStateObject(stateKeysStr.value);
        if parsed.Thrown? || parsed.value.None? {
          // JSON.parse threw, or `stateKeys[baseUrl]` indexes null
          return true;
        }
        var stateKeys := parsed.value.value;
        if baseUrl in stateKeys && Truthy(stateKeys[baseUrl]) {
          session.SetItem(stateKeys[baseUrl], TokenJson(response));
        }
      }

      var user: Option<string> := None;
      if response.Some? {
        var decoded := decodeIdToken(response.value.idToken);
        if decoded.UndecodableIdToken? {
          return true;
        }
        if decoded.IdToken? {
          user := ResourceIdentifier(decoded.fhirUser);
        }
      }
      fhirUsers := fhirUsers[baseUrl := user];
      return false;
    }
  }

  /** Provider start: rehydrate, then build the store; `null` when rehydration throws. */
  method MountProvider(session: SessionStore) returns (store: AuthStore?)
    ensures store == null <==> Rehydrated(session.entries).Thrown?
    ensures store != null ==> fresh(store) && store.session == session
    ensures store != null ==> store.tokenResponses == Rehydrated(session.entries).value
    // no server has a fhirUser yet, even when its response was rehydrated
    ensures store != null ==> forall u, a :: store.Context(u, a).fhirUser == None
    ensures store != null ==> forall u, a :: store.Context(u, a).tokenEndpoint == ""
  {
    var rehydrated := RetrieveStoredTokenResponse(session);
    if rehydrated.Thrown? {
      return null;
    }
    store := new AuthStore(session, rehydrated.value);
  }
}
