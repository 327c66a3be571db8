/**
 * `useAxios(serverUrl)`: picks the server context and OAuth client id, and
 * installs a request interceptor that refreshes an access token due to
 * expire (the refresh grant of section 6 of RFC 6749), commits the outcome
 * through the context's `setTokenResponse`, and sets the `Authorization`
 * header.
 */
module FhirServerAxios {
  import opened Wrappers
  import opened OAuth
  import opened SessionStorage
  import opened SearchParams
  import opened FhirServerContext

  /** What the token endpoint does with the refresh POST: `fetch` rejects, or a reply with a body. */
  datatype HttpReply = NetworkError | HttpResponse(ok: bool, status: int, body: ReplyBody)

  /** How `response.json()` and `responseIsTokenResponse` read the body. */
  datatype ReplyBody = NotJson | TokenBody(response: TokenResponse) | OtherJson

  /** How `refreshAccessToken` settles: it throws, or resolves to a response or `null`. */
  datatype RefreshOutcome = RefreshThrew | RefreshReturned(response: Option<TokenResponse>)

  /** A form-encoded POST: target URL and body parameters in order. */
  datatype FormPost = FormPost(url: string, form: Query)

  /** Lines 15-22: the refresh request. */
  function RefreshRequest(tokenEndpoint: string, refreshToken: string, clientId: string): FormPost {
    FormPost(tokenEndpoint, [("grant_type", "refresh_token"), ("refresh_token", refreshToken), ("client_id", clientId)])
  }

  /** The refresh POST goes to the token endpoint and carries the refresh grant, the stored refresh token and the client id. */
  lemma RefreshRequestParameters(tokenEndpoint: string, refreshToken: string, clientId: string)
    ensures var post := RefreshRequest(tokenEndpoint, refreshToken, clientId);
      && post.url == tokenEndpoint
      && |post.form| == 3
      && QueryValue(post.form, "grant_type") == Some("refresh_token")
      && QueryValue(post.form, "refresh_token") == Some(refreshToken)
      && QueryValue(post.form, "client_id") == Some(clientId)
  {
    var q := RefreshRequest(tokenEndpoint, refreshToken, clientId).form;
    assert QueryValue(q, "grant_type") == Some("refresh_token") by { QueryValueFirst(q, 0, "grant_type"); }
    assert QueryValue(q, "refresh_token") == Some(refreshToken) by { QueryValueFirst(q, 1, "refresh_token"); }
    assert QueryValue(q, "client_id") == Some(clientId) by { QueryValueFirst(q, 2, "client_id"); }
  }

  /** Lines 24-35: a network failure, a non-ok status or a body that is not JSON throw; otherwise the body or `null`. */
  function RefreshAccessToken(reply: HttpReply): (outcome: RefreshOutcome)
    ensures outcome.RefreshThrew? <==> reply.NetworkError? || !reply.ok || reply.body.NotJson?
    ensures outcome.RefreshReturned? && outcome.response.Some? <==> reply.HttpResponse? && reply.ok && reply.body.TokenBody?
    ensures outcome.RefreshReturned? && outcome.response.Some? ==> outcome.response.value == reply.body.response
  {
    match reply
    case NetworkError => RefreshThrew
    case HttpResponse(ok, _, body) =>
      if !ok then RefreshThrew
      else match body
        case NotJson => RefreshThrew
        case TokenBody(response) => RefreshReturned(Some(response))
        case OtherJson => RefreshReturned(None)
  }

  /** The 10-minute margin, in milliseconds. */
  const RefreshMarginMillis: int := 600000

  /** Lines 62-64: `exp` is truthy (present and not 0) and, in milliseconds, less than ten minutes after `now`. */
  predicate RefreshDue(exp: Option<int>, now: int) {
    exp.Some? && exp.value != 0 && exp.value * 1000 - RefreshMarginMillis < now
  }

  /** A token due for refresh stays due as time passes; a token expiring more than ten minutes from now is not due. */
  lemma RefreshDueMonotonic(exp: int, now: int, later: int)
    requires exp != 0 && now <= later
    ensures RefreshDue(Some(exp), now) ==> RefreshDue(Some(exp), later)
    ensures exp * 1000 >= now + RefreshMarginMillis ==> !RefreshDue(Some(exp), now)
    ensures !RefreshDue(Some(0), now) && !RefreshDue(None, now)
  {
  }

  /** `"Bearer " + token`, the `Authorization` header value. */
  function Bearer(token: string): string {
    "Bearer " + token
  }

  /** The client `useAxios` builds: its base URL, the OAuth client id and the context it captured. */
  datatype AxiosClient = AxiosClient(baseUrl: string, clientId: string, context: ServerContext)

  /**
   * Lines 38-44: the URL defaults to the source server's, the secondary
   * client id is used exactly for the secondary base URL, and there is no
   * client when the provider has no context for the URL.
   */
  function UseAxios(serverUrl: string, sourceServerUrl: string, secondaryBaseUrl: string,
                    clientId: string, secondaryClientId: string, contexts: map<string, ServerContext>): (c: Option<AxiosClient>)
    ensures var url := if serverUrl != "" then serverUrl else sourceServerUrl;
      && (c.None? <==> url !in contexts)
      && (c.Some? ==> c.value.baseUrl == url && c.value.context == contexts[url])
      && (c.Some? && url == secondaryBaseUrl ==> c.value.clientId == secondaryClientId)
      && (c.Some? && url != secondaryBaseUrl ==> c.value.clientId == clientId)
  {
    var url := if serverUrl != "" then serverUrl else sourceServerUrl;
    var id := if url == secondaryBaseUrl then secondaryClientId else clientId;
    if url in contexts then Some(AxiosClient(url, id, contexts[url])) else None
  }

  /**
   * Against the provider's contexts, the configured servers always get a
   * client, and its captured context is the one for that same server, so
   * the commits the interceptor makes land on the server it talks to.
   */
  lemma UseAxiosOnConfiguredServer(store: AuthStore, config: AppConfig, serverUrl: string, sourceServerUrl: string,
                                   secondaryBaseUrl: string, clientId: string, secondaryClientId: string)
    requires var url := if serverUrl != "" then serverUrl else sourceServerUrl;
      url == config.fhirServerUrl || (config.secondaryFhirServer.Some? && url == config.secondaryFhirServer.value.fhirServerUrl)
    ensures var c := UseAxios(serverUrl, sourceServerUrl, secondaryBaseUrl, clientId, secondaryClientId, store.Contexts(config));
      && c.Some?
      && c.value.context.baseUrl == c.value.baseUrl
      && c.value.context.accessToken == AccessTokenOf(c.value.context.tokenResponse)
  {
  }

  /**
   * The sequel of a refresh (lines 65-79): the store afterwards, whether the
   * request goes on, the response committed at line 73, and whether `null`
   * was committed at line 78.
   */
  datatype Settlement = Settlement(after: AuthSnapshot, proceeds: bool, committed: Option<TokenResponse>, cleared: bool)

  /**
   * A valid response is committed; if that commit throws, or the refresh
   * itself threw, `null` is committed instead; a `null` result commits
   * nothing. A throw from the `null` commit escapes and rejects the request.
   */
  function Settle(s: AuthSnapshot, baseUrl: string, outcome: RefreshOutcome, decodeIdToken: string -> IdTokenReading): Settlement {
    match outcome
    case RefreshReturned(None) => Settlement(s, true, None, false)
    case RefreshReturned(Some(response)) =>
      var c := Commit(s, baseUrl, Some(response), decodeIdToken);
      if !c.threw then Settlement(c.after, true, Some(response), false)
      else
        var cleared := Commit(c.after, baseUrl, None, decodeIdToken);
        Settlement(cleared.after, !cleared.threw, None, true)
    case RefreshThrew =>
      var cleared := Commit(s, baseUrl, None, decodeIdToken);
      Settlement(cleared.after, !cleared.threw, None, true)
  }

  /** What one pass of the interceptor does. */
  datatype Interception = Interception(
    proceeds: bool,                  // the config is returned rather than the promise rejected
    authorization: Option<string>,   // the final `Authorization` header, when the interceptor set one
    after: AuthSnapshot,             // the provider's records and the session afterwards
    refresh: Option<FormPost>,       // the refresh request sent, if any
    committed: Option<TokenResponse>, // the refreshed response committed at line 73, if any
    cleared: bool                     // `null` was committed at line 78
  )

  /**
   * Lines 57-88 as written: the captured `accessToken` is the header value
   * whenever it is non-empty and the request goes on, because line 84 runs
   * after line 74 whatever the refresh did.
   */
  function InterceptAsWritten(s: AuthSnapshot, captured: ServerContext, clientId: string, now: int,
                              decodeAccessToken: string -> AccessTokenReading, reply: HttpReply,
                              decodeIdToken: string -> IdTokenReading): Interception
  {
    if captured.accessToken == "" then Interception(true, None, s, None, None, false)
    else match decodeAccessToken(captured.accessToken)
      case UndecodableAccessToken => Interception(false, None, s, None, None, false)
      case AccessClaims(exp) =>
        if !RefreshDue(exp, now) then Interception(true, Some(Bearer(captured.accessToken)), s, None, None, false)
        else
          var post := RefreshRequest(captured.tokenEndpoint, captured.refreshToken, clientId);
          var settled := Settle(s, captured.baseUrl, RefreshAccessToken(reply), decodeIdToken);
          Interception(settled.proceeds, if settled.proceeds then Some(Bearer(captured.accessToken)) else None,
                       settled.after, Some(post), settled.committed, settled.cleared)
  }

  /** With no access token the interceptor returns the config untouched: no refresh, no commit, no header. */
  lemma NoTokenNoChange(s: AuthSnapshot, captured: ServerContext, clientId: string, now: int,
                        decodeAccessToken: string -> AccessTokenReading, reply: HttpReply, decodeIdToken: string -> IdTokenReading)
    requires captured.accessToken == ""
    ensures var i := InterceptAsWritten(s, captured, clientId, now, decodeAccessToken, reply, decodeIdToken);
      i.proceeds && i.authorization.None? && i.after == s && i.refresh.None?
  {
  }

  /** The refresh request is sent exactly when there is a token, it decodes, and its `exp` is due; it is the refresh grant for the captured tokens. */
  lemma RefreshExactlyWhenDue(s: AuthSnapshot, captured: ServerContext, clientId: string, now: int,
                              decodeAccessToken: string -> AccessTokenReading, reply: HttpReply, decodeIdToken: string -> IdTokenReading)
    ensures var i := InterceptAsWritten(s, captured, clientId, now, decodeAccessToken, reply, decodeIdToken);
      && (i.refresh.Some? <==>
            captured.accessToken != "" && decodeAccessToken(captured.accessToken).AccessClaims?
            && RefreshDue(decodeAccessToken(captured.accessToken).exp, now))
      && (i.refresh.Some? ==> i.refresh.value == RefreshRequest(captured.tokenEndpoint, captured.refreshToken, clientId))
      && (i.refresh.None? ==> i.after == s && i.committed.None?)
  {
  }

  /**
   * The header is the captured token whenever there is one and the request
   * goes on, whatever the refresh outcome; the request is rejected only when
   * the token does not decode or the `null` commit throws.
   */
  lemma HeaderIsCapturedToken(s: AuthSnapshot, captured: ServerContext, clientId: string, now: int,
                              decodeAccessToken: string -> AccessTokenReading, reply: HttpReply, decodeIdToken: string -> IdTokenReading)
    ensures var i := InterceptAsWritten(s, captured, clientId, now, decodeAccessToken, reply, decodeIdToken);
      && (i.proceeds && captured.accessToken != "" ==> i.authorization == Some(Bearer(captured.accessToken)))
      && (!i.proceeds ==> i.authorization.None? && captured.accessToken != "")
      && (!i.proceeds && decodeAccessToken(captured.accessToken).AccessClaims? ==> i.refresh.Some?)
  {
  }

  /**
   * What the refresh commits: a valid response whose commit succeeds is
   * stored and the request goes on; a throwing refresh clears the response,
   * and the request goes on exactly when the `"state"` entry is readable; a
   * `null` result leaves the records alone; a response whose ID token does
   * not decode ends with the response cleared.
   */
  lemma RefreshCommits(s: AuthSnapshot, baseUrl: string, outcome: RefreshOutcome, decodeIdToken: string -> IdTokenReading)
    ensures var st := Settle(s, baseUrl, outcome, decodeIdToken);
      && (outcome == RefreshReturned(None) ==> st.after == s && st.proceeds && st.committed.None? && !st.cleared)
      && (outcome.RefreshReturned? && outcome.response.Some? && !Commit(s, baseUrl, outcome.response, decodeIdToken).threw ==>
            st.committed == outcome.response && st.proceeds && !st.cleared
            && st.after == Commit(s, baseUrl, outcome.response, decodeIdToken).after)
      && (outcome.RefreshThrew? ==> st.after.tokenResponses == s.tokenResponses[baseUrl := None])
      && (outcome.RefreshThrew? ==>
            st.committed.None? && st.cleared && (st.proceeds <==> !StateLookupThrows(ReadState(s.entries))))
      && (outcome.RefreshReturned? && outcome.response.Some? && StateLookupThrows(ReadState(s.entries)) ==>
            !st.proceeds && st.committed.None? && st.cleared)
      && (st.committed.Some? ==>
            outcome == RefreshReturned(st.committed) && st.after == Commit(s, baseUrl, st.committed, decodeIdToken).after && st.proceeds)
      && (outcome.RefreshReturned? && outcome.response.Some? && st.committed.None? ==>
            st.after.tokenResponses == s.tokenResponses[baseUrl := None])
      && (outcome.RefreshReturned? && outcome.response.Some? && !StateLookupThrows(ReadState(s.entries))
          && decodeIdToken(outcome.response.value.idToken).UndecodableIdToken? ==>
            st.proceeds && st.committed.None? && st.cleared && st.after.fhirUsers[baseUrl] == None)
  {
    if outcome.RefreshReturned? && outcome.response.Some? {
      CommitKeepsStateMap(s, baseUrl, outcome.response, decodeIdToken);
    }
  }

  /**
   * The header a refresh was meant to produce: the refreshed token once it
   * has been committed, no header once the auth state has been cleared,
   * otherwise the captured token.
   */
  function InterceptCorrected(s: AuthSnapshot, captured: ServerContext, clientId: string, now: int,
                              decodeAccessToken: string -> AccessTokenReading, reply: HttpReply,
                              decodeIdToken: string -> IdTokenReading): Interception
  {
    var i := InterceptAsWritten(s, captured, clientId, now, decodeAccessToken, reply, decodeIdToken);
    if i.committed.Some? then i.(authorization := Some(Bearer(i.committed.value.accessToken)))
    else if i.cleared then i.(authorization := None)
    else i
  }

  /**
   * An ID token whose payload part is `e30`, the base64url encoding of `{}`:
   * `jwtDecode` accepts it, and `IsValidIdToken` rejects the empty payload,
   * which is the `NotAnIdToken` reading the counterexamples below supply.
   */
  const EmptyPayloadIdToken: string := "eyJhbGciOiJub25lIn0.e30.c2ln"

  /** A due token, with a fixed store and oracles, for the two counterexamples below. */
  function DueToken(): ServerContext {
    ServerContext("https://fhir.example/r4", true, "https://auth.example/token",
                  Some(TokenResponse("old", Some("r"), EmptyPayloadIdToken)), "old", "r", None)
  }

  /**
   * As written, a due token that refreshes and commits cleanly still goes
   * out with the old token: the store holds `new`, the header says `old`.
   */
  lemma StaleHeaderAfterRefresh()
    ensures var renewed := TokenResponse("new", Some("r2"), EmptyPayloadIdToken);
      var i := InterceptAsWritten(AuthSnapshot(map[], map[], map[]), DueToken(), "client", 0, _ => AccessClaims(Some(1)),
                                  HttpResponse(true, 200, TokenBody(renewed)), _ => NotAnIdToken);
      && i.proceeds
      && i.after.tokenResponses[DueToken().baseUrl] == Some(renewed)
      && i.authorization == Some(Bearer("old"))
      && i.authorization != Some(Bearer(renewed.accessToken))
  {
    assert Bearer("old")[7] != Bearer("new")[7];
  }

  /**
   * As written, a refresh the token endpoint refuses clears the auth state,
   * yet the request still carries the old token, which here has expired:
   * its `exp` is 1 s and the clock reads 2 s.
   */
  lemma StaleHeaderAfterFailedRefresh()
    ensures var i := InterceptAsWritten(AuthSnapshot(map[], map[], map[]), DueToken(), "client", 2000, _ => AccessClaims(Some(1)),
                                        HttpResponse(false, 400, OtherJson), _ => NotAnIdToken);
      && i.proceeds && i.cleared
      && i.after.tokenResponses[DueToken().baseUrl] == None
      && i.authorization == Some(Bearer("old"))
  {
  }

  /**
   * Corrected, the header carries the refreshed token whenever one was
   * committed, and agrees with the as-written interceptor when no refresh
   * settled the auth state. In particular a due token whose refresh returns
   * a response that commits cleanly is replaced, in the header and in the
   * store, by the new one, where the as-written header keeps the old one.
   */
  lemma CorrectedHeaderCarriesNewToken(s: AuthSnapshot, captured: ServerContext, clientId: string, now: int,
                                       decodeAccessToken: string -> AccessTokenReading, reply: HttpReply,
                                       decodeIdToken: string -> IdTokenReading)
    ensures var i := InterceptCorrected(s, captured, clientId, now, decodeAccessToken, reply, decodeIdToken);
      var w := InterceptAsWritten(s, captured, clientId, now, decodeAccessToken, reply, decodeIdToken);
      && (i.committed.Some? ==>
            i.proceeds && i.authorization == Some(Bearer(i.committed.value.accessToken)) && AccessTokenOf(i.after.tokenResponses[captured.baseUrl]) == i.committed.value.accessToken)
      && (i.committed.None? && !i.cleared ==> i == w)
      && i.(authorization := w.authorization) == w
    ensures var i := InterceptCorrected(s, captured, clientId, now, decodeAccessToken, reply, decodeIdToken);
      var w := InterceptAsWritten(s, captured, clientId, now, decodeAccessToken, reply, decodeIdToken);
      captured.accessToken != "" && decodeAccessToken(captured.accessToken).AccessClaims?
      && RefreshDue(decodeAccessToken(captured.accessToken).exp, now)
      && RefreshAccessToken(reply).RefreshReturned? && RefreshAccessToken(reply).response.Some?
      && !Commit(s, captured.baseUrl, RefreshAccessToken(reply).response, decodeIdToken).threw ==>
        && i.proceeds
        && i.authorization == Some(Bearer(RefreshAccessToken(reply).response.value.accessToken))
        && i.after.tokenResponses[captured.baseUrl] == RefreshAccessToken(reply).response
        && w.authorization == Some(Bearer(captured.accessToken))
  {
    var i := InterceptAsWritten(s, captured, clientId, now, decodeAccessToken, reply, decodeIdToken);
    if i.refresh.Some? {
      RefreshCommits(s, captured.baseUrl, RefreshAccessToken(reply), decodeIdToken);
    }
  }

  /**
   * Corrected, once the refresh has cleared the auth state the captured token
   * is never sent: the request goes out without an `Authorization` header,
   * and the server's stored access token is empty.
   */
  lemma CorrectedHeaderDropsClearedToken(s: AuthSnapshot, captured: ServerContext, clientId: string, now: int,
                                         decodeAccessToken: string -> AccessTokenReading, reply: HttpReply,
                                         decodeIdToken: string -> IdTokenReading)
    ensures var i := InterceptCorrected(s, captured, clientId, now, decodeAccessToken, reply, decodeIdToken);
      i.cleared ==> i.authorization.None? && i.committed.None? && AccessTokenOf(i.after.tokenResponses[captured.baseUrl]) == ""
  {
    var i := InterceptAsWritten(s, captured, clientId, now, decodeAccessToken, reply, decodeIdToken);
    if i.cleared {
      RefreshCommits(s, captured.baseUrl, RefreshAccessToken(reply), decodeIdToken);
    }
  }

  /** The axios request config; the interceptor edits its headers in place. */
  class RequestConfig {
    var headers: map<string, string>

    constructor (headers: map<string, string>)
      ensures this.headers == headers
    {
      this.headers := headers;
    }
  }

  /**
   * The request interceptor of lines 57-89, run once against the provider's
   * current records. `captured` is the context the hook closed over; the
   * commits go through it to its server. `proceeds` is false when the
   * returned promise rejects.
   */
  method Intercept(store: AuthStore, captured: ServerContext, clientId: string, now: int,
                   decodeAccessToken: string -> AccessTokenReading, reply: HttpReply,
                   decodeIdToken: string -> IdTokenReading, config: RequestConfig)
    returns (proceeds: bool, refresh: Option<FormPost>)
    modifies store, store.session, config
    ensures var i := InterceptAsWritten(old(store.Snapshot()), captured, clientId, now, decodeAccessToken, reply, decodeIdToken);
      && proceeds == i.proceeds && refresh == i.refresh && store.Snapshot() == i.after
      && config.headers == (if i.authorization.Some? then old(config.headers)["Authorization" := i.authorization.value]
                            else old(config.headers))
    ensures store.tokenEndpoints == old(store.tokenEndpoints)
  {
    proceeds, refresh := true, None;
    if captured.accessToken != "" {
      var decodedToken := decodeAccessToken(captured.accessToken);
      if decodedToken.UndecodableAccessToken? {
        return false, None;
      }
      if decodedToken.exp.Some? && decodedToken.exp.value != 0 {
        var expiresInMinus10Minutes := decodedToken.exp.value * 1000 - RefreshMarginMillis;
        if expiresInMinus10Minutes < now {
          refresh := Some(RefreshRequest(captured.tokenEndpoint, captured.refreshToken, clientId));
          var newTokenResponse := RefreshAccessToken(reply);
          var failed := newTokenResponse.RefreshThrew?;
          if newTokenResponse.RefreshReturned? && newTokenResponse.response.Some? {
            var threw := store.SetTokenResponse(captured.baseUrl, newTokenResponse.response, decodeIdToken);
            if threw {
              failed := true;
            } else {
              config.headers := config.headers["Authorization" := Bearer(newTokenResponse.response.value.accessToken)];
            }
          }
          if failed {
            var threw := store.SetTokenResponse(captured.baseUrl, None, decodeIdToken);
            if threw {
              return false, refresh;
            }
          }
        }
      }
      config.headers := config.headers["Authorization" := Bearer(captured.accessToken)];
    }
  }
}
