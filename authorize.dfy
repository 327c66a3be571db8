/**
 * `useAuthorize`: the SMART-on-FHIR authorization request. It generates
 * the CSRF state nonce, records it per server in the `"state"` session
 * object, builds the authorization URL (section 4.3 of RFC 7636, with
 * `code_challenge_method=S256` from section 4.2) and reports a status.
 */
module Authorize {
  import opened Wrappers
  import opened SessionStorage
  import opened SearchParams

  predicate IsAlphanumeric(c: char) {
    'A' <= c <= 'Z' || 'a' <= c <= 'z' || '0' <= c <= '9'
  }

  /** The character at position `k` of the alphabet: `A`-`Z`, then `a`-`z`, then `0`-`9`. */
  function AlphabetChar(k: int): char
    requires 0 <= k < 62
  {
    if k < 26 then ('A' as int + k) as char
    else if k < 52 then ('a' as int + k - 26) as char
    else ('0' as int + k - 52) as char
  }

  /** The nonce alphabet of `createNonce`, `ABC...Zabc...z0123456789`, one character per position. */
  function Alphabet(): (s: string)
    ensures |s| == 62
    ensures forall k :: 0 <= k < 62 ==> s[k] == AlphabetChar(k)
  {
    seq(62, k requires 0 <= k < 62 => AlphabetChar(k))
  }

  const PossibleChars: string := Alphabet()
  const NonceLength: nat := 40

  /** Where an alphanumeric character sits in the alphabet. */
  function AlphabetPosition(c: char): int {
    if 'A' <= c <= 'Z' then c as int - 'A' as int
    else if 'a' <= c <= 'z' then 26 + c as int - 'a' as int
    else 52 + c as int - '0' as int
  }

  /**
   * The alphabet holds 62 characters, all alphanumeric, each at its own
   * position (so no character repeats), and every ASCII letter or digit
   * occurs in it.
   */
  lemma PossibleCharsAreTheAlphanumerics()
    ensures |PossibleChars| == 62
    ensures forall k :: 0 <= k < 62 ==> IsAlphanumeric(PossibleChars[k]) && AlphabetPosition(PossibleChars[k]) == k
    ensures forall c :: IsAlphanumeric(c) ==> 0 <= AlphabetPosition(c) < 62 && PossibleChars[AlphabetPosition(c)] == c
  {
  }

  /** One alphabet character is alphanumeric. */
  lemma AlphabetCharIsAlphanumeric(k: int)
    requires 0 <= k < |PossibleChars|
    ensures IsAlphanumeric(PossibleChars[k])
  {
    PossibleCharsAreTheAlphanumerics();
  }

  /** `Math.floor(Math.random() * possibleChars.length)` for one value of `Math.random()`. */
  function DrawIndex(random: real): (index: int)
    requires 0.0 <= random < 1.0
    ensures 0 <= index < |PossibleChars|
  {
    (random * |PossibleChars| as real).Floor
  }

  /**
   * `createNonce()`: forty characters, the k-th picked from the alphabet by
   * the k-th value `Math.random()` returned.
   */
  method CreateNonce(randoms: seq<real>) returns (nonce: string)
    requires |randoms| == NonceLength
    requires forall k :: 0 <= k < |randoms| ==> 0.0 <= randoms[k] < 1.0
    ensures |nonce| == NonceLength
    ensures forall k :: 0 <= k < |nonce| ==> nonce[k] == PossibleChars[DrawIndex(randoms[k])]
    ensures forall k :: 0 <= k < |nonce| ==> IsAlphanumeric(nonce[k])
  {
    nonce := "";
    var i := 0;
    while i < NonceLength
      invariant 0 <= i <= NonceLength
      invariant |nonce| == i
      invariant forall k :: 0 <= k < i ==> nonce[k] == PossibleChars[DrawIndex(randoms[k])]
    {
      nonce := nonce + [PossibleChars[DrawIndex(randoms[i])]];
      i := i + 1;
    }
    forall k | 0 <= k < |nonce| ensures IsAlphanumeric(nonce[k]) {
      AlphabetCharIsAlphanumeric(DrawIndex(randoms[k]));
    }
  }

  /** Two nonces drawn from different alphabet positions differ (the alphabet has no repeated character). */
  lemma DistinctDrawsGiveDistinctNonces(r1: seq<real>, r2: seq<real>, n1: string, n2: string, k: nat)
    requires |r1| == |r2| == |n1| == |n2| && k < |n1|
    requires forall j :: 0 <= j < |r1| ==> 0.0 <= r1[j] < 1.0 && 0.0 <= r2[j] < 1.0
    requires forall j :: 0 <= j < |n1| ==> n1[j] == PossibleChars[DrawIndex(r1[j])] && n2[j] == PossibleChars[DrawIndex(r2[j])]
    requires DrawIndex(r1[k]) != DrawIndex(r2[k])
    ensures n1 != n2
  {
    PossibleCharsAreTheAlphanumerics();
    assert AlphabetPosition(n1[k]) == DrawIndex(r1[k]) && AlphabetPosition(n2[k]) == DrawIndex(r2[k]);
    assert n1[k] != n2[k];
  }

  /** The `authorization_endpoint` field of a discovery document: absent, the JSON `null`, or a string. */
  datatype EndpointField = MissingField | NullField | StringField(url: string)

  /** What `useSmartConfiguration(aud)` has produced: nothing yet, a document, or one whose endpoint cannot be read. */
  datatype SmartConfiguration = NotLoaded | Loaded(authorizationEndpoint: EndpointField) | Unreadable

  /** The memoised endpoint: `null` (the read threw, or the field is `null`), `undefined` (the document lacks the field) or a string. */
  datatype Endpoint = NullEndpoint | UndefinedEndpoint | EndpointUrl(url: string)

  /** Lines 29-40: the authorization endpoint, `""` while the configuration is not loaded. */
  function AuthorizationEndpoint(config: SmartConfiguration): (e: Endpoint)
    ensures e.NullEndpoint? <==> config.Unreadable? || config == Loaded(NullField)
    ensures e.UndefinedEndpoint? <==> config == Loaded(MissingField)
    ensures config.NotLoaded? ==> e == EndpointUrl("")
    ensures config.Loaded? && config.authorizationEndpoint.StringField? ==> e == EndpointUrl(config.authorizationEndpoint.url)
  {
    match config
    case NotLoaded => EndpointUrl("")
    case Loaded(MissingField) => UndefinedEndpoint
    case Loaded(NullField) => NullEndpoint
    case Loaded(StringField(url)) => EndpointUrl(url)
    case Unreadable => NullEndpoint
  }

  predicate EndpointTruthy(e: Endpoint) {
    e.EndpointUrl? && Truthy(e.url)
  }

  datatype AuthorizeStatus = Complete | Loading | Error

  /** Lines 101-112: `error` takes precedence, then `complete` when not enabled, else `loading`. */
  function Status(endpoint: Endpoint, enabled: bool): (s: AuthorizeStatus)
    ensures s == Error <==> endpoint.NullEndpoint?
    ensures s == Complete <==> !endpoint.NullEndpoint? && !enabled
    ensures s == Loading <==> !endpoint.NullEndpoint? && enabled
  {
    if endpoint.NullEndpoint? then Error
    else if !enabled then Complete
    else Loading
  }

  /**
   * Only a `null` endpoint is an error (the read threw, or the field is the
   * JSON `null`): a discovery document without an authorization endpoint
   * leaves an enabled request `loading` for good.
   */
  lemma StatusErrorOnlyForNullEndpoint(config: SmartConfiguration, enabled: bool)
    ensures Status(AuthorizationEndpoint(config), enabled) == Error <==> config.Unreadable? || config == Loaded(NullField)
    ensures config == Loaded(MissingField) && enabled ==>
      Status(AuthorizationEndpoint(config), enabled) == Loading
  {
  }

  /**
   * The status the comment at line 101 describes: an endpoint that was not
   * found, whether the configuration is unreadable or lacks the field, is
   * an error.
   */
  function StatusCorrected(endpoint: Endpoint, enabled: bool): (s: AuthorizeStatus) {
    if endpoint.NullEndpoint? || endpoint.UndefinedEndpoint? then Error
    else Status(endpoint, enabled)
  }

  /**
   * Corrected, a discovery document without an authorization endpoint is
   * reported as an error; every other configuration keeps its status.
   */
  lemma StatusCorrectedReportsMissingEndpoint(config: SmartConfiguration, enabled: bool)
    ensures StatusCorrected(AuthorizationEndpoint(config), enabled) == Error <==>
      config.Unreadable? || (config.Loaded? && !config.authorizationEndpoint.StringField?)
    ensures config != Loaded(MissingField) ==>
      StatusCorrected(AuthorizationEndpoint(config), enabled) == Status(AuthorizationEndpoint(config), enabled)
  {
  }

  datatype AuthorizeProps = AuthorizeProps(
    responseType: string,
    clientId: string,
    redirectUri: string,
    scope: string,
    aud: string,
    enabled: bool
  )

  /**
   * The `"state"` object lines 63-68 start from: the parsed object, `{}`
   * when the entry is missing or `JSON.parse` throws, or `None` for the
   * JSON `null`, which parses without throwing.
   */
  function StoredStates(entries: map<string, Stored>): (m: Option<map<string, string>>)
    ensures m.None? <==> ReadState(entries).NullState?
    ensures ReadState(entries).StateMap? ==> m == Some(ReadState(entries).states)
    ensures ReadState(entries).NoState? || ReadState(entries).Unparsable? ==> m == Some(map[])
  {
    match ReadState(entries)
    case StateMap(states) => Some(states)
    case NullState => None
    case _ => Some(map[])
  }

  /**
   * Lines 63-69: the merged state object, `aud` mapped to the new nonce. The
   * assignment at line 69 is outside the `try`, so on `null` it throws.
   */
  function MergedStates(entries: map<string, Stored>, aud: string, nonce: string): (m: Completion<map<string, string>>)
    ensures m.Thrown? <==> StoredStates(entries).None?
    ensures m.Normal? ==> aud in m.value && m.value[aud] == nonce
    ensures m.Normal? ==> m.value.Keys == StoredStates(entries).value.Keys + {aud}
    ensures m.Normal? ==> forall b :: b in StoredStates(entries).value && b != aud ==> m.value[b] == StoredStates(entries).value[b]
  {
    match StoredStates(entries)
    case None => Thrown
    case Some(states) => Normal(states[aud := nonce])
  }

  /** The authorization request: endpoint, the standard query parameters, and the separately encoded scope. */
  datatype AuthorizationUrl = AuthorizationUrl(endpoint: string, query: Query, encodedScope: string)

  /** Lines 76-89. */
  function BuildAuthorizationUrl(endpoint: string, props: AuthorizeProps, state: string, codeChallenge: string,
                                 encodeURIComponent: string -> string): AuthorizationUrl
  {
    AuthorizationUrl(
      endpoint,
      [ ("response_type", props.responseType),
        ("client_id", props.clientId),
        ("redirect_uri", props.redirectUri),
        ("aud", props.aud),
        ("state", state),
        ("code_challenge", codeChallenge),
        ("code_challenge_method", "S256") ],
      encodeURIComponent(props.scope))
  }

  /** The string assigned to `window.location.href`. */
  function Href(u: AuthorizationUrl, formEncode: string -> string): string {
    u.endpoint + "?" + SerializeQuery(u.query, formEncode) + "&scope=" + u.encodedScope
  }

  /**
   * The request carries the RFC 7636 parameters in the source's order, the
   * `state` parameter is exactly the nonce, the challenge method is `S256`,
   * and the scope travels separately, encoded, outside the parameter list.
   */
  lemma AuthorizationUrlParameters(endpoint: string, props: AuthorizeProps, state: string, codeChallenge: string,
                                   encodeURIComponent: string -> string)
    ensures var u := BuildAuthorizationUrl(endpoint, props, state, codeChallenge, encodeURIComponent);
      && u.endpoint == endpoint
      && |u.query| == 7
      && u.query[0].0 == "response_type" && u.query[1].0 == "client_id" && u.query[2].0 == "redirect_uri"
      && u.query[3].0 == "aud" && u.query[4].0 == "state" && u.query[5].0 == "code_challenge"
      && u.query[6].0 == "code_challenge_method"
      && QueryValue(u.query, "response_type") == Some(props.responseType)
      && QueryValue(u.query, "client_id") == Some(props.clientId)
      && QueryValue(u.query, "redirect_uri") == Some(props.redirectUri)
      && QueryValue(u.query, "aud") == Some(props.aud)
      && QueryValue(u.query, "state") == Some(state)
      && QueryValue(u.query, "code_challenge") == Some(codeChallenge)
      && QueryValue(u.query, "code_challenge_method") == Some("S256")
      && QueryValue(u.query, "scope") == None
      && u.encodedScope == encodeURIComponent(props.scope)
  {
    var q := BuildAuthorizationUrl(endpoint, props, state, codeChallenge, encodeURIComponent).query;
    RequestParameterValues(q);
  }

  /** `get` on a query whose seven names are those of the authorization request, in that order. */
  lemma RequestParameterValues(q: Query)
    requires |q| == 7
    requires q[0].0 == "response_type" && q[1].0 == "client_id" && q[2].0 == "redirect_uri" && q[3].0 == "aud"
    requires q[4].0 == "state" && q[5].0 == "code_challenge" && q[6].0 == "code_challenge_method"
    ensures QueryValue(q, "response_type") == Some(q[0].1) && QueryValue(q, "client_id") == Some(q[1].1)
    ensures QueryValue(q, "redirect_uri") == Some(q[2].1) && QueryValue(q, "aud") == Some(q[3].1)
    ensures QueryValue(q, "state") == Some(q[4].1) && QueryValue(q, "code_challenge") == Some(q[5].1)
    ensures QueryValue(q, "code_challenge_method") == Some(q[6].1)
    ensures QueryValue(q, "scope") == None
  {
    QueryValueFirst(q, 0, "response_type");
    QueryValueFirst(q, 1, "client_id");
    QueryValueFirst(q, 2, "redirect_uri");
    QueryValueFirst(q, 3, "aud");
    QueryValueFirst(q, 4, "state");
    QueryValueFirst(q, 5, "code_challenge");
    QueryValueFirst(q, 6, "code_challenge_method");
    assert forall i :: 0 <= i < |q| ==> q[i].0 != "scope";
  }

  /**
   * The `state` query parameter of the redirect equals the value the session
   * `"state"` object now holds under `aud`, and every other server's pending
   * state survives the merge.
   */
  lemma RedirectStateMatchesStoredState(entries: map<string, Stored>, props: AuthorizeProps, nonce: string,
                                        codeChallenge: string, endpoint: string, encodeURIComponent: string -> string)
    ensures var merged := MergedStates(entries, props.aud, nonce);
      merged.Normal? ==>
        var after := entries[StateKey := StateJson(merged.value)];
        var u := BuildAuthorizationUrl(endpoint, props, nonce, codeChallenge, encodeURIComponent);
        && ReadState(after).StateMap?
        && props.aud in ReadState(after).states
        && QueryValue(u.query, "state") == Some(ReadState(after).states[props.aud])
        && forall b :: b in StoredStates(entries).value && b != props.aud ==>
             b in ReadState(after).states && ReadState(after).states[b] == StoredStates(entries).value[b]
  {
    var merged := MergedStates(entries, props.aud, nonce);
    if merged.Normal? {
      var after := entries[StateKey := StateJson(merged.value)];
      assert ParseStateObject(after[StateKey]) == Normal(Some(merged.value));
      assert ReadState(after) == StateMap(merged.value);
      var u := BuildAuthorizationUrl(endpoint, props, nonce, codeChallenge, encodeURIComponent);
      RequestParameterValues(u.query);
    }
  }

  /** What `pkceChallenge()` resolves to (the PKCE library is not part of this model). */
  datatype PkcePair = PkcePair(codeVerifier: string, codeChallenge: string)

  /** Lines 44-51, run once at mount: when enabled, keep the challenge and store the verifier. */
  method GeneratePkceAtMount(session: SessionStore, enabled: bool, pair: PkcePair) returns (codeChallenge: Option<string>)
    modifies session
    ensures enabled ==> codeChallenge == Some(pair.codeChallenge)
    ensures enabled ==> session.entries == old(session.entries)[CodeVerifierKey := Text(pair.codeVerifier)]
    ensures !enabled ==> codeChallenge == None && session.entries == old(session.entries)
  {
    codeChallenge := None;
    if enabled {
      codeChallenge := Some(pair.codeChallenge);
      session.SetItem(CodeVerifierKey, Text(pair.codeVerifier));
    }
  }

  /**
   * Lines 54-90, the redirect effect, each time it runs. It fires only when
   * enabled, with a challenge and a non-empty endpoint; it then records the
   * nonce under `aud` and returns the navigation target. A `null` stored
   * under `"state"` makes it throw (`threw`) before anything is written.
   */
  method RequestAuthorization(session: SessionStore, props: AuthorizeProps, endpoint: Endpoint,
                              codeChallenge: Option<string>, randoms: seq<real>,
                              encodeURIComponent: string -> string, formEncode: string -> string)
    returns (state: Option<string>, href: Option<string>, threw: bool)
    requires |randoms| == NonceLength
    requires forall k :: 0 <= k < |randoms| ==> 0.0 <= randoms[k] < 1.0
    modifies session
    ensures threw <==> props.enabled && TruthyOpt(codeChallenge) && EndpointTruthy(endpoint) && StoredStates(old(session.entries)).None?
    ensures state.Some? <==> props.enabled && TruthyOpt(codeChallenge) && EndpointTruthy(endpoint) && !threw
    ensures href.Some? <==> state.Some?
    ensures state.None? ==> session.entries == old(session.entries)
    ensures state.Some? ==> |state.value| == NonceLength && forall k :: 0 <= k < |state.value| ==> IsAlphanumeric(state.value[k])
    ensures state.Some? ==> forall k :: 0 <= k < |state.value| ==> state.value[k] == PossibleChars[DrawIndex(randoms[k])]
    ensures state.Some? ==> MergedStates(old(session.entries), props.aud, state.value).Normal?
    ensures state.Some? ==>
      session.entries == old(session.entries)[StateKey := StateJson(MergedStates(old(session.entries), props.aud, state.value).value)]
    ensures state.Some? ==>
      href.value == Href(BuildAuthorizationUrl(endpoint.url, props, state.value, codeChallenge.value, encodeURIComponent), formEncode)
  {
    state, href, threw := None, None, false;
    if !props.enabled || !TruthyOpt(codeChallenge) {
      return;
    }
    if EndpointTruthy(endpoint) {
      var nonce := CreateNonce(randoms);

      ghost var before := session.entries;
      var stored := session.GetItem(StateKey);
      // `getItem("state") ?? ""`, and JSON.parse("") throws
      var parsed := if stored.None? then Thrown else ParseStateObject(stored.value);
      var stateObj: Option<map<string, string>> := if parsed.Normal? then parsed.value else Some(map[]);
      assert stateObj == StoredStates(before);
      if stateObj.None? {
        // `stateObj[aud] = state` on null
        threw := true;
        return;
      }
      var merged := stateObj.value[props.aud := nonce];
      session.SetItem(StateKey, StateJson(merged));

      var url := BuildAuthorizationUrl(endpoint.url, props, nonce, codeChallenge.value, encodeURIComponent);
      state, href := Some(nonce), Some(Href(url, formEncode));
    }
  }
}
