/**
 * The tab-scoped key/value store (`sessionStorage`) shared by the
 * authorization request, the per-server auth store and its persistence.
 */
module SessionStorage {
  import opened Wrappers
  import opened OAuth

  /** Key of the JSON object mapping each server base URL to its latest CSRF state. */
  const StateKey: string := "state"
  /** Key of the raw PKCE verifier. */
  const CodeVerifierKey: string := "code_verifier"

  /**
   * A stored string, classified by what wrote it: a raw string that is not
   * JSON (the PKCE verifier, or anything written from outside), the JSON of
   * the `"state"` object, or the JSON of a token response or of `null`.
   */
  datatype Stored =
    | Text(raw: string)
    | StateJson(states: map<string, string>)
    | TokenJson(response: Option<TokenResponse>)

  /** Truthiness of the string `getItem` returns: JSON text is never empty. */
  predicate StoredTruthy(v: Stored) {
    match v
    case Text(raw) => raw != ""
    case _ => true
  }

  /**
   * A token response's JSON parsed as a plain object: its string fields by
   * name, with `refresh_token` a key only when the response has one.
   */
  function TokenObject(r: TokenResponse): (o: map<string, string>)
    ensures "access_token" in o && o["access_token"] == r.accessToken
    ensures "id_token" in o && o["id_token"] == r.idToken
    ensures ("refresh_token" in o <==> r.refreshToken.Some?) && (r.refreshToken.Some? ==> o["refresh_token"] == r.refreshToken.value)
    ensures o.Keys <= {"access_token", "id_token", "refresh_token"}
  {
    var tokens := map["access_token" := r.accessToken, "id_token" := r.idToken];
    match r.refreshToken
    case None => tokens
    case Some(t) => tokens["refresh_token" := t]
  }

  /**
   * The JSON of a plain string map parsed where a token response is
   * expected: the fields are read by name; a missing `access_token` or
   * `id_token` reads as `""`, a missing `refresh_token` as absent.
   */
  function ResponseObject(m: map<string, string>): TokenResponse {
    TokenResponse(
      if "access_token" in m then m["access_token"] else "",
      if "refresh_token" in m then Some(m["refresh_token"]) else None,
      if "id_token" in m then m["id_token"] else "")
  }

  /**
   * `JSON.parse` of a stored value read as an object: raw text is not JSON
   * and throws; `null` parses to `None`; a state map parses to itself and a
   * token response to its object view.
   */
  function ParseStateObject(v: Stored): (r: Completion<Option<map<string, string>>>)
    ensures r.Thrown? <==> v.Text?
    ensures r == Normal(None) <==> v == TokenJson(None)
    ensures v.StateJson? ==> r == Normal(Some(v.states))
    ensures v.TokenJson? && v.response.Some? ==> r == Normal(Some(TokenObject(v.response.value)))
  {
    match v
    case Text(_) => Thrown
    case StateJson(m) => Normal(Some(m))
    case TokenJson(None) => Normal(None)
    case TokenJson(Some(response)) => Normal(Some(TokenObject(response)))
  }

  /**
   * `JSON.parse` of a stored value read as a token response: raw text
   * throws; a serialized response or `null` parses to itself; a state map
   * parses to the object its keys make.
   */
  function ParseTokenResponse(v: Stored): (r: Completion<Option<TokenResponse>>)
    ensures r.Thrown? <==> v.Text?
    ensures v.TokenJson? ==> r == Normal(v.response)
    ensures v.StateJson? ==> r == Normal(Some(ResponseObject(v.states)))
  {
    match v
    case Text(_) => Thrown
    case TokenJson(response) => Normal(response)
    case StateJson(m) => Normal(Some(ResponseObject(m)))
  }

  /**
   * How the `"state"` entry reads: missing or empty, an object, the JSON
   * `null` (indexing it throws a `TypeError`), or text `JSON.parse` rejects.
   */
  datatype StateRead = NoState | StateMap(states: map<string, string>) | NullState | Unparsable

  /** Looking a server up in the `"state"` entry throws: on `JSON.parse`, or on indexing `null`. */
  predicate StateLookupThrows(r: StateRead) {
    r.NullState? || r.Unparsable?
  }

  function ReadState(entries: map<string, Stored>): (r: StateRead)
    ensures r.NoState? <==> StateKey !in entries || entries[StateKey] == Text("")
    ensures r.Unparsable? <==> StateKey in entries && entries[StateKey].Text? && entries[StateKey] != Text("")
    ensures r.NullState? <==> StateKey in entries && entries[StateKey] == TokenJson(None)
    ensures r.StateMap? <==> StateKey in entries && (entries[StateKey].StateJson? || entries[StateKey].TokenJson?) && entries[StateKey] != TokenJson(None)
    ensures r.StateMap? ==> Normal(Some(r.states)) == ParseStateObject(entries[StateKey])
  {
    if StateKey !in entries || !StoredTruthy(entries[StateKey]) then NoState
    else match ParseStateObject(entries[StateKey])
      case Normal(Some(m)) => StateMap(m)
      case Normal(None) => NullState
      case Thrown => Unparsable
  }

  /** `sessionStorage`: one store per browser tab. */
  class SessionStore {
    var entries: map<string, Stored>

    constructor (initial: map<string, Stored>)
      ensures entries == initial
    {
      entries := initial;
    }

    /** `getItem(key)`; `None` is `null`. */
    function GetItem(key: string): (v: Option<Stored>)
      reads this
      ensures v.Some? <==> key in entries
      ensures v.Some? ==> v.value == entries[key]
    {
      if key in entries then Some(entries[key]) else None
    }

    /** `setItem(key, value)`: overwrites one key and keeps every other one. */
    method SetItem(key: string, value: Stored)
      modifies this
      ensures entries == old(entries)[key := value]
    {
      entries := entries[key := value];
    }
  }
}
