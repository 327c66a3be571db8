/**
 * `useValidateAuthorization`: the error the authorization server reported
 * on the redirect back, read from the callback's query string.
 */
module ValidateAuthorization {
  import opened Wrappers
  import opened SearchParams

  /**
   * `error_description ?? error`: a present description wins, even an empty
   * one; without one the error is used; `null` exactly when neither is present.
   */
  function AuthorizationError(query: Query): (e: Option<string>)
    ensures HasName(query, "error_description") ==> e.Some? && ("error_description", e.value) in query
    ensures !HasName(query, "error_description") ==> e == QueryValue(query, "error")
    ensures e.None? <==> !HasName(query, "error_description") && !HasName(query, "error")
  {
    match QueryValue(query, "error_description")
    case Some(description) => Some(description)
    case None => QueryValue(query, "error")
  }

  /** The description is used when given, the error otherwise. */
  lemma DescriptionPreferred(before: Query, description: string, after: Query)
    requires forall i :: 0 <= i < |before| ==> before[i].0 != "error_description"
    ensures AuthorizationError(before + [("error_description", description)] + after) == Some(description)
  {
    var q := before + [("error_description", description)] + after;
    assert q[|before|] == ("error_description", description);
    QueryValueFirst(q, |before|, "error_description");
  }

  /** Parameters other than `error` and `error_description` (`code`, `state`, ...) never change the result. */
  lemma OtherParametersIgnored(before: Query, pair: (string, string), after: Query)
    requires pair.0 != "error" && pair.0 != "error_description"
    ensures AuthorizationError(before + [pair] + after) == AuthorizationError(before + after)
  {
    QueryValueIgnoresOtherNames(before, pair, after, "error_description");
    QueryValueIgnoresOtherNames(before, pair, after, "error");
  }
}
