/**
 * OAuth values the core exchanges with `src/utils/oauth.ts`, `jwt-decode`
 * and the token endpoint. Those libraries are not part of this model: what
 * they answer is supplied to the operations as readings (oracle values).
 */
module OAuth {
  import opened Wrappers

  /** A token endpoint response (section 5.1 of RFC 6749), reduced to the fields the core reads. */
  datatype TokenResponse = TokenResponse(
    accessToken: string,            // access_token
    refreshToken: Option<string>,   // refresh_token (optional)
    idToken: string                 // id_token (an OpenID Connect JWT)
  )

  /**
   * What `jwtDecode(id_token)` followed by `IsValidIdToken` says about an ID token:
   * decoding threw, the payload failed the type guard, or it passed and carries a `fhirUser` claim.
   */
  datatype IdTokenReading = UndecodableIdToken | NotAnIdToken | IdToken(fhirUser: string)

  /** What `jwtDecode(accessToken)` says: decoding threw, or the payload's `exp` claim (seconds). */
  datatype AccessTokenReading = UndecodableAccessToken | AccessClaims(exp: Option<int>)
}
