# Multi-server SMART-on-FHIR session logic, modelled in Dafny

This project models the OAuth / SMART-on-FHIR session core of the
DIFFERENCE proof-of-concept, a React app that connects to a primary FHIR
server and, optionally, a secondary one. It covers these parts:

- **Per-server auth store** (`FhirServerContext`, `SessionStorage`). Three records keyed by server base URL: token endpoint, token response and `fhirUser`.
  - The access and refresh tokens are projections of the stored response.
  - The setter commits a response, persists it in `sessionStorage` under the server's CSRF state, and re-derives `fhirUser` from the ID token.
  - Rehydration reads the responses back from the `"state"` map when the provider starts.
- **Authorization request** (`Authorize`). Each part follows `useAuthorize`:
  - the 40-character nonce;
  - the read-modify-write of the `"state"` session object;
  - the authorization URL, with the parameters of section 4.3 of RFC 7636 and `code_challenge_method=S256` from section 4.2;
  - the PKCE verifier stored at mount;
  - the three-way status.
- **Refresh interceptor** (`FhirServerAxios`). It chooses the client and its context. It implements the refresh grant of section 6 of RFC 6749 and its outcomes, the expiry test with its 10-minute margin, and the commits. It sets the `Authorization` header exactly as written: in the source, line 84 overwrites line 74.
- **Callback error** (`ValidateAuthorization`): `error_description ?? error`.
- **Top-level gate** (`Home`): primary redirect, secondary redirect, user selection, patient selection, or the dashboard.
- **Cross-server patient linking** (`DualPatientProfile`, `PatientSummary`). Linking and unlinking edit the patient's `link` list in place. The secondary patient id is read back from the first matching `seealso` link, and the secondary panel is chosen from it.

The parts of the source that change state become imperative Dafny:
- `AuthStore.SetTokenResponse`;
- `RetrieveStoredTokenResponse` (a loop over the `"state"` keys);
- `CreateNonce` (a loop);
- `RequestAuthorization`;
- `Intercept`, which assigns the header twice;
- `LinkPatient`.

Each of these methods is proved against a pure function (`Commit`, `Rehydrated`, `InterceptAsWritten`, `LinkedList`, ...). The properties are lemmas about those functions.

Randomness, the clock, JWT decoding, JSON, HTTP and the encoders are parameters:
- `Math.random()` values are a `seq<real>` in `[0, 1)`;
- `Date.now()` is an `int` of milliseconds;
- `jwtDecode` with `IsValidIdToken` is a function `string -> IdTokenReading`, and `jwtDecode` of an access token is `string -> AccessTokenReading`;
- the token endpoint's behaviour is an `HttpReply`;
- `encodeURIComponent` and the form encoder of `URLSearchParams` are functions `string -> string`;
- `pkceChallenge()` is a `PkcePair`.

JSON in `sessionStorage` is typed. A stored value is raw text (never valid JSON), a serialized string map (the `"state"` object), or a serialized token response (possibly `null`). Each reader parses what it finds the way `JSON.parse` would:
- read as the `"state"` object, a token response gives the object of its string fields, and `null` gives `null`, so indexing it throws;
- read as a token response, a string map gives a response built from its `access_token`, `refresh_token` and `id_token` keys.

Three behaviours of the code differ from what its own comments and structure suggest. The model follows the code:
- `useAuthorize.ts:101` is commented "Authorization endpoint not found, return error", but only a `null` endpoint is an error: a read of the field that threw, or a field holding the JSON `null`. A discovery document without `authorization_endpoint` leaves the status at `loading`.
- `useFhirServerAxios.ts:74` sets the header to the refreshed token, and `useFhirServerAxios.ts:84` then overwrites it with the captured one. So a refreshed request carries the old token, and after a failed refresh it still carries the token the provider has just cleared.
- `fhirUser` is only set by the setter (`FhirServerContext.tsx:85-96`), never at mount, so it starts empty after a reload even when responses are rehydrated.

## Model

| member | source | states |
|---|---|---|
| FhirServerContext.AccessTokenOf | src/contexts/FhirServerContext.tsx:59 | the access token is the response's `access_token`, or `""` when there is no response |
| FhirServerContext.RefreshTokenOf | src/contexts/FhirServerContext.tsx:60 | the refresh token is the response's `refresh_token`, or `""` when the response or the field is absent |
| FhirServerContext.AuthStore.Context | src/contexts/FhirServerContext.tsx:51-61 | a server's context takes every field from that server's records, with `""`/null defaults; its tokens are projections of its response |
| FhirServerContext.AuthStore.Contexts | src/contexts/FhirServerContext.tsx:100-112 | there is always a context for the primary URL, and one for the secondary URL exactly when it is configured; each context's base URL is its key; the secondary wins a clash |
| FhirServerContext.AuthStore.SetTokenEndpoint | src/contexts/FhirServerContext.tsx:62-67 | only the endpoint of that server changes; responses and users are untouched |
| FhirServerContext.AuthStore.SetTokenResponse | src/contexts/FhirServerContext.tsx:68-97 | the new records, session and throw flag are exactly those of `Commit`; endpoints are untouched |
| FhirServerContext.ResourceIdentifier | src/contexts/FhirServerContext.tsx:121-129 | a result exists exactly when the claim contains a `/` |
| FhirServerContext.ResourceIdentifierOfPath | src/contexts/FhirServerContext.tsx:121-129 | `<prefix>/<type>/<id>` yields `<type>/<id>`, e.g. `.../Practitioner/123` gives `Practitioner/123` |
| FhirServerContext.ResourceIdentifierOfReference | src/contexts/FhirServerContext.tsx:121-129 | a claim already of the form `<type>/<id>` is returned unchanged |
| FhirServerContext.DerivedFhirUser | src/contexts/FhirServerContext.tsx:85-91 | null for a null response; if the ID token does not decode, the setter throws; `getResourceIdentifier(fhirUser)` when the token passes `IsValidIdToken`; null otherwise |
| FhirServerContext.PersistedEntries | src/contexts/FhirServerContext.tsx:75-83 | a non-empty CSRF state for the server receives the serialized response; the session is unchanged when `"state"` is missing or empty, or when the server has no non-empty state; a `"state"` entry that does not parse, or that parses to `null`, throws |
| FhirServerContext.Commit | src/contexts/FhirServerContext.tsx:68-97 | the response is recorded first; the setter throws exactly when the `"state"` lookup throws (unparsable or `null`) or the ID token does not decode; on a throw `fhirUser` is unchanged, otherwise it is re-derived |
| FhirServerContext.CommitIsolatesServers | src/contexts/FhirServerContext.tsx:68-96 | every other server's response and `fhirUser` are unchanged |
| FhirServerContext.CommitNullClears | src/contexts/FhirServerContext.tsx:68-96 | committing null clears the response and both tokens; `fhirUser` is null unless the `"state"` lookup throws |
| FhirServerContext.CommitKeepsStateMap | src/contexts/FhirServerContext.tsx:76-82 | a commit leaves the `"state"` map intact unless the CSRF state is the literal key `"state"`; then the map is replaced by the response, and the next lookup parses it as that response's object, or as `null` |
| FhirServerContext.CommitIdempotent | src/contexts/FhirServerContext.tsx:68-96 | committing the same response twice equals committing it once, when the CSRF state is not `"state"`, or the response is not null and the base URL names none of its fields |
| FhirServerContext.Rehydrated | src/contexts/FhirServerContext.tsx:131-144 | `{}` without `"state"`; otherwise the keys are a subset of the state map's, each present exactly when its CSRF key holds a non-empty value; each value is the stored value parsed as a response; a `"state"` entry that does not parse or parses to `null`, or a stored value that does not parse, makes it throw |
| FhirServerContext.PersistThenRehydrate | src/contexts/FhirServerContext.tsx:76-144 | a response the setter persisted is read back for that server after a reload; servers with another CSRF state read what they read before |
| FhirServerContext.RetrieveStoredTokenResponse | src/contexts/FhirServerContext.tsx:131-144 | the loop over the `"state"` keys computes `Rehydrated` of the session |
| FhirServerContext.MountProvider | src/contexts/FhirServerContext.tsx:42-48 | the provider starts with the rehydrated responses, and with no endpoint and no `fhirUser` for any server; it fails exactly when rehydration throws |
| SessionStorage.ReadState | src/contexts/FhirServerContext.tsx:76-78 | the `"state"` entry is absent or empty, an object (the parsed map or response), `null`, or unparsable, each case exactly for its kind of stored value |
| SessionStorage.ParseStateObject | src/contexts/FhirServerContext.tsx:78 | `JSON.parse` read as an object: raw text throws; `null` gives null; a state map gives itself; a token response gives the object of its string fields |
| SessionStorage.ParseTokenResponse | src/contexts/FhirServerContext.tsx:139 | `JSON.parse` read as a response: raw text throws; a serialized response or `null` gives itself; a string map gives the response its keys make |
| SessionStorage.SessionStore.GetItem | src/contexts/FhirServerContext.tsx:76 | `getItem` returns the stored value exactly when the key is present, and null otherwise |
| SessionStorage.SessionStore.SetItem | src/contexts/FhirServerContext.tsx:81 | `setItem` replaces the value of one key and keeps every other entry |
| Strings.Split | src/contexts/FhirServerContext.tsx:122 | `split` returns at least one part; its other guarantees are stated by `Strings.SplitParts` |
| Strings.Join | src/contexts/FhirServerContext.tsx:124 | `join`; `Strings.SplitParts` proves that joining the parts of a split gives the string back |
| Strings.SplitParts | src/contexts/FhirServerContext.tsx:122 | at least one part; no part contains the separator; joining restores the string; two or more parts exactly when the separator occurs |
| Strings.LastSegment | src/pages/PatientSummary/PatientTabs/DualPatientProfile.tsx:62 | `split("/").pop()` contains no `/` |
| Strings.LastSegmentOfAppend | src/pages/PatientSummary/PatientTabs/DualPatientProfile.tsx:62 | the last segment of `x + "/" + tail` is `tail` when `tail` has no `/` |
| Strings.SplitPrepend | src/hooks/useAuthorize.ts:79-87 | splitting `head + sep + x`, with no separator in `head`, gives `head` followed by the parts of `x` |
| Strings.SplitJoin | src/hooks/useAuthorize.ts:79-87 | splitting the join of a non-empty list of separator-free parts gives the parts back |
| SearchParams.QueryValueFirst | src/hooks/useValidateAuthorization.ts:3-4 | `get` returns the value of the first pair with the name |
| SearchParams.QueryValue | src/hooks/useValidateAuthorization.ts:3-4 | `get` returns null exactly when no pair has the name; a value it returns belongs to a pair with that name |
| SearchParams.SerializeQuery | src/hooks/useAuthorize.ts:79-87 | `toString` is empty exactly for the empty query; its structure is stated by `SerializeQueryIsJoin` and `SerializeQuerySplits` |
| SearchParams.SerializeQueryIsJoin | src/hooks/useAuthorize.ts:79-87 | the serialization is the `name=value` strings of the pairs, in order, joined by `&` |
| SearchParams.SerializeQuerySplits | src/hooks/useAuthorize.ts:79-87 | when the encoding never yields `&`, splitting a non-empty serialization on `&` gives back exactly one `name=value` string per pair, in order |
| SearchParams.QueryValueIgnoresOtherNames | src/hooks/useValidateAuthorization.ts:2-4 | a pair with another name, inserted anywhere, does not change `get` |
| Authorize.PossibleCharsAreTheAlphanumerics | src/hooks/useAuthorize.ts:116-117 | the alphabet has 62 characters, all alphanumeric, none repeated; every ASCII letter or digit occurs in it |
| Authorize.DrawIndex | src/hooks/useAuthorize.ts:121-123 | `Math.floor(Math.random() * 62)` is a valid alphabet index |
| Authorize.CreateNonce | src/hooks/useAuthorize.ts:115-127 | exactly 40 characters; the k-th is the alphabet character the k-th random draw picks, so every one is alphanumeric |
| Authorize.DistinctDrawsGiveDistinctNonces | src/hooks/useAuthorize.ts:115-127 | draws that differ at one position give different nonces |
| Authorize.AuthorizationEndpoint | src/hooks/useAuthorize.ts:29-40 | `""` before the configuration loads; null exactly when reading the field throws or the field is the JSON `null`; undefined exactly when the field is absent; otherwise the field |
| Authorize.Status | src/hooks/useAuthorize.ts:101-112 | `error` exactly for a null endpoint; else `complete` exactly when not enabled; else `loading` |
| Authorize.StatusErrorOnlyForNullEndpoint | src/hooks/useAuthorize.ts:101-112 | `error` exactly when the configuration is unreadable or its field is `null`; a document without the endpoint leaves an enabled request `loading` |
| Authorize.StatusCorrected | src/hooks/useAuthorize.ts:101-104 | corrected status: `error` for a null or undefined endpoint, otherwise the status as written; its properties are stated by `Authorize.StatusCorrectedReportsMissingEndpoint` |
| Authorize.StatusCorrectedReportsMissingEndpoint | src/hooks/useAuthorize.ts:101-104 | corrected: `error` exactly when the configuration is unreadable or its field is not a string, so a missing endpoint is also an `error`; other statuses are unchanged |
| Authorize.StoredStates | src/hooks/useAuthorize.ts:63-68 | the parsed `"state"` object; `{}` when it is missing or unparsable; null exactly when the entry is the JSON `null` |
| Authorize.MergedStates | src/hooks/useAuthorize.ts:63-70 | throws exactly when the stored object is `null` (line 69 is outside the `try`); otherwise `aud` maps to the new nonce, every other stored key keeps its value, and no other key is added |
| Authorize.BuildAuthorizationUrl | src/hooks/useAuthorize.ts:76-89 | the redirect target as endpoint, query pairs and encoded scope; its properties are stated by `Authorize.AuthorizationUrlParameters` |
| Authorize.Href | src/hooks/useAuthorize.ts:76-89 | the string assigned to `window.location.href`: endpoint, `?`, the form-encoded pairs, `&scope=` and the encoded scope |
| Authorize.AuthorizationUrlParameters | src/hooks/useAuthorize.ts:76-89 | the URL has the endpoint, then exactly seven parameters in the source's order, with the given values and `code_challenge_method=S256`; `scope` is not among them but travels separately, encoded |
| Authorize.RequestParameterValues | src/hooks/useAuthorize.ts:79-87 | `get` on a query with the request's seven names in order returns each pair's value, and null for `scope` |
| Authorize.RedirectStateMatchesStoredState | src/hooks/useAuthorize.ts:60-84 | whenever the merge succeeds, the `state` parameter equals the value now stored under `aud`, and other servers' states survive |
| Authorize.GeneratePkceAtMount | src/hooks/useAuthorize.ts:44-51 | when enabled, the challenge is kept and the verifier is stored under `"code_verifier"`; otherwise nothing changes |
| Authorize.RequestAuthorization | src/hooks/useAuthorize.ts:54-90 | each time the effect runs: a redirect happens exactly when enabled, with a challenge and a non-empty endpoint, and a stored `"state"` that is not `null`; then the nonce has 40 characters, the k-th being the alphabet character the k-th draw picks, the state map is merged and the target is the built URL; with a `null` `"state"` it throws; otherwise the session is unchanged |
| FhirServerAxios.RefreshRequest | src/hooks/useFhirServerAxios.ts:15-22 | the refresh POST; its properties are stated by `FhirServerAxios.RefreshRequestParameters` |
| FhirServerAxios.RefreshRequestParameters | src/hooks/useFhirServerAxios.ts:15-22 | the POST goes to the token endpoint with `grant_type=refresh_token`, the refresh token and the client id |
| FhirServerAxios.RefreshAccessToken | src/hooks/useFhirServerAxios.ts:24-35 | it throws on a network error, a non-ok status or a non-JSON body; it returns the body exactly when it is a token response, and null otherwise |
| FhirServerAxios.RefreshDue | src/hooks/useFhirServerAxios.ts:62-64 | `exp` is present and non-zero, and `exp * 1000 - 600000` is before now; its properties are stated by `FhirServerAxios.RefreshDueMonotonic` |
| FhirServerAxios.RefreshDueMonotonic | src/hooks/useFhirServerAxios.ts:62-64 | a due token stays due as time passes; one expiring 10 minutes or more after now is not due; `exp` absent or 0 is never due |
| FhirServerAxios.UseAxios | src/hooks/useFhirServerAxios.ts:38-44 | the URL defaults to the source server's; no client without a context; the secondary client id is used exactly for the secondary base URL |
| FhirServerAxios.UseAxiosOnConfiguredServer | src/hooks/useFhirServerAxios.ts:40-50 | a configured server always gets a client, whose context belongs to that same server |
| FhirServerAxios.Settle | src/hooks/useFhirServerAxios.ts:65-79 | the sequel of a refresh: commit a valid response; on a throw commit null; a null result commits nothing; its properties are stated by `FhirServerAxios.RefreshCommits` |
| FhirServerAxios.InterceptAsWritten | src/hooks/useFhirServerAxios.ts:57-88 | one pass of the interceptor as written; its properties are stated by `NoTokenNoChange`, `RefreshExactlyWhenDue`, `HeaderIsCapturedToken` and the two counterexamples, and `Intercept` is proved equal to it |
| FhirServerAxios.NoTokenNoChange | src/hooks/useFhirServerAxios.ts:58-88 | with no access token: no refresh, no commit, no header |
| FhirServerAxios.RefreshExactlyWhenDue | src/hooks/useFhirServerAxios.ts:58-70 | a refresh is sent exactly when the token decodes and `exp` is due, and it is the refresh grant for the captured tokens; without one the records are unchanged |
| FhirServerAxios.HeaderIsCapturedToken | src/hooks/useFhirServerAxios.ts:72-84 | whenever the request proceeds with a token, the header is `Bearer` plus the captured token, whatever the refresh did |
| FhirServerAxios.RefreshCommits | src/hooks/useFhirServerAxios.ts:65-79 | a null result commits nothing and the request goes on; a valid response whose commit does not throw is committed and the request goes on; a throw commits null, and the request goes on exactly when the `"state"` lookup does not throw; with a throwing lookup a valid response ends rejected; a response whose ID token does not decode ends with null committed and no `fhirUser`, the request going on, whenever the lookup does not throw |
| FhirServerAxios.StaleHeaderAfterRefresh | src/hooks/useFhirServerAxios.ts:72-84 | counterexample: the store holds the new token, but the header carries the old one |
| FhirServerAxios.StaleHeaderAfterFailedRefresh | src/hooks/useFhirServerAxios.ts:76-84 | counterexample: a refused refresh clears the auth state, but the header carries the old token, here already expired (`exp` 1 s, now 2 s) |
| FhirServerAxios.InterceptCorrected | src/hooks/useFhirServerAxios.ts:72-84 | corrected interceptor: the header is the refreshed token after a commit, none after a clearing refresh, otherwise as written; its properties are stated by the two `Corrected...` lemmas |
| FhirServerAxios.CorrectedHeaderCarriesNewToken | src/hooks/useFhirServerAxios.ts:72-84 | corrected: a due token whose refresh returns a response that commits cleanly is replaced by the new one, in the header and in the store, where the as-written header keeps the old one; after any committed refresh the header is the token the store holds; otherwise only the header can differ from the as-written pass |
| FhirServerAxios.CorrectedHeaderDropsClearedToken | src/hooks/useFhirServerAxios.ts:76-84 | corrected: after a clearing refresh no header is sent |
| FhirServerAxios.Intercept | src/hooks/useFhirServerAxios.ts:56-91 | the interceptor's outcome, commits and final headers are those of `InterceptAsWritten`; token endpoints are untouched |
| ValidateAuthorization.AuthorizationError | src/hooks/useValidateAuthorization.ts:3-6 | a present description is returned, even an empty one; without one the error is returned; null exactly when neither is present |
| ValidateAuthorization.DescriptionPreferred | src/hooks/useValidateAuthorization.ts:4-6 | the first `error_description` wins over any `error` |
| ValidateAuthorization.OtherParametersIgnored | src/hooks/useValidateAuthorization.ts:2-6 | parameters other than `error` and `error_description` never change the result |
| Home.Gate | src/layout/Home.tsx:25-53 | the primary redirect comes first; the secondary redirect only without it and with all four conditions; then user selection, patient selection and dashboard, each exactly under its condition |
| Home.IsPractitioner | src/layout/Home.tsx:42-43 | `fhirUser` is truthy and starts with `Practitioner`; used by `Home.Gate` and `Home.PractitionerSkipsUserSelection` |
| Home.OtherGrantFallsThrough | src/layout/Home.tsx:25-31 | without the code grant a missing token falls through, as if no auth were required |
| Home.PractitionerSkipsUserSelection | src/layout/Home.tsx:42-53 | a `Practitioner/...` user never sees user selection, and reaches the dashboard with a patient when no redirect fires |
| Home.FreshProviderAsksForUser | src/layout/Home.tsx:42-46 | right after mount, with no launch user, the gate asks for a user even when no redirect fires |
| DualPatientProfile.SecondaryUrl | src/pages/PatientSummary/PatientTabs/DualPatientProfile.tsx:17 | the configured secondary URL, or `""` |
| DualPatientProfile.SecondaryAuthMissing | src/pages/PatientSummary/PatientTabs/DualPatientProfile.tsx:21-24 | a non-empty secondary URL whose context requires auth and has no access token; stated against the provider by `SecondaryAuthMissingForConfiguredServer` |
| DualPatientProfile.SecondaryAuthMissingForConfiguredServer | src/pages/PatientSummary/PatientTabs/DualPatientProfile.tsx:21-24 | against the provider's contexts: auth is missing exactly when the secondary server requires auth and lacks an access token |
| DualPatientProfile.FindMatch | src/pages/PatientSummary/PatientTabs/DualPatientProfile.tsx:54-59 | none exactly when no link matches; otherwise a matching link with no match before it |
| DualPatientProfile.FindMatchAt | src/pages/PatientSummary/PatientTabs/DualPatientProfile.tsx:54-59 | the find returns the first matching link |
| DualPatientProfile.SecondaryIdFromLinks | src/pages/PatientSummary/PatientTabs/DualPatientProfile.tsx:52-64 | undefined without links or without a match; otherwise the last `/` segment of the first match's reference |
| DualPatientProfile.SecondaryPatientId | src/pages/PatientSummary/PatientTabs/DualPatientProfile.tsx:52-64 | undefined without a patient or a URL; otherwise read from the links; never contains `/` |
| DualPatientProfile.NewLink | src/pages/PatientSummary/PatientTabs/DualPatientProfile.tsx:33-39 | a `seealso` `Patient` link referencing `url + "/Patient/" + id` |
| DualPatientProfile.Unlinked | src/pages/PatientSummary/PatientTabs/DualPatientProfile.tsx:42-47 | exactly the links that are not `seealso` `Patient` links survive |
| DualPatientProfile.UnlinkedDistributes | src/pages/PatientSummary/PatientTabs/DualPatientProfile.tsx:43-45 | the filter distributes over concatenation, so surviving links keep their order |
| DualPatientProfile.UnlinkedIdempotent | src/pages/PatientSummary/PatientTabs/DualPatientProfile.tsx:43-45 | unlinking twice is unlinking once; unlinking undoes a link just appended |
| DualPatientProfile.LinkedList | src/pages/PatientSummary/PatientTabs/DualPatientProfile.tsx:28-50 | a truthy id appends exactly one link at the end, creating the list if absent; otherwise a present list is filtered and an absent one stays absent |
| DualPatientProfile.LinkPatient | src/pages/PatientSummary/PatientTabs/DualPatientProfile.tsx:27-50 | the patient's `link` becomes `LinkedList` of the old one; with no patient nothing happens; the patient is passed to `updatePatient` exactly when it was edited |
| DualPatientProfile.LinkThenExtract | src/pages/PatientSummary/PatientTabs/DualPatientProfile.tsx:37-62 | round trip: linking `id` and then reading gives `id`, when the URL is non-empty, no match came before and `id` has no `/` |
| DualPatientProfile.RelinkKeepsEarlierMatch | src/pages/PatientSummary/PatientTabs/DualPatientProfile.tsx:54-62 | an earlier match hides a newly appended link |
| DualPatientProfile.UnlinkThenExtract | src/pages/PatientSummary/PatientTabs/DualPatientProfile.tsx:43-62 | after an unlink the secondary id is undefined |
| DualPatientProfile.DualProfileView | src/pages/PatientSummary/PatientTabs/DualPatientProfile.tsx:70-98 | the connect button appears exactly when auth is missing; the secondary column appears only with a URL and auth, showing the linked patient when an id was found and the selection list otherwise |
| PatientSummary.SummaryPanel | src/pages/PatientSummary/PatientSummary.tsx:12-37 | no panel without a secondary URL; details exactly when an id was found; otherwise the selection list |
| PatientSummary.SummaryFollowsLinking | src/pages/PatientSummary/PatientSummary.tsx:12-37 | after a link the summary shows that patient's details; after an unlink it shows the selection list |

## Left out

- React machinery is not modelled: state updaters run immediately here, not batched; effects run when called; rendering, context propagation and re-running on dependency changes are absent.
- The refresh interceptor's concurrency is not modelled. Two requests refreshing at once are not sequential logic. `Intercept` runs one request to completion.
- `Intercept`'s commits apply to the store's current records. The interceptor itself closed over the context of an earlier render (`captured`), so the old token, refresh token and endpoint come from there.
- The code exchange (`RedirectToAuthCallback`), `useSmartConfiguration`, `useSourceFhirServer`, `useLauncherQuery`, `useLoadResources`, `useConfig`, `src/utils/misc.ts`, `src/globals.ts` and `src/utils/oauth.ts` are not part of this model. What they supply enters as parameters: the discovery reading, the source-server URL, the launch user and patient, the configuration, the base URLs, the grant types and the client ids.
- JSON is typed, not parsed. A stored entry is text (never valid JSON), a string map, or a token response or `null`. A JSON number or string, or a map whose values are not strings, is not modelled.
- A token response carries only `access_token`, `refresh_token` and `id_token`. Read as the `"state"` object it has only those keys, so `Object.keys` at rehydration and `stateKeys[baseUrl]` in the setter see no `token_type`, `expires_in` or `scope`.
- A string map read as a token response gives `""` for a missing `access_token` or `id_token`, where the source has `undefined`. The access token reads the same (`?? ""`), and `jwtDecode` rejects both.
- `JSON.stringify` of the state map and `JSON.parse` of a stored response are identities on these typed values.
- `jwtDecode`, `IsValidIdToken`, `responseIsTokenResponse`, `pkceChallenge`, SHA-256, `encodeURIComponent` and the form encoding of `URLSearchParams` are oracles, passed as parameters.
- `fetch` is modelled by its outcome: a network error, or a reply with an ok flag, a status and a body.
- `console.error` logging and the text of the refresh error message are left out.
- `Math.random()` values are exact reals in `[0, 1)`. Floating-point rounding of `random * 62` is not modelled.
- `exp * 1000 - 600000 < Date.now()` is computed on unbounded integers. JavaScript computes it on doubles, which is exact for realistic `exp` values; a non-integer or `NaN` `exp` is not modelled.
- The authorization URL is a structured value: the endpoint, the decoded query pairs in order, and the encoded scope. `Href` gives the string through the supplied encoders.
- `window.location.href` is the method's `href` output. Navigation itself is not modelled.
- `updatePatient` is an opaque callback. `LinkPatient` reports whether it was called.
- FHIR resources are reduced to `Patient.link`, with each entry's `type` and its `other` reference's `type` and `reference`.
- The axios instance's `baseURL` and its request pipeline are not modelled. The rejection handler at line 90 only passes an earlier error on, as a rejected request.
- The display tabs, data tables, `usePatientDetails`, sidebar and header components, `PatientContext`, `useSupportQuestionnaireContext`, `main.tsx` and `vite.config.ts` are presentation or fetch wrappers and are left out.
- FhirServerContext.CommitIdempotent: not stated when the CSRF state is the literal `"state"` and the response is null, or the base URL is one of the response's field names. The first commit then replaces the state map by the response. Next, `stateKeys[baseUrl]` either indexes `null` and throws, or finds a token and writes under it.
- Home.Gate: requires a context for the primary URL. Without one, destructuring it at `Home.tsx:14` throws a `TypeError`, which is not modelled. The provider always supplies that context (`FhirServerContext.AuthStore.Contexts`), and `Home.FreshProviderAsksForUser` runs the gate on the provider's own contexts.
- The `enabled = true` default of `useAuthorize.ts:23` is not modelled: `AuthorizeProps.enabled` is always given.
- The redirect effect's dependency list (`useAuthorize.ts:91-99`) omits `pkceCodeChallenge`. A challenge that resolves after the other dependencies settle does not re-run the effect in the source. `RequestAuthorization` describes one run of the effect, not when React runs it.

## Findings

| source | as written | input that shows it | evidently intended | confidence | as-written member | corrected member |
|---|---|---|---|---|---|---|
| src/hooks/useFhirServerAxios.ts:72-84 | line 84 overwrites the header set at line 74 with the captured token | `exp = 1`, now `0`, the refresh returns `access_token "new"` with an ID token whose payload is `{}`, so the commit succeeds: the store holds `new`, the header is `Bearer old` | the refreshed token is used for this request | not executed | FhirServerAxios.StaleHeaderAfterRefresh | FhirServerAxios.CorrectedHeaderCarriesNewToken |
| src/hooks/useFhirServerAxios.ts:76-84 | after a failed refresh commits `null`, line 84 still sets the captured token | `exp = 1` s, now `2000` ms, so the token has expired; the token endpoint answers 400: the response is cleared, the header is `Bearer old` | the captured token is not sent once auth is cleared | not executed | FhirServerAxios.StaleHeaderAfterFailedRefresh | FhirServerAxios.CorrectedHeaderDropsClearedToken |
| src/hooks/useAuthorize.ts:101-104 | only a `null` endpoint (the field read threw, or the field is the JSON `null`) is an error; a document without `authorization_endpoint` gives `undefined` | an enabled request with a loaded configuration lacking the field stays `loading` | "Authorization endpoint not found" is an error | not executed | Authorize.StatusErrorOnlyForNullEndpoint | Authorize.StatusCorrectedReportsMissingEndpoint |
