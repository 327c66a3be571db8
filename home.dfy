/**
 * `Home`: the top-level gate. In order, it redirects to the primary
 * server's authorization, then to the secondary server's, then asks for a
 * user, then for a patient, and otherwise shows the dashboard.
 */
module Home {
  import opened Wrappers
  import opened Strings
  import opened FhirServerContext

  /** The grant type for which the gate starts an authorization redirect. */
  const AuthorizationCodeGrant := "authorization_code"

  /** The build-time settings the gate reads (`AUTH_REQUIRED`, `OAUTH`, their secondary twins, the base URLs). */
  datatype GateConfig = GateConfig(
    authRequired: bool,
    grantType: string,
    authRequiredSecondary: bool,
    secondaryGrantType: string,
    primaryUrl: string,
    secondaryUrl: string
  )

  /** What `Home` renders. */
  datatype Screen =
    | PrimaryAuthCallback(baseUrl: string)
    | SecondaryAuthCallback(baseUrl: string)
    | UserSelection
    | PatientSelection
    | Dashboard

  /** Lines 25-29. */
  predicate PrimaryRedirects(cfg: GateConfig, contexts: map<string, ServerContext>)
    requires cfg.primaryUrl in contexts
  {
    cfg.authRequired && contexts[cfg.primaryUrl].accessToken == "" && cfg.grantType == AuthorizationCodeGrant
  }

  /** Lines 33-37: the secondary context exists, needs auth, has no token, and uses the code grant. */
  predicate SecondaryRedirects(cfg: GateConfig, contexts: map<string, ServerContext>) {
    && cfg.secondaryUrl in contexts
    && cfg.authRequiredSecondary
    && contexts[cfg.secondaryUrl].accessToken == ""
    && cfg.secondaryGrantType == AuthorizationCodeGrant
  }

  /** Lines 42-43: `fhirUser && fhirUser.startsWith("Practitioner")`. */
  predicate IsPractitioner(fhirUser: Option<string>) {
    TruthyOpt(fhirUser) && StartsWith(fhirUser.value, "Practitioner")
  }

  /** Lines 44-46: a user is established by the launch context or by a practitioner `fhirUser`. */
  predicate UserEstablished(launchUser: Option<string>, fhirUser: Option<string>) {
    TruthyOpt(launchUser) || IsPractitioner(fhirUser)
  }

  /** Lines 12-54. The primary context is read unguarded, so it must exist. */
  function Gate(cfg: GateConfig, contexts: map<string, ServerContext>,
                launchUser: Option<string>, launchPatient: Option<string>): (screen: Screen)
    requires cfg.primaryUrl in contexts
    ensures screen.PrimaryAuthCallback? <==> PrimaryRedirects(cfg, contexts)
    ensures screen.SecondaryAuthCallback? <==> !PrimaryRedirects(cfg, contexts) && SecondaryRedirects(cfg, contexts)
    ensures screen.PrimaryAuthCallback? ==> screen.baseUrl == cfg.primaryUrl
    ensures screen.SecondaryAuthCallback? ==> screen.baseUrl == cfg.secondaryUrl
    ensures screen == UserSelection <==>
      !PrimaryRedirects(cfg, contexts) && !SecondaryRedirects(cfg, contexts)
      && !UserEstablished(launchUser, contexts[cfg.primaryUrl].fhirUser)
    ensures screen == PatientSelection <==>
      !PrimaryRedirects(cfg, contexts) && !SecondaryRedirects(cfg, contexts)
      && UserEstablished(launchUser, contexts[cfg.primaryUrl].fhirUser) && !TruthyOpt(launchPatient)
    ensures screen == Dashboard <==>
      !PrimaryRedirects(cfg, contexts) && !SecondaryRedirects(cfg, contexts)
      && UserEstablished(launchUser, contexts[cfg.primaryUrl].fhirUser) && TruthyOpt(launchPatient)
  {
    var primary := contexts[cfg.primaryUrl];
    if cfg.authRequired && primary.accessToken == "" && cfg.grantType == AuthorizationCodeGrant then
      PrimaryAuthCallback(cfg.primaryUrl)
    else if cfg.secondaryUrl in contexts && cfg.authRequiredSecondary && contexts[cfg.secondaryUrl].accessToken == ""
            && cfg.secondaryGrantType == AuthorizationCodeGrant then
      SecondaryAuthCallback(cfg.secondaryUrl)
    else if !TruthyOpt(launchUser) && !IsPractitioner(primary.fhirUser) then
      UserSelection
    else if !TruthyOpt(launchPatient) then
      PatientSelection
    else
      Dashboard
  }

  /**
   * Without the code grant a missing primary token does not stop the gate:
   * it decides as if no auth were required.
   */
  lemma OtherGrantFallsThrough(cfg: GateConfig, contexts: map<string, ServerContext>,
                               launchUser: Option<string>, launchPatient: Option<string>)
    requires cfg.primaryUrl in contexts && cfg.grantType != AuthorizationCodeGrant
    ensures Gate(cfg, contexts, launchUser, launchPatient) == Gate(cfg.(authRequired := false), contexts, launchUser, launchPatient)
    ensures Gate(cfg, contexts, launchUser, launchPatient) != PrimaryAuthCallback(cfg.primaryUrl)
  {
  }

  /** A `Practitioner/...` user is never sent to user selection, and needs only a patient for the dashboard. */
  lemma PractitionerSkipsUserSelection(cfg: GateConfig, contexts: map<string, ServerContext>,
                                       launchUser: Option<string>, launchPatient: Option<string>, id: string)
    requires cfg.primaryUrl in contexts
    requires contexts[cfg.primaryUrl].fhirUser == Some("Practitioner/" + id)
    ensures Gate(cfg, contexts, launchUser, launchPatient) != UserSelection
    ensures !PrimaryRedirects(cfg, contexts) && !SecondaryRedirects(cfg, contexts) && TruthyOpt(launchPatient) ==>
      Gate(cfg, contexts, launchUser, launchPatient) == Dashboard
  {
    var user := "Practitioner/" + id;
    assert user[..|"Practitioner"|] == "Practitioner";
  }

  /**
   * Right after the provider mounts no server has a `fhirUser`, so without
   * a launch user the gate asks for a user even when rehydrated tokens make
   * every redirect unnecessary.
   */
  lemma FreshProviderAsksForUser(store: AuthStore, config: AppConfig, cfg: GateConfig, launchPatient: Option<string>)
    requires cfg.primaryUrl == config.fhirServerUrl
    requires forall u, a :: store.Context(u, a).fhirUser == None
    requires !PrimaryRedirects(cfg, store.Contexts(config)) && !SecondaryRedirects(cfg, store.Contexts(config))
    ensures Gate(cfg, store.Contexts(config), None, launchPatient) == UserSelection
  {
    var contexts := store.Contexts(config);
    var u := cfg.primaryUrl;
    if config.secondaryFhirServer.Some? && config.secondaryFhirServer.value.fhirServerUrl == u {
      assert contexts[u] == store.Context(u, config.secondaryFhirServer.value.authRequired);
    } else {
      assert contexts[u] == store.Context(u, config.authRequired);
    }
  }
}
