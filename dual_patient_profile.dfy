/**
 * `DualPatientProfile`: the patient's `seealso` link to a patient on the
 * secondary server. Linking appends such a link, unlinking filters every
 * `seealso` patient link out, and the secondary patient id is read back
 * from the first matching link.
 */
module DualPatientProfile {
  import opened Wrappers
  import opened Strings
  import opened FhirServerContext

  /** A FHIR `Reference`, reduced to `type` and `reference`. */
  datatype Reference = Reference(kind: Option<string>, reference: Option<string>)

  /** An entry of `Patient.link`: its `type` code and the `other` reference. */
  datatype PatientLink = PatientLink(kind: string, other: Reference)

  /** The selected FHIR Patient; `linkPatient` edits its `link` list in place. */
  class Patient {
    var link: Option<seq<PatientLink>>

    constructor (link: Option<seq<PatientLink>>)
      ensures this.link == link
    {
      this.link := link;
    }
  }

  /** `secondaryFhirServer?.fhirServerUrl || ""` */
  function SecondaryUrl(secondary: Option<ServerConfig>): (url: string)
    ensures secondary.None? ==> url == ""
    ensures secondary.Some? ==> url == secondary.value.fhirServerUrl
  {
    if secondary.Some? then secondary.value.fhirServerUrl else ""
  }

  /** Lines 21-24: the secondary server is configured, needs auth and has no token. */
  predicate SecondaryAuthMissing(url: string, contexts: map<string, ServerContext>) {
    url != "" && url in contexts && contexts[url].authRequired && contexts[url].accessToken == ""
  }

  /**
   * Against the provider's contexts, auth is missing exactly when the
   * secondary server requires auth and holds no access token.
   */
  lemma SecondaryAuthMissingForConfiguredServer(store: AuthStore, config: AppConfig)
    requires config.secondaryFhirServer.Some? && config.secondaryFhirServer.value.fhirServerUrl != ""
    ensures var sec := config.secondaryFhirServer.value;
      var response := if sec.fhirServerUrl in store.tokenResponses then store.tokenResponses[sec.fhirServerUrl] else None;
      SecondaryAuthMissing(sec.fhirServerUrl, store.Contexts(config)) <==> sec.authRequired && AccessTokenOf(response) == ""
  {
  }

  /** A `seealso` link to a `Patient`: the links unlinking removes. */
  predicate IsSeeAlsoPatient(l: PatientLink) {
    l.kind == "seealso" && l.other.kind == Some("Patient")
  }

  /** Lines 54-58: a `seealso` patient link whose reference starts with the secondary URL. */
  predicate MatchesServer(l: PatientLink, url: string) {
    IsSeeAlsoPatient(l) && l.other.reference.Some? && StartsWith(l.other.reference.value, url)
  }

  /** `link.find(...)`: the first link matching the secondary server. */
  function FindMatch(links: seq<PatientLink>, url: string): (found: Option<PatientLink>)
    ensures found.None? <==> forall i :: 0 <= i < |links| ==> !MatchesServer(links[i], url)
    ensures found.Some? ==> exists i :: 0 <= i < |links| && links[i] == found.value
                                        && MatchesServer(links[i], url)
                                        && forall j :: 0 <= j < i ==> !MatchesServer(links[j], url)
  {
    if |links| == 0 then None
    else if MatchesServer(links[0], url) then Some(links[0])
    else
      var found := FindMatch(links[1..], url);
      assert forall i :: 1 <= i < |links| ==> links[i] == links[1..][i - 1];
      if found.Some? then
        var k :| 0 <= k < |links[1..]| && links[1..][k] == found.value && MatchesServer(links[1..][k], url)
                 && forall j :: 0 <= j < k ==> !MatchesServer(links[1..][j], url);
        assert links[k + 1] == found.value;
        found
      else found
  }

  /** Lines 52-64 on the link list: the last `/` segment of the first matching reference. */
  function SecondaryIdFromLinks(links: Option<seq<PatientLink>>, url: string): (id: Option<string>)
    ensures links.None? ==> id.None?
    ensures links.Some? ==> (id.None? <==> FindMatch(links.value, url).None?)
    ensures id.Some? ==> id.value == LastSegment(FindMatch(links.value, url).value.other.reference.value)
  {
    if links.None? then None
    else match FindMatch(links.value, url)
      case None => None
      case Some(l) => Some(LastSegment(l.other.reference.value))
  }

  /** Lines 52-64: undefined without a patient or a secondary URL, else read from the links. */
  function SecondaryPatientId(selected: Patient?, url: string): (id: Option<string>)
    reads selected
    ensures selected == null || url == "" ==> id.None?
    ensures selected != null && url != "" ==> id == SecondaryIdFromLinks(selected.link, url)
    ensures id.Some? ==> '/' !in id.value
  {
    if selected != null && url != "" then SecondaryIdFromLinks(selected.link, url) else None
  }

  /** Lines 33-39: the link `linkPatient(id)` appends. */
  function NewLink(url: string, id: string): (l: PatientLink)
    ensures IsSeeAlsoPatient(l)
    ensures l.other.reference == Some(url + "/Patient/" + id)
  {
    PatientLink("seealso", Reference(Some("Patient"), Some(url + "/Patient/" + id)))
  }

  /** Lines 43-45: `link.filter(l => l.type !== "seealso" || l.other.type !== "Patient")`. */
  function Unlinked(links: seq<PatientLink>): (kept: seq<PatientLink>)
    ensures |kept| <= |links|
    ensures forall l :: l in kept <==> l in links && !IsSeeAlsoPatient(l)
  {
    if |links| == 0 then []
    else if IsSeeAlsoPatient(links[0]) then Unlinked(links[1..])
    else [links[0]] + Unlinked(links[1..])
  }

  /** Filtering works link by link: it distributes over concatenation, so the kept links stay in their order. */
  lemma {:induction false} UnlinkedDistributes(a: seq<PatientLink>, b: seq<PatientLink>)
    ensures Unlinked(a + b) == Unlinked(a) + Unlinked(b)
  {
    if |a| == 0 {
      assert a + b == b;
    } else {
      var rest := a[1..] + b;
      assert (a + b)[0] == a[0] && (a + b)[1..] == rest;
      UnlinkedDistributes(a[1..], b);
      if IsSeeAlsoPatient(a[0]) {
        calc {
          Unlinked(a + b);
          Unlinked(rest);
          Unlinked(a[1..]) + Unlinked(b);
          Unlinked(a) + Unlinked(b);
        }
      } else {
        calc {
          Unlinked(a + b);
          [a[0]] + Unlinked(rest);
          [a[0]] + (Unlinked(a[1..]) + Unlinked(b));
          ([a[0]] + Unlinked(a[1..])) + Unlinked(b);
          Unlinked(a) + Unlinked(b);
        }
      }
    }
  }

  /** Unlinking twice is unlinking once, and undoes a link just appended. */
  lemma {:induction false} UnlinkedIdempotent(links: seq<PatientLink>, url: string, id: string)
    ensures Unlinked(Unlinked(links)) == Unlinked(links)
    ensures Unlinked(links + [NewLink(url, id)]) == Unlinked(links)
  {
    if |links| > 0 {
      UnlinkedIdempotent(links[1..], url, id);
      if !IsSeeAlsoPatient(links[0]) {
        assert ([links[0]] + Unlinked(links[1..]))[1..] == Unlinked(links[1..]);
      }
    }
    UnlinkedDistributes(links, [NewLink(url, id)]);
    assert Unlinked([NewLink(url, id)]) == [];
  }

  /**
   * The `selectedPatient.link` `linkPatient` leaves: a truthy `id` appends
   * one link, creating the list if needed; otherwise an existing list is
   * filtered and a missing one stays missing.
   */
  function LinkedList(links: Option<seq<PatientLink>>, url: string, id: Option<string>): (after: Option<seq<PatientLink>>)
    ensures TruthyOpt(id) ==> after == Some(links.GetOr([]) + [NewLink(url, id.value)])
    ensures !TruthyOpt(id) && links.None? ==> after.None?
    ensures !TruthyOpt(id) && links.Some? ==> after == Some(Unlinked(links.value))
  {
    if TruthyOpt(id) then Some(links.GetOr([]) + [NewLink(url, id.value)])
    else if links.Some? then Some(Unlinked(links.value))
    else links
  }

  /**
   * Lines 28-50. `updated` says whether `updatePatient` (an opaque callback,
   * not part of this model) was called with the edited patient.
   */
  method LinkPatient(selected: Patient?, url: string, id: Option<string>) returns (updated: bool)
    modifies selected
    ensures selected != null ==> selected.link == LinkedList(old(selected.link), url, id)
    ensures updated <==> selected != null && (TruthyOpt(id) || old(selected.link).Some?)
  {
    updated := false;
    if selected != null {
      if TruthyOpt(id) {
        if selected.link.None? {
          selected.link := Some([]);
        }
        selected.link := Some(selected.link.value + [NewLink(url, id.value)]);
        updated := true;
      } else {
        if selected.link.Some? {
          selected.link := Some(Unlinked(selected.link.value));
          updated := true;
        }
      }
    }
  }

  /**
   * Round trip: with a secondary URL, no earlier matching link and an id
   * without `/`, linking the id and reading the secondary id gives it back.
   */
  lemma LinkThenExtract(links: Option<seq<PatientLink>>, url: string, id: string)
    requires url != "" && id != "" && '/' !in id
    requires links.Some? ==> FindMatch(links.value, url).None?
    ensures SecondaryIdFromLinks(LinkedList(links, url, Some(id)), url) == Some(id)
  {
    var before := links.GetOr([]);
    var after := before + [NewLink(url, id)];
    assert forall i :: 0 <= i < |before| ==> after[i] == before[i];
    var reference := url + "/Patient/" + id;
    assert reference == (url + "/Patient") + "/" + id;
    assert reference[..|url|] == url;
    assert MatchesServer(after[|before|], url);
    assert FindMatch(after, url) == Some(NewLink(url, id));
    LastSegmentOfAppend(url + "/Patient", id);
  }

  /** An earlier matching link hides a new one: linking again leaves the extracted id unchanged. */
  lemma RelinkKeepsEarlierMatch(links: seq<PatientLink>, url: string, id: string)
    requires FindMatch(links, url).Some? && id != ""
    ensures SecondaryIdFromLinks(LinkedList(Some(links), url, Some(id)), url) == SecondaryIdFromLinks(Some(links), url)
  {
    var after := links + [NewLink(url, id)];
    assert forall i :: 0 <= i < |links| ==> after[i] == links[i];
    var k :| 0 <= k < |links| && links[k] == FindMatch(links, url).value && MatchesServer(links[k], url)
             && forall j :: 0 <= j < k ==> !MatchesServer(links[j], url);
    FindMatchAt(after, k, url);
  }

  /** The find returns the link at the first matching position. */
  lemma {:induction false} FindMatchAt(links: seq<PatientLink>, k: nat, url: string)
    requires k < |links| && MatchesServer(links[k], url)
    requires forall j :: 0 <= j < k ==> !MatchesServer(links[j], url)
    ensures FindMatch(links, url) == Some(links[k])
  {
    if k > 0 {
      assert links[1..][k - 1] == links[k];
      FindMatchAt(links[1..], k - 1, url);
    }
  }

  /** After an unlink nothing matches, so the secondary id is undefined. */
  lemma UnlinkThenExtract(links: Option<seq<PatientLink>>, url: string)
    ensures SecondaryIdFromLinks(LinkedList(links, url, None), url).None?
  {
    if links.Some? {
      var kept := Unlinked(links.value);
      assert forall i :: 0 <= i < |kept| ==> kept[i] in kept && !MatchesServer(kept[i], url);
    }
  }

  /** The secondary column of the dual view. */
  datatype SecondaryPane = NoSecondaryPane | LinkedPatientProfile(patientId: string) | PatientSelectionPane

  /** Lines 70-98: the connect button when auth is missing; otherwise the linked patient or the selection list. */
  datatype DualView = DualView(connectButton: bool, secondary: SecondaryPane)

  function DualProfileView(selected: Patient?, url: string, contexts: map<string, ServerContext>): (v: DualView)
    reads selected
    ensures v.connectButton <==> SecondaryAuthMissing(url, contexts)
    ensures v.secondary.NoSecondaryPane? <==> url == "" || SecondaryAuthMissing(url, contexts)
    ensures v.secondary.LinkedPatientProfile? <==>
      url != "" && !SecondaryAuthMissing(url, contexts) && TruthyOpt(SecondaryPatientId(selected, url))
    ensures v.secondary.LinkedPatientProfile? ==> Some(v.secondary.patientId) == SecondaryPatientId(selected, url)
  {
    var id := SecondaryPatientId(selected, url);
    var missing := SecondaryAuthMissing(url, contexts);
    DualView(missing,
             if url != "" && !missing then (if TruthyOpt(id) then LinkedPatientProfile(id.value) else PatientSelectionPane)
             else NoSecondaryPane)
  }
}
