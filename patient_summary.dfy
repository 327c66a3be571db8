/**
 * `PatientSummary`: the summary page shows the secondary server's record of
 * the linked patient next to the primary one, read through the same
 * `seealso` link lookup as the dual profile.
 */
module PatientSummary {
  import opened Wrappers
  import opened DualPatientProfile

  /** The secondary column of the summary page. */
  datatype SummaryPane = NoSummaryPane | SecondaryDetails(patientId: string) | SecondarySelection

  /** Lines 12-37: no column without a secondary base URL; the linked patient's details when an id was found; else the selection list. */
  function SummaryPanel(selected: Patient?, secondaryBaseUrl: string): (pane: SummaryPane)
    reads selected
    ensures pane.NoSummaryPane? <==> secondaryBaseUrl == ""
    ensures pane.SecondaryDetails? <==> secondaryBaseUrl != "" && TruthyOpt(SecondaryPatientId(selected, secondaryBaseUrl))
    ensures pane.SecondaryDetails? ==> Some(pane.patientId) == SecondaryPatientId(selected, secondaryBaseUrl)
    ensures selected == null ==> !pane.SecondaryDetails?
  {
    var id := SecondaryPatientId(selected, secondaryBaseUrl);
    if secondaryBaseUrl == "" then NoSummaryPane
    else if TruthyOpt(id) then SecondaryDetails(id.value)
    else SecondarySelection
  }

  /**
   * A patient just linked on the dual profile (no earlier match, an id
   * without `/`) is the one the summary page shows details for; after an
   * unlink the page offers the selection list instead.
   */
  lemma SummaryFollowsLinking(selected: Patient, before: Option<seq<PatientLink>>, url: string, id: Option<string>)
    requires url != ""
    requires selected.link == LinkedList(before, url, id)
    requires TruthyOpt(id) ==> '/' !in id.value && (before.Some? ==> FindMatch(before.value, url).None?)
    ensures TruthyOpt(id) ==> SummaryPanel(selected, url) == SecondaryDetails(id.value)
    ensures !TruthyOpt(id) ==> SummaryPanel(selected, url) == SecondarySelection
  {
    if TruthyOpt(id) {
      LinkThenExtract(before, url, id.value);
    } else {
      UnlinkThenExtract(before, url);
    }
  }
}
