/**
 * The first-generation site page. The route parameter `id` is either "new"
 * (create) or the id of an existing site (fetched, then update). The form
 * holds the site fields; its `flow` field is the step list edited by
 * `StepListEditor` and extended by HAR import.
 */
module SiteEdit {
  import opened Wrappers
  import opened Dicts
  import opened JsonValues
  import opened Steps

  /** A site as the backend returns it: its plain fields and its flow (`None` when null). */
  datatype SiteRecord = SiteRecord(fields: Dict<Json>, flow: Option<seq<Step>>)

  /** Where the submitted form goes. */
  datatype SaveCall = Create | Update(id: string)

  /** The plain fields a new site starts with. */
  function NewSiteFields(): (d: Dict<Json>)
    ensures Get(d, "enabled") == Some(JBool(true))
    ensures Get(d, "auth") == Some(JObj([("type", JStr("none"))]))
    ensures Get(d, "schedule") == Some(JObj([("type", JStr("dailyAfter")), ("hour", JNum(8)),
                                             ("minute", JNum(5)), ("randomDelaySeconds", JNum(0))]))
  {
    [("enabled", JBool(true)),
     ("auth", JObj([("type", JStr("none"))])),
     ("schedule", JObj([("type", JStr("dailyAfter")), ("hour", JNum(8)),
                        ("minute", JNum(5)), ("randomDelaySeconds", JNum(0))]))]
  }

  class SiteEditPage {
    const id: string
    /** The plain form fields. */
    var values: Dict<Json>
    /** The form's `flow` field; `None` while it is unset or null. */
    var flow: Option<seq<Step>>
    var harModalVisible: bool

    /** `id === 'new'`. */
    predicate IsNew() {
      id == "new"
    }

    /** The site query runs only for an existing site. */
    predicate ShouldFetch()
      ensures ShouldFetch() <==> id != "new"
    {
      !IsNew()
    }

    constructor (routeId: string)
      ensures id == routeId && values == [] && flow == None && !harModalVisible
    {
      id := routeId;
      values := [];
      flow := None;
      harModalVisible := false;
    }

    /**
     * The form initialisation effect: a fetched site is copied into the form;
     * without one, a new site gets the defaults and an empty flow; otherwise
     * (an existing site still loading) nothing changes.
     */
    method InitForm(site: Option<SiteRecord>)
      modifies this
      ensures site.Some? ==> values == Merge(old(values), site.value.fields) && flow == site.value.flow
      ensures site.None? && IsNew() ==> values == Merge(old(values), NewSiteFields()) && flow == Some([])
      ensures site.None? && !IsNew() ==> values == old(values) && flow == old(flow)
      ensures harModalVisible == old(harModalVisible)
    {
      if site.Some? {
        values := Merge(values, site.value.fields);
        flow := site.value.flow;
      } else if IsNew() {
        values := Merge(values, NewSiteFields());
        flow := Some([]);
      }
    }

    /** Opens the HAR dialog. */
    method OpenHarModal()
      modifies this
      ensures harModalVisible && values == old(values) && flow == old(flow)
    {
      harModalVisible := true;
    }

    /**
     * Appends imported steps to the current flow (an unset flow counts as
     * empty), closes the dialog, and returns the count shown to the user.
     * Names are not checked: an imported `step_1` can sit next to an existing
     * step of the same name.
     */
    method HandleImportHar(newFlow: seq<Step>) returns (count: nat)
      modifies this
      ensures flow == Some(old(flow).GetOr([]) + newFlow)
      ensures count == |newFlow|
      ensures !harModalVisible && values == old(values)
    {
      var currentFlow := flow.GetOr([]);
      flow := Some(currentFlow + newFlow);
      harModalVisible := false;
      count := |newFlow|;
    }

    /** The mutation the submit button triggers. */
    function SaveTarget(): (r: SaveCall)
      ensures r == Create <==> id == "new"
      ensures r.Update? ==> r.id == id
    {
      if IsNew() then Create else Update(id)
    }
  }

  /** A new site's form holds exactly the defaults for the keys it sets. */
  lemma NewSiteDefaults(k: string)
    ensures Get(Merge([], NewSiteFields()), k) == Get(NewSiteFields(), k)
  {
    GetMerge([], NewSiteFields(), k);
    GetIn(NewSiteFields(), k);
  }
}
