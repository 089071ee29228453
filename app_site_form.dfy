/**
 * The single-page admin of the first backend: a site table whose status
 * column shows a badge for the last run, and a modal form (`SiteForm`) that
 * keeps the site being edited as one plain object and rewrites it on every
 * keystroke.
 */
module AppSiteForm {
  import opened Wrappers
  import opened Dicts
  import opened JsonValues

  /** The run statuses the badge knows. */
  const KnownStatuses: seq<string> := ["SUCCESS", "FAILED", "RUNNING", "SKIPPED", "AUTH_FAILED"]

  /** `getStatusBadge`: the label and the style class shown for a run status. */
  function StatusBadge(status: string): (badge: (string, string))
    ensures status == "SUCCESS" ==> badge == ("成功", "status-success")
    ensures status == "FAILED" ==> badge == ("失败", "status-failed")
    ensures status == "RUNNING" ==> badge == ("运行中", "status-running")
    ensures status == "SKIPPED" ==> badge == ("跳过", "status-skipped")
    ensures status == "AUTH_FAILED" ==> badge == ("认证失败", "status-auth-failed")
    ensures status !in KnownStatuses ==> badge == (status, "")
  {
    if status == "SUCCESS" then ("成功", "status-success")
    else if status == "FAILED" then ("失败", "status-failed")
    else if status == "RUNNING" then ("运行中", "status-running")
    else if status == "SKIPPED" then ("跳过", "status-skipped")
    else if status == "AUTH_FAILED" then ("认证失败", "status-auth-failed")
    else (status, "")
  }

  /** A badge is styled exactly when its status is known, and no two known statuses share a style. */
  lemma StatusBadgeStyled(s: string, t: string)
    ensures StatusBadge(s).1 != "" <==> s in KnownStatuses
    ensures s in KnownStatuses && s != t ==> StatusBadge(s).1 != StatusBadge(t).1
  {
  }

  /** The form a new site starts from: no name, enabled, bearer with no token, no steps, daily at 08:05. */
  function NewSiteForm(): (d: Dict<Json>)
    ensures Get(d, "name") == Some(JStr(""))
    ensures Get(d, "enabled") == Some(JBool(true))
    ensures Get(d, "auth") == Some(JObj([("type", JStr("bearer")), ("token", JStr(""))]))
    ensures Get(d, "flow") == Some(JArr([]))
    ensures Get(d, "schedule") == Some(JObj([("type", JStr("dailyAfter")), ("hour", JNum(8)), ("minute", JNum(5))]))
  {
    [("name", JStr("")),
     ("enabled", JBool(true)),
     ("auth", JObj([("type", JStr("bearer")), ("token", JStr(""))])),
     ("flow", JArr([])),
     ("schedule", JObj([("type", JStr("dailyAfter")), ("hour", JNum(8)), ("minute", JNum(5))]))]
  }

  /** `{ ...auth, token }`: the token set on the current authentication object, or on an empty one. */
  function WithToken(auth: Option<Json>, token: string): (r: Json)
    ensures r.JObj? && Get(r.fields, "token") == Some(JStr(token))
    ensures auth.Some? && auth.value.JObj? ==>
      forall k :: k != "token" ==> Get(r.fields, k) == Get(auth.value.fields, k)
  {
    var base := if auth.Some? && auth.value.JObj? then auth.value.fields else [];
    forall k
      ensures Get(Put(base, "token", JStr(token)), k) == if k == "token" then Some(JStr(token)) else Get(base, k)
    {
      GetPut(base, "token", JStr(token), k);
    }
    JObj(Put(base, "token", JStr(token)))
  }

  class SiteForm {
    /** The site being edited, as the object the form submits. */
    var formData: Dict<Json>

    /** The form opens on the site to edit, or on the defaults for a new one. */
    constructor (site: Option<Dict<Json>>)
      ensures site.Some? ==> formData == site.value
      ensures site.None? ==> formData == NewSiteForm()
    {
      if site.Some? {
        formData := site.value;
      } else {
        formData := NewSiteForm();
      }
    }

    /** The name input. */
    method EditName(text: string)
      modifies this
      ensures formData == Put(old(formData), "name", JStr(text))
    {
      formData := Put(formData, "name", JStr(text));
    }

    /** The token input: the token replaces the old one, the other authentication fields stay. */
    method EditToken(text: string)
      modifies this
      ensures formData == Put(old(formData), "auth", WithToken(Get(old(formData), "auth"), text))
    {
      var auth := WithToken(Get(formData, "auth"), text);
      formData := Put(formData, "auth", auth);
    }

    /** The token input shows `auth?.token || ''`. */
    function TokenShown(): (r: Json)
      reads this
      ensures !JsTruthy(r) ==> r == JStr("")
    {
      var auth := Get(formData, "auth");
      JsOr(if auth.Some? && auth.value.JObj? then Get(auth.value.fields, "token") else None, JStr(""))
    }

    /** The flow text area shows the serialised flow, and nothing while the flow is unset. */
    function FlowShown(c: Codec): (r: string)
      reads this
      ensures Get(formData, "flow").None? ==> r == ""
    {
      var flow := Get(formData, "flow");
      if flow.Some? then c.stringify(flow.value) else ""
    }

    /**
     * A keystroke in the flow text area: text that parses replaces the flow
     * and nothing else; text that does not parse is dropped and the form
     * keeps its last parsable flow.
     */
    method EditFlowText(c: Codec, text: string)
      modifies this
      ensures c.parse(text).Some? ==> formData == Put(old(formData), "flow", c.parse(text).value)
      ensures c.parse(text).None? ==> formData == old(formData)
    {
      var parsed := c.parse(text);
      if parsed.Some? {
        formData := Put(formData, "flow", parsed.value);
      }
    }
  }

  /** A token typed in is the token shown, whatever the authentication held before. */
  lemma TokenShownAfterEdit(d: Dict<Json>, text: string)
    ensures var a := WithToken(Get(d, "auth"), text);
      Get(Put(d, "auth", a), "auth") == Some(a) && JsOr(Get(a.fields, "token"), JStr("")) == JStr(text)
  {
    GetPut(d, "auth", WithToken(Get(d, "auth"), text), "auth");
  }

  /** A flow edit leaves every other field of the form as it was. */
  lemma FlowEditTouchesOnlyFlow(d: Dict<Json>, flow: Json, k: string)
    requires k != "flow"
    ensures Get(Put(d, "flow", flow), k) == Get(d, k)
    ensures Get(Put(d, "flow", flow), "flow") == Some(flow)
  {
    GetPut(d, "flow", flow, k);
    GetPut(d, "flow", flow, "flow");
  }

  /**
   * The text area and the flow agree: when serialisation round-trips, the
   * text shown parses back to the flow, so accepting it unchanged leaves the
   * form as it was.
   */
  lemma ShownFlowReparses(c: Codec, d: Dict<Json>)
    requires RoundTrips(c) && Get(d, "flow").Some?
    ensures c.parse(c.stringify(Get(d, "flow").value)) == Get(d, "flow")
    ensures Put(d, "flow", c.parse(c.stringify(Get(d, "flow").value)).value) == d
  {
    var flow := Get(d, "flow").value;
    assert c.parse(c.stringify(flow)) == Some(flow);
    PutSame(d, "flow", flow);
  }
}
