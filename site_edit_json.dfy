/**
 * The second-generation site page. The route `sites/:id` edits a site and
 * `sites/new` (no id) creates one. Authentication, schedule and, in the JSON
 * tab, the flow are edited as JSON text; the visual tab edits the flow as a
 * step list. The form values are one dictionary, as in the form library:
 * the text areas hold strings, the visual editor holds the flow itself.
 */
module SiteEditJson {
  import opened Wrappers
  import opened Dicts
  import opened JsonValues

  /** The active flow tab. */
  datatype FlowMode = Visual | JsonText

  /** What pressing the submit button leads to. */
  datatype Submission =
    | Invalid                                // a validator rejects a text: `onFinish` does not run
    | ParseFailed                            // `onFinish` throws while parsing: no request is made
    | Create(data: Dict<Json>)
    | Update(id: string, data: Dict<Json>)

  /** `!!id`: a non-empty route id means an existing site. */
  predicate IsEditId(id: Option<string>) {
    id.Some? && id.value != ""
  }

  /**
   * `value || fallback` read as text: a non-empty string is itself, a falsy
   * value gives the fallback, and a truthy value that is not a string cannot
   * be read as text (`None`).
   */
  function TextOr(v: Option<Json>, fallback: string): (r: Option<string>)
    ensures v.Some? && v.value.JStr? && v.value.s != "" ==> r == Some(v.value.s)
    ensures v.None? || !JsTruthy(v.value) ==> r == Some(fallback)
    ensures r.None? <==> v.Some? && JsTruthy(v.value) && !v.value.JStr?
  {
    if v.Some? && JsTruthy(v.value) then (if v.value.JStr? then Some(v.value.s) else None)
    else Some(fallback)
  }

  /** `JSON.parse(value || fallback)`; `None` when it throws. */
  function ParseText(c: Codec, v: Option<Json>, fallback: string): Option<Json> {
    var t := TextOr(v, fallback);
    if t.Some? then c.parse(t.value) else None
  }

  /** The JSON validator of a text area: an empty field passes, otherwise the text must parse. */
  predicate TextValid(c: Codec, v: Option<Json>) {
    v.None? || !JsTruthy(v.value) || (v.value.JStr? && c.parse(v.value.s).Some?)
  }

  /**
   * The fields the form has registered, in the order they first render: the
   * flow text only once the JSON tab has been shown (a shown tab stays
   * mounted when another is selected).
   */
  function Registered(jsonShown: bool): (names: seq<string>)
    ensures "name" in names && "enabled" in names && "base_url" in names
    ensures "auth" in names && "flow" in names && "schedule" in names
    ensures "flowJson" in names <==> jsonShown
  {
    ["name", "enabled", "base_url", "auth", "flow", "schedule"] + (if jsonShown then ["flowJson"] else [])
  }

  /** Every registered field name has 4, 7 or 8 characters. */
  lemma RegisteredLengths(jsonShown: bool)
    ensures forall k :: k in Registered(jsonShown) ==> |k| == 4 || |k| == 7 || |k| == 8
  {
  }

  /**
   * The name field's `required` rule: the value must be a string (the rule's
   * default type) and not empty. A missing value or `null` fails it.
   */
  predicate NameGiven(v: Option<Json>) {
    v.Some? && v.value.JStr? && v.value.s != ""
  }

  /**
   * The rules that run on submit: the name is required, the texts must parse,
   * and the flow text is checked only once its tab has been shown.
   */
  predicate Validated(c: Codec, jsonShown: bool, values: Dict<Json>) {
    && NameGiven(Get(values, "name"))
    && TextValid(c, Get(values, "auth"))
    && TextValid(c, Get(values, "schedule"))
    && (!jsonShown || TextValid(c, Get(values, "flowJson")))
  }

  /** The flow `onFinish` submits: the visual editor's value, or the parsed flow text. */
  function SubmittedFlow(c: Codec, mode: FlowMode, values: Dict<Json>): Option<Json> {
    if mode == Visual then Get(values, "flow") else ParseText(c, Get(values, "flowJson"), "[]")
  }

  /** The fields `onFinish` overrides; a flow that is unset is left out of the request. */
  function Overrides(flow: Option<Json>, auth: Json, schedule: Json): Dict<Json> {
    if flow.Some? then [("flow", flow.value), ("auth", auth), ("schedule", schedule)]
    else [("auth", auth), ("schedule", schedule)]
  }

  /**
   * Submitting the form: validation first; then the flow, the authentication
   * and the schedule are parsed (an empty text as `[]`, `{}`, `{}`), any
   * failure ending in an error message without a request; otherwise the
   * values of the registered fields, with those three replaced, go to the
   * update request when the route has an id and to the create request when
   * it has none. The store's other keys (those a loaded site brought in)
   * are not part of the submitted values. The three are registered fields,
   * so they are read from the store directly.
   */
  function Outcome(c: Codec, mode: FlowMode, jsonShown: bool, id: Option<string>, values: Dict<Json>): (r: Submission)
    requires mode == JsonText ==> jsonShown
    ensures r == Invalid <==> !Validated(c, jsonShown, values)
    ensures r.Update? <==> Validated(c, jsonShown, values) && !r.ParseFailed? && IsEditId(id)
    ensures r.Update? ==> r.id == id.value
    ensures r.ParseFailed? <==>
      (Validated(c, jsonShown, values) &&
       ((SubmittedFlow(c, mode, values).None? && mode == JsonText)
        || ParseText(c, Get(values, "auth"), "{}").None? || ParseText(c, Get(values, "schedule"), "{}").None?))
  {
    if !Validated(c, jsonShown, values) then Invalid
    else
      var flow := SubmittedFlow(c, mode, values);
      var auth := ParseText(c, Get(values, "auth"), "{}");
      var schedule := ParseText(c, Get(values, "schedule"), "{}");
      if (mode == JsonText && flow.None?) || auth.None? || schedule.None? then ParseFailed
      else
        var data := Merge(Pick(values, Registered(jsonShown)), Overrides(flow, auth.value, schedule.value));
        if IsEditId(id) then Update(id.value, data) else Create(data)
  }

  /** The data of a request `Outcome` sends: the registered fields, overridden by the three parsed ones. */
  lemma OutcomeData(c: Codec, mode: FlowMode, jsonShown: bool, id: Option<string>, values: Dict<Json>)
    requires mode == JsonText ==> jsonShown
    requires Outcome(c, mode, jsonShown, id, values).Create? || Outcome(c, mode, jsonShown, id, values).Update?
    ensures ParseText(c, Get(values, "auth"), "{}").Some? && ParseText(c, Get(values, "schedule"), "{}").Some?
    ensures Outcome(c, mode, jsonShown, id, values).data ==
              Merge(Pick(values, Registered(jsonShown)),
                    Overrides(SubmittedFlow(c, mode, values), ParseText(c, Get(values, "auth"), "{}").value,
                              ParseText(c, Get(values, "schedule"), "{}").value))
  {
  }

  /** The flow a loaded site shows: `site.flow || []`. */
  function LoadedFlow(site: Dict<Json>): Json {
    JsOr(Get(site, "flow"), JArr([]))
  }

  /**
   * The values the form receives once the site has loaded: the site's own
   * fields, the flow for the visual tab and, as text, the flow, the
   * authentication and the schedule (`{}` when missing).
   */
  function Loaded(c: Codec, site: Dict<Json>): Dict<Json> {
    var flow := LoadedFlow(site);
    Merge(site, [("flow", flow),
                 ("flowJson", JStr(c.stringify(flow))),
                 ("auth", JStr(c.stringify(JsOr(Get(site, "auth"), JObj([]))))),
                 ("schedule", JStr(c.stringify(JsOr(Get(site, "schedule"), JObj([])))))])
  }

  class SiteEditPage {
    const id: Option<string>
    var values: Dict<Json>
    var flowMode: FlowMode
    /** Whether the JSON tab has been rendered, registering the flow text field. */
    var jsonShown: bool

    /** The JSON tab is rendered whenever it is the active one. */
    predicate Valid()
      reads this
    {
      flowMode == JsonText ==> jsonShown
    }

    /** The page opens on the visual tab with `enabled` switched on. */
    constructor (routeId: Option<string>)
      ensures Valid()
      ensures id == routeId && flowMode == Visual && !jsonShown
      ensures values == [("enabled", JBool(true))]
    {
      id := routeId;
      values := [("enabled", JBool(true))];
      flowMode := Visual;
      jsonShown := false;
    }

    /** The effect that copies the loaded site into the form. */
    method Load(c: Codec, site: Dict<Json>)
      modifies this
      ensures values == Merge(old(values), Loaded(c, site))
      ensures flowMode == old(flowMode) && jsonShown == old(jsonShown)
    {
      values := Merge(values, Loaded(c, site));
    }

    /**
     * Switching tabs changes only the tab, and showing the JSON tab registers
     * its field for good: neither view is rewritten from the other.
     */
    method SetFlowMode(m: FlowMode)
      requires Valid()
      modifies this
      ensures Valid()
      ensures flowMode == m && values == old(values)
      ensures jsonShown == (old(jsonShown) || m == JsonText)
    {
      flowMode := m;
      if m == JsonText {
        jsonShown := true;
      }
    }

    /** A change made in one field (a text area, the switch, the visual editor). */
    method EditField(key: string, v: Json)
      modifies this
      ensures values == Put(old(values), key, v)
      ensures flowMode == old(flowMode) && jsonShown == old(jsonShown)
    {
      values := Put(values, key, v);
    }
  }

  /**
   * The submitted flow depends only on the active tab: in the visual tab an
   * edit of the flow text is ignored, in the JSON tab an edit in the visual
   * editor is.
   */
  lemma SubmittedFlowOfMode(c: Codec, mode: FlowMode, jsonShown: bool, id: Option<string>, values: Dict<Json>)
    requires mode == JsonText ==> jsonShown
    requires Outcome(c, mode, jsonShown, id, values).Create? || Outcome(c, mode, jsonShown, id, values).Update?
    ensures Get(Outcome(c, mode, jsonShown, id, values).data, "flow") ==
      if mode == Visual then Get(values, "flow") else ParseText(c, Get(values, "flowJson"), "[]")
  {
    OutcomeData(c, mode, jsonShown, id, values);
    var picked := Pick(values, Registered(jsonShown));
    OverridesRead(picked, SubmittedFlow(c, mode, values), ParseText(c, Get(values, "auth"), "{}").value,
                  ParseText(c, Get(values, "schedule"), "{}").value);
    GetPick(values, Registered(jsonShown), "flow");
  }


  /**
   * The request holds only registered fields: a key the store holds for
   * any other reason (a loaded site's `id`, `paused` or last-run fields) is
   * not sent, and every registered field other than the three parsed ones
   * is sent as the form holds it.
   */
  lemma SubmittedFields(c: Codec, mode: FlowMode, jsonShown: bool, id: Option<string>, values: Dict<Json>, k: string)
    requires mode == JsonText ==> jsonShown
    requires Outcome(c, mode, jsonShown, id, values).Create? || Outcome(c, mode, jsonShown, id, values).Update?
    ensures k !in Registered(jsonShown) ==> Get(Outcome(c, mode, jsonShown, id, values).data, k).None?
    ensures k in Registered(jsonShown) && k != "flow" && k != "auth" && k != "schedule" ==>
              Get(Outcome(c, mode, jsonShown, id, values).data, k) == Get(values, k)
  {
    OutcomeData(c, mode, jsonShown, id, values);
    if k != "flow" && k != "auth" && k != "schedule" {
      PickedNotOverridden(values, Registered(jsonShown), SubmittedFlow(c, mode, values),
                          ParseText(c, Get(values, "auth"), "{}").value,
                          ParseText(c, Get(values, "schedule"), "{}").value, k);
    }
  }

  /** The three overridden keys read their new values; an unset flow reads through to the base. */
  lemma OverridesRead(base: Dict<Json>, flow: Option<Json>, auth: Json, schedule: Json)
    ensures var d := Merge(base, Overrides(flow, auth, schedule));
      && Get(d, "flow") == (if flow.Some? then flow else Get(base, "flow"))
      && Get(d, "auth") == Some(auth) && Get(d, "schedule") == Some(schedule)
  {
    var o := Overrides(flow, auth, schedule);
    if flow.Some? {
      assert Keys(o) == ["flow", "auth", "schedule"];
      GetAt(o, 0);
      GetAt(o, 1);
      GetAt(o, 2);
    } else {
      assert Keys(o) == ["auth", "schedule"];
      GetAt(o, 0);
      GetAt(o, 1);
    }
    GetMerge(base, o, "flow");
    GetMerge(base, o, "auth");
    GetMerge(base, o, "schedule");
  }

  /** A key other than the three overridden ones reads through to the picked fields. */
  lemma PickedNotOverridden(values: Dict<Json>, names: seq<string>, flow: Option<Json>, auth: Json, schedule: Json,
                            k: string)
    requires k != "flow" && k != "auth" && k != "schedule"
    ensures Get(Merge(Pick(values, names), Overrides(flow, auth, schedule)), k) ==
              if k in names then Get(values, k) else None
  {
    var o := Overrides(flow, auth, schedule);
    assert k !in Keys(o);
    GetMerge(Pick(values, names), o, k);
    GetPick(values, names, k);
  }

  /** A site that was paused while the page was open is not unpaused by submitting it unchanged. */
  lemma PausedNotSent(c: Codec, mode: FlowMode, jsonShown: bool, id: Option<string>, values: Dict<Json>)
    requires mode == JsonText ==> jsonShown
    requires Outcome(c, mode, jsonShown, id, values).Create? || Outcome(c, mode, jsonShown, id, values).Update?
    ensures Get(Outcome(c, mode, jsonShown, id, values).data, "paused").None?
  {
    OutcomeData(c, mode, jsonShown, id, values);
    RegisteredLengths(jsonShown);
    assert |"paused"| == 6;
    PickedNotOverridden(values, Registered(jsonShown), SubmittedFlow(c, mode, values),
                        ParseText(c, Get(values, "auth"), "{}").value,
                        ParseText(c, Get(values, "schedule"), "{}").value, "paused");
  }


  /**
   * When `{}` and `[]` parse, a form that passed validation is never lost to a
   * parse error: every text the validators let through parses on submit.
   */
  lemma ValidatedParses(c: Codec, mode: FlowMode, jsonShown: bool, id: Option<string>, values: Dict<Json>)
    requires mode == JsonText ==> jsonShown
    requires ParsesEmpty(c) && Validated(c, jsonShown, values)
    ensures !Outcome(c, mode, jsonShown, id, values).ParseFailed?
    ensures !Outcome(c, mode, jsonShown, id, values).Invalid?
  {
  }

  /** The serialised text of a value is read back as that value. */
  lemma ParseTextOfStringify(c: Codec, x: Json, fallback: string)
    requires RoundTrips(c) && NeverEmpty(c)
    ensures ParseText(c, Some(JStr(c.stringify(x))), fallback) == Some(x)
    ensures TextValid(c, Some(JStr(c.stringify(x))))
  {
    assert c.stringify(x) != "";
    assert c.parse(c.stringify(x)) == Some(x);
  }

  /** A field of the site other than the four the page rewrites is loaded as the site has it. */
  lemma LoadedKeepsSite(c: Codec, before: Dict<Json>, site: Dict<Json>, k: string)
    requires k != "flow" && k != "flowJson" && k != "auth" && k != "schedule"
    requires Get(site, k).Some?
    ensures Get(Merge(before, Loaded(c, site)), k) == Get(site, k)
  {
    var flow := LoadedFlow(site);
    var texts: Dict<Json> := [("flow", flow),
                  ("flowJson", JStr(c.stringify(flow))),
                  ("auth", JStr(c.stringify(JsOr(Get(site, "auth"), JObj([]))))),
                  ("schedule", JStr(c.stringify(JsOr(Get(site, "schedule"), JObj([])))))];
    var loaded := Loaded(c, site);
    assert k !in Keys(texts) by {
      assert texts[0].0 == "flow" && texts[1].0 == "flowJson" && texts[2].0 == "auth" && texts[3].0 == "schedule";
    }
    GetMerge(site, texts, k);
    GetIn(loaded, k);
    GetMerge(before, loaded, k);
  }

  /** After loading, the form holds the loaded flow and the three texts, whatever it held before. */
  lemma LoadedGet(c: Codec, before: Dict<Json>, site: Dict<Json>, k: string)
    requires k == "flow" || k == "flowJson" || k == "auth" || k == "schedule"
    ensures var flow := LoadedFlow(site);
      Get(Merge(before, Loaded(c, site)), k) ==
        if k == "flow" then Some(flow)
        else if k == "flowJson" then Some(JStr(c.stringify(flow)))
        else if k == "auth" then Some(JStr(c.stringify(JsOr(Get(site, "auth"), JObj([])))))
        else Some(JStr(c.stringify(JsOr(Get(site, "schedule"), JObj([])))))
  {
    var flow := LoadedFlow(site);
    var texts: Dict<Json> := [("flow", flow),
                  ("flowJson", JStr(c.stringify(flow))),
                  ("auth", JStr(c.stringify(JsOr(Get(site, "auth"), JObj([]))))),
                  ("schedule", JStr(c.stringify(JsOr(Get(site, "schedule"), JObj([])))))];
    var loaded := Loaded(c, site);
    assert Keys(texts) == ["flow", "flowJson", "auth", "schedule"];
    var i := if k == "flow" then 0 else if k == "flowJson" then 1 else if k == "auth" then 2 else 3;
    assert texts[i].0 == k;
    GetAt(texts, i);
    GetMerge(site, texts, k);
    GetIn(loaded, k);
    GetMerge(before, loaded, k);
  }

  /**
   * A form whose texts all parse, and whose visual flow agrees with its flow
   * text, submits those values in either tab, together with the other
   * registered fields as the form holds them and no other field.
   */
  lemma SubmitParsed(c: Codec, mode: FlowMode, jsonShown: bool, id: Option<string>, values: Dict<Json>,
                     flow: Json, auth: Json, schedule: Json)
    requires mode == JsonText ==> jsonShown
    requires NameGiven(Get(values, "name"))
    requires Get(values, "flow") == Some(flow)
    requires TextValid(c, Get(values, "flowJson")) && ParseText(c, Get(values, "flowJson"), "[]") == Some(flow)
    requires TextValid(c, Get(values, "auth")) && ParseText(c, Get(values, "auth"), "{}") == Some(auth)
    requires TextValid(c, Get(values, "schedule")) && ParseText(c, Get(values, "schedule"), "{}") == Some(schedule)
    ensures var r := Outcome(c, mode, jsonShown, id, values);
      && (if IsEditId(id) then r.Update? else r.Create?)
      && Get(r.data, "flow") == Some(flow)
      && Get(r.data, "auth") == Some(auth)
      && Get(r.data, "schedule") == Some(schedule)
      && Get(r.data, "name") == Get(values, "name")
      && Get(r.data, "enabled") == Get(values, "enabled")
      && Get(r.data, "base_url") == Get(values, "base_url")
      && (forall k :: k !in Registered(jsonShown) ==> Get(r.data, k).None?)
  {
    assert SubmittedFlow(c, mode, values) == Some(flow);
    var r := Outcome(c, mode, jsonShown, id, values);
    assert if IsEditId(id) then r.Update? else r.Create?;
    SubmittedOverrides(c, mode, jsonShown, id, values, flow, auth, schedule);
    SubmittedFields(c, mode, jsonShown, id, values, "name");
    SubmittedFields(c, mode, jsonShown, id, values, "enabled");
    SubmittedFields(c, mode, jsonShown, id, values, "base_url");
    forall k | k !in Registered(jsonShown)
      ensures Get(r.data, k).None?
    {
      SubmittedFields(c, mode, jsonShown, id, values, k);
    }
  }

  /** A request carries the parsed flow, authentication and schedule. */
  lemma SubmittedOverrides(c: Codec, mode: FlowMode, jsonShown: bool, id: Option<string>, values: Dict<Json>,
                           flow: Json, auth: Json, schedule: Json)
    requires mode == JsonText ==> jsonShown
    requires Outcome(c, mode, jsonShown, id, values).Create? || Outcome(c, mode, jsonShown, id, values).Update?
    requires SubmittedFlow(c, mode, values) == Some(flow)
    requires ParseText(c, Get(values, "auth"), "{}") == Some(auth)
    requires ParseText(c, Get(values, "schedule"), "{}") == Some(schedule)
    ensures var d := Outcome(c, mode, jsonShown, id, values).data;
      Get(d, "flow") == Some(flow) && Get(d, "auth") == Some(auth) && Get(d, "schedule") == Some(schedule)
  {
    OutcomeData(c, mode, jsonShown, id, values);
    OverridesRead(Pick(values, Registered(jsonShown)), Some(flow), auth, schedule);
  }


  /**
   * Loading a site and submitting it untouched, in either tab, sends back its
   * flow (`[]` when it had none), its authentication and its schedule (`{}`
   * when missing), to the request the route calls for: serialising and
   * parsing again is the identity.
   */
  lemma LoadThenSubmit(c: Codec, mode: FlowMode, jsonShown: bool, id: Option<string>, before: Dict<Json>,
                       site: Dict<Json>)
    requires mode == JsonText ==> jsonShown
    requires RoundTrips(c) && NeverEmpty(c)
    requires NameGiven(Get(site, "name"))
    ensures var r := Outcome(c, mode, jsonShown, id, Merge(before, Loaded(c, site)));
      && (if IsEditId(id) then r.Update? else r.Create?)
      && Get(r.data, "flow") == Some(LoadedFlow(site))
      && Get(r.data, "auth") == Some(JsOr(Get(site, "auth"), JObj([])))
      && Get(r.data, "schedule") == Some(JsOr(Get(site, "schedule"), JObj([])))
  {
    var flow := LoadedFlow(site);
    var auth := JsOr(Get(site, "auth"), JObj([]));
    var schedule := JsOr(Get(site, "schedule"), JObj([]));
    LoadedGet(c, before, site, "flow");
    LoadedGet(c, before, site, "flowJson");
    LoadedGet(c, before, site, "auth");
    LoadedGet(c, before, site, "schedule");
    LoadedKeepsSite(c, before, site, "name");
    ParseTextOfStringify(c, flow, "[]");
    ParseTextOfStringify(c, auth, "{}");
    ParseTextOfStringify(c, schedule, "{}");
    SubmitParsed(c, mode, jsonShown, id, Merge(before, Loaded(c, site)), flow, auth, schedule);
  }
}
