/**
 * The flow document: an ordered list of HTTP steps. This is the shape the
 * step editor saves, HAR import generates and the flow engine runs.
 */
module Steps {
  import opened Wrappers
  import opened Dicts
  import opened JsonValues
  import Strings

  /**
   * The success check of a step, with the defaults the engine applies to a
   * missing key: `kind` "json", `path` "", `equals` null. An absent or empty
   * `expect` object is `None` in `Step.expectation`.
   */
  datatype Expect = Expect(kind: string, path: string, equals: Json)

  /** One variable extraction rule (`var`, `type` defaulting to "json", `path` defaulting to ""). */
  datatype ExtractRule = ExtractRule(variable: string, kind: string, path: string)

  /**
   * One step of a flow; a `None` body, condition or extract list is a key the
   * step does not have, and so is a `None` expectation (or an empty one).
   */
  datatype Step = Step(
    name: string,
    httpMethod: string,
    url: string,
    headers: Dict<Json>,
    body: Option<Json>,
    condition: Option<string>,
    expectation: Option<Expect>,
    extract: Option<seq<ExtractRule>>)

  /** The extraction rules the engine applies: `step.get('extract', [])`. */
  function Rules(step: Step): (r: seq<ExtractRule>)
    ensures step.extract.Some? ==> r == step.extract.value
    ensures step.extract.None? ==> r == []
  {
    step.extract.GetOr([])
  }

  /** A row of the step form's header list. */
  datatype HeaderRow = HeaderRow(name: string, value: Json)

  /** The values of the step form (the drawer of the step editor). */
  datatype FormValues = FormValues(
    name: string,
    httpMethod: string,
    url: string,
    condition: Option<string>,
    headersList: seq<HeaderRow>,
    bodyString: Option<Json>,
    expectation: Option<Expect>,
    extract: Option<seq<ExtractRule>>)

  /** The positional name `step_{idx + 1}` given to a generated or added step. */
  function StepName(idx: nat): string {
    "step_" + Strings.NatToString(idx + 1)
  }

  /** Different positions give different names. */
  lemma StepNameInjective(i: nat, j: nat)
    requires StepName(i) == StepName(j)
    ensures i == j
  {
    assert Strings.NatToString(i + 1) == StepName(i)[5..];
    assert Strings.NatToString(j + 1) == StepName(j)[5..];
    Strings.NatToStringInjective(i + 1, j + 1);
  }

  // ---------------------------------------------------------------- headers

  /** `Object.entries(headers).map(([name, val]) => ({ name, value: val }))`. */
  function HeadersToRows(headers: Dict<Json>): (rows: seq<HeaderRow>)
    ensures |rows| == |headers|
    ensures forall i :: 0 <= i < |headers| ==> rows[i] == HeaderRow(headers[i].0, headers[i].1)
  {
    seq(|headers|, i requires 0 <= i < |headers| => HeaderRow(headers[i].0, headers[i].1))
  }

  function RowPairs(rows: seq<HeaderRow>): (ps: AList<Json>)
    ensures |ps| == |rows| && forall i :: 0 <= i < |rows| ==> ps[i] == (rows[i].name, rows[i].value)
  {
    seq(|rows|, i requires 0 <= i < |rows| => (rows[i].name, rows[i].value))
  }

  /**
   * Builds the headers object from the rows by assigning `headers[name] = value`
   * for each row in turn.
   */
  method RowsToHeaders(rows: seq<HeaderRow>) returns (headers: Dict<Json>)
    ensures headers == FromEntries(RowPairs(rows))
  {
    var ps := RowPairs(rows);
    headers := [];
    var i := 0;
    while i < |rows|
      invariant 0 <= i <= |rows|
      invariant headers == FromEntries(ps[..i])
    {
      assert ps[..i + 1][..i] == ps[..i];
      headers := Put(headers, rows[i].name, rows[i].value);
      i := i + 1;
    }
    assert ps[..|rows|] == ps;
  }

  /** In the saved headers, a later row with the same name overwrites an earlier one. */
  lemma RowsToHeadersLastWins(rows: seq<HeaderRow>, name: string)
    ensures Get(FromEntries(RowPairs(rows)), name) == LastValue(RowPairs(rows), name)
  {
    FromEntriesGet(RowPairs(rows), name);
  }

  /** Turning a headers object into rows and back gives the same object. */
  lemma HeadersRowsRoundTrip(headers: Dict<Json>)
    ensures FromEntries(RowPairs(HeadersToRows(headers))) == headers
  {
    assert RowPairs(HeadersToRows(headers)) == headers;
    FromEntriesOfDict(headers);
  }

  // ---------------------------------------------------------------- body

  /**
   * The text shown for a body in the form: an object or array is serialised,
   * any other value is shown as it is.
   */
  function BodyToText(c: Codec, body: Option<Json>): (r: Option<Json>)
    ensures body.Some? && (body.value.JObj? || body.value.JArr?) ==> r == Some(JStr(c.stringify(body.value)))
    ensures !(body.Some? && (body.value.JObj? || body.value.JArr?)) ==> r == body
  {
    if body.Some? && (body.value.JObj? || body.value.JArr?) then Some(JStr(c.stringify(body.value))) else body
  }

  /** The body text starts like a JSON object or array. */
  predicate LooksLikeJson(s: string) {
    Strings.StartsWith(s, "{") || Strings.StartsWith(s, "[")
  }

  /**
   * The body saved from the form: a non-empty string starting with `{` or `[`
   * is parsed when it is valid JSON; a parse failure, any other string and any
   * non-string value are kept as they are.
   */
  function CoerceBody(c: Codec, text: Option<Json>): (r: Option<Json>)
    ensures (text.Some? && text.value.JStr? && LooksLikeJson(text.value.s) && c.parse(text.value.s).Some?)
            ==> r == c.parse(text.value.s)
    ensures !(text.Some? && text.value.JStr? && LooksLikeJson(text.value.s) && c.parse(text.value.s).Some?)
            ==> r == text
  {
    match text
    case Some(JStr(s)) =>
      if s != "" && LooksLikeJson(s) then
        match c.parse(s)
        case Some(v) => Some(v)
        case None => text
      else text
    case _ => text
  }

  /** Text such as "123" or "true" stays a string: only `{` and `[` prefixes are tried as JSON. */
  lemma CoerceBodyKeepsScalars(c: Codec, s: string)
    requires !LooksLikeJson(s)
    ensures CoerceBody(c, Some(JStr(s))) == Some(JStr(s))
  {
  }

  /**
   * Showing a body in the form and saving it again gives the body back, except
   * for a string that is itself valid JSON text of an object or array: that one
   * comes back parsed.
   */
  lemma BodyRoundTrip(c: Codec, body: Option<Json>)
    requires RoundTrips(c) && Bracketed(c)
    requires !(body.Some? && body.value.JStr? && LooksLikeJson(body.value.s) && c.parse(body.value.s).Some?)
    ensures CoerceBody(c, BodyToText(c, body)) == body
  {
    if body.Some? && (body.value.JObj? || body.value.JArr?) {
      var s := c.stringify(body.value);
      assert c.parse(s) == Some(body.value);
      assert LooksLikeJson(s);
    }
  }

  /** The exception: a JSON-looking string body is saved as the value it denotes. */
  lemma BodyRoundTripParsesText(c: Codec, s: string)
    requires LooksLikeJson(s) && c.parse(s).Some?
    ensures CoerceBody(c, BodyToText(c, Some(JStr(s)))) == c.parse(s)
  {
  }

  // ---------------------------------------------------------------- form

  /** The form holding exactly the fields of `step`, whatever it held before. */
  function EditForm(c: Codec, step: Step): (f: FormValues)
    ensures f.headersList == HeadersToRows(step.headers)
    ensures f.bodyString == BodyToText(c, step.body)
    ensures f.name == step.name && f.httpMethod == step.httpMethod && f.url == step.url
    ensures f.condition == step.condition && f.expectation == step.expectation && f.extract == step.extract
  {
    FormValues(step.name, step.httpMethod, step.url, step.condition,
               HeadersToRows(step.headers), BodyToText(c, step.body), step.expectation, step.extract)
  }

  /** The step carries every key the form has: a condition, an expectation and an extract list. */
  predicate CarriesAllKeys(step: Step) {
    step.condition.Some? && step.expectation.Some? && step.extract.Some?
  }

  /**
   * `form.setFieldsValue({...step, headersList, bodyString})`: the form `f`
   * overwritten by the keys the step carries. A condition, expectation or
   * extract list the step lacks keeps the value the form already held.
   */
  function MergedEditForm(c: Codec, f: FormValues, step: Step): (r: FormValues)
    ensures r.headersList == HeadersToRows(step.headers) && r.bodyString == BodyToText(c, step.body)
    ensures r.name == step.name && r.httpMethod == step.httpMethod && r.url == step.url
    ensures r.condition == (if step.condition.Some? then step.condition else f.condition)
    ensures r.expectation == (if step.expectation.Some? then step.expectation else f.expectation)
    ensures r.extract == (if step.extract.Some? then step.extract else f.extract)
  {
    f.(name := step.name, httpMethod := step.httpMethod, url := step.url,
       condition := if step.condition.Some? then step.condition else f.condition,
       headersList := HeadersToRows(step.headers), bodyString := BodyToText(c, step.body),
       expectation := if step.expectation.Some? then step.expectation else f.expectation,
       extract := if step.extract.Some? then step.extract else f.extract)
  }

  /** For a step carrying every key, the merge forgets the earlier form: it is the step's own form. */
  lemma MergedEditFormOfFullStep(c: Codec, f: FormValues, step: Step)
    requires CarriesAllKeys(step)
    ensures MergedEditForm(c, f, step) == EditForm(c, step)
  {
  }

  /** The step saved from validated form values, the headers already built from the rows. */
  function StepFromForm(c: Codec, f: FormValues, headers: Dict<Json>): (s: Step)
    ensures s.headers == headers && s.body == CoerceBody(c, f.bodyString)
    ensures s.name == f.name && s.httpMethod == f.httpMethod && s.url == f.url
    ensures s.condition == f.condition && s.expectation == f.expectation && s.extract == f.extract
  {
    Step(f.name, f.httpMethod, f.url, headers, CoerceBody(c, f.bodyString), f.condition, f.expectation, f.extract)
  }

  /**
   * Showing a step in a form of its own fields and saving it unchanged gives
   * the same step back (bodies as in `BodyRoundTrip`).
   */
  lemma EditSaveRoundTrip(c: Codec, step: Step)
    requires RoundTrips(c) && Bracketed(c)
    requires !(step.body.Some? && step.body.value.JStr? && LooksLikeJson(step.body.value.s)
               && c.parse(step.body.value.s).Some?)
    ensures var f := EditForm(c, step);
            StepFromForm(c, f, FromEntries(RowPairs(f.headersList))) == step
  {
    HeadersRowsRoundTrip(step.headers);
    BodyRoundTrip(c, step.body);
  }
}
