/**
 * The flow engine: runs a site's steps in order against one context,
 * recording one result per step and stopping at the first step that is
 * skipped or fails.
 *
 * The outside world is a parameter. `Evaluator` is the condition evaluator
 * (its error is the message of the exception it raises). `Client` answers
 * the request of the step at a given position (its error is the message of
 * the exception the HTTP client raises).
 */
module FlowEngine {
  import opened Wrappers
  import opened Dicts
  import opened JsonValues
  import Strings
  import opened Steps
  import FlowContexts
  import Extraction
  import Templating
  import Redaction

  /** The status of a step and of a whole flow run. */
  datatype Status = Running | Success | Failed | Skipped

  /** The request a step sends. */
  datatype Request = Request(httpMethod: string, url: string, headers: Dict<Json>, body: Option<Json>)

  /** A response: status code, headers, the decoded body (`None` when it is not JSON) and the raw text. */
  datatype Response = Response(statusCode: int, headers: Dict<string>, json: Option<Json>, text: string)

  /** What is recorded about one step; `None` is a key the record does not have. */
  datatype StepResult = StepResult(
    name: string,
    status: Status,
    reason: Option<string>,
    error: Option<string>,
    authFailed: bool,
    statusCode: Option<int>,
    headers: Option<Dict<string>>,
    response: Option<string>)

  type Evaluator = (string, Dict<Json>) -> Result<bool, string>
  type Client = (nat, Request) -> Result<Response, string>

  // ---------------------------------------------------------------- equality

  /**
   * Python's `==` on decoded JSON values: `True == 1` and `False == 0`, lists
   * compare member by member, dicts by their keys whatever the key order.
   */
  predicate PyEq(a: Json, b: Json)
    decreases a
  {
    match a
    case JNull => b.JNull?
    case JBool(x) => (b.JBool? && b.b == x) || (b.JNum? && b.n == (if x then 1 else 0))
    case JNum(n) => (b.JNum? && b.n == n) || (b.JBool? && n == (if b.b then 1 else 0))
    case JStr(s) => b.JStr? && b.s == s
    case JArr(xs) =>
      b.JArr? && |xs| == |b.items| && forall i :: 0 <= i < |xs| ==> PyEq(xs[i], b.items[i])
    case JObj(fs) =>
      b.JObj? && |fs| == |b.fields| &&
      forall i :: 0 <= i < |fs| ==> Get(b.fields, fs[i].0).Some? && PyEq(fs[i].1, Get(b.fields, fs[i].0).value)
  }

  /** Every value equals itself. */
  lemma {:induction false} PyEqReflexive(a: Json)
    ensures PyEq(a, a)
    decreases a
  {
    match a
    case JArr(xs) =>
      forall i | 0 <= i < |xs|
        ensures PyEq(xs[i], xs[i])
      {
        PyEqReflexive(xs[i]);
      }
    case JObj(fs) =>
      forall i | 0 <= i < |fs|
        ensures Get(fs, fs[i].0) == Some(fs[i].1) && PyEq(fs[i].1, fs[i].1)
      {
        GetAt(fs, i);
        PyEqReflexive(fs[i].1);
      }
    case _ =>
  }

  /** Python's equality is coarser than identity: `True == 1`, and dicts ignore key order. */
  lemma PyEqCoarser()
    ensures PyEq(JBool(true), JNum(1)) && PyEq(JNum(0), JBool(false))
    ensures PyEq(JObj([("a", JNull), ("b", JNull)]), JObj([("b", JNull), ("a", JNull)]))
    ensures !PyEq(JNull, JStr("None")) && !PyEq(JNum(1), JStr("1"))
  {
    var d: Dict<Json> := [("b", JNull), ("a", JNull)];
    GetAt(d, 0);
    GetAt(d, 1);
  }

  // ---------------------------------------------------------------- expect

  /** The outcome of an expect check. */
  datatype Check = Passed | NotPassed(error: string, authFailed: bool)

  /** `_validate_expect`: 401 and 403 fail as an authentication failure; a json expect compares the value at its path. */
  function ValidateExpect(response: Response, data: Json, rule: Expect): (r: Check)
    ensures (response.statusCode == 401 || response.statusCode == 403) <==> r.NotPassed? && r.authFailed
    ensures response.statusCode != 401 && response.statusCode != 403 ==>
              (r.NotPassed? <==> rule.kind == "json" && !PyEq(Extraction.JsonPath(data, rule.path), rule.equals))
  {
    if response.statusCode == 401 || response.statusCode == 403 then
      NotPassed("认证失败: HTTP " + IntToString(response.statusCode), true)
    else if rule.kind == "json" then
      var actual := Extraction.JsonPath(data, rule.path);
      if !PyEq(actual, rule.equals) then
        NotPassed("JSON 路径 " + rule.path + " 期望值 " + PyStr(rule.equals) + "，实际值 " + PyStr(actual), false)
      else Passed
    else Passed
  }

  /**
   * The step editor's default expect (`json` at the empty path, equal to
   * null) fails on every successful response that decodes to anything but
   * null.
   */
  lemma DefaultExpectFails(response: Response, data: Json)
    requires response.statusCode != 401 && response.statusCode != 403
    ensures ValidateExpect(response, data, Expect("json", "", JNull)).NotPassed? <==> !data.JNull?
  {
  }

  // ---------------------------------------------------------------- one step

  /** A new step record: the step's name and status RUNNING. */
  function Started(step: Step): StepResult {
    StepResult(step.name, Running, None, None, false, None, None, None)
  }

  /** The step has a condition to evaluate: present and not empty. */
  predicate HasCondition(step: Step) {
    step.condition.Some? && step.condition.value != ""
  }

  /** The body sent: a dict body rendered, a falsy body not sent at all. */
  function SentBody(body: Option<Json>, vars: Dict<Json>): (r: Option<Json>)
    ensures body.None? || !PyTruthy(body.value) ==> r.None?
    ensures body.Some? && PyTruthy(body.value) && !body.value.JObj? ==> r == body
    ensures body.Some? && body.value.JObj? && body.value.fields != [] ==>
              r.Some? && r.value.JObj? && Keys(r.value.fields) == Keys(body.value.fields)
  {
    if body.Some? && PyTruthy(body.value) then
      if body.value.JObj? then Some(Templating.RenderValue(body.value, vars)) else body
    else None
  }

  /** The request of a step: upper-cased method, rendered url and headers, the sent body. */
  function BuildRequest(step: Step, vars: Dict<Json>): (r: Request)
    ensures Keys(r.headers) == Keys(step.headers)
    ensures r.url == Templating.Render(step.url, vars)
  {
    Request(Strings.Upper(step.httpMethod), Templating.Render(step.url, vars),
            Templating.RenderValue(JObj(step.headers), vars).fields, SentBody(step.body, vars))
  }

  /** The recorded response text: the decoded value's `str()` when it decoded, else the raw text, cut to 500. */
  function RecordedText(response: Response): string {
    if response.json.Some? then Redaction.RedactResponse(PyStr(response.json.value), Redaction.DefaultMaxLength)
    else Redaction.RedactResponse(response.text, Redaction.DefaultMaxLength)
  }

  /** The result of a step, the request it sent (if any) and the variables after it. */
  datatype StepOutcome = StepOutcome(result: StepResult, request: Option<Request>, vars: Dict<Json>)

  /**
   * `_execute_step`: condition, request, recorded response, expect check,
   * extraction, in that order; the first that fails ends the step.
   */
  function ExecStep(idx: nat, step: Step, vars: Dict<Json>, eval: Evaluator, client: Client): (o: StepOutcome)
    ensures o.result.name == step.name
    ensures o.result.status != Running
    ensures o.result.status == Skipped ==> o.request.None?
    ensures o.vars != vars ==> o.result.status == Success
  {
    var r0 := Started(step);
    if HasCondition(step) && eval(step.condition.value, vars) != Ok(true) then
      var e := eval(step.condition.value, vars);
      if e.Err? then StepOutcome(r0.(status := Failed, error := Some(e.error)), None, vars)
      else StepOutcome(r0.(status := Skipped, reason := Some("条件不满足: " + step.condition.value)), None, vars)
    else
      var request := BuildRequest(step, vars);
      var sent := client(idx, request);
      if sent.Err? then StepOutcome(r0.(status := Failed, error := Some(sent.error)), Some(request), vars)
      else
        var response := sent.value;
        var r1 := r0.(statusCode := Some(response.statusCode), headers := Some(Redaction.Redacted(response.headers)),
                      response := Some(RecordedText(response)));
        var data := response.json.GetOr(JNull);
        var check := if step.expectation.Some? then ValidateExpect(response, data, step.expectation.value) else Passed;
        if check.NotPassed? then
          StepOutcome(r1.(status := Failed, error := Some(check.error), authFailed := check.authFailed), Some(request), vars)
        else
          var vars' := if |Rules(step)| > 0 && PyTruthy(data) then Extraction.Extracted(vars, data, Rules(step)) else vars;
          StepOutcome(r1.(status := Success), Some(request), vars')
  }

  /** A condition that evaluates false skips the step before any request, with the condition as the reason. */
  lemma ConditionFalseSkips(idx: nat, step: Step, vars: Dict<Json>, eval: Evaluator, client: Client)
    requires HasCondition(step) && eval(step.condition.value, vars) == Ok(false)
    ensures var o := ExecStep(idx, step, vars, eval, client);
      o.result.status == Skipped && o.request.None? && o.vars == vars &&
      o.result.reason == Some("条件不满足: " + step.condition.value)
  {
  }

  /** A step reports an authentication failure exactly when it has an expect and got 401 or 403. */
  lemma AuthFailureIsUnauthorized(idx: nat, step: Step, vars: Dict<Json>, eval: Evaluator, client: Client)
    ensures var o := ExecStep(idx, step, vars, eval, client);
      o.result.authFailed <==>
        (o.request.Some? && client(idx, o.request.value).Ok? && step.expectation.Some? &&
         (client(idx, o.request.value).value.statusCode == 401 || client(idx, o.request.value).value.statusCode == 403))
    ensures var o := ExecStep(idx, step, vars, eval, client);
      o.result.authFailed ==> o.result.status == Failed
  {
  }

  /**
   * A step that got a response passes its json expect exactly when the value
   * at the path equals the expected value; extraction only follows a pass
   * and only from a truthy decoded body.
   */
  lemma ExpectThenExtract(idx: nat, step: Step, vars: Dict<Json>, eval: Evaluator, client: Client)
    requires !HasCondition(step) || eval(step.condition.value, vars) == Ok(true)
    requires client(idx, BuildRequest(step, vars)).Ok?
    ensures var o := ExecStep(idx, step, vars, eval, client);
      var response := client(idx, BuildRequest(step, vars)).value;
      var data := response.json.GetOr(JNull);
      && (step.expectation.Some? && step.expectation.value.kind == "json" &&
          response.statusCode != 401 && response.statusCode != 403 ==>
            (o.result.status == Failed <==>
               !PyEq(Extraction.JsonPath(data, step.expectation.value.path), step.expectation.value.equals)))
      && (o.result.status == Success && |Rules(step)| > 0 && PyTruthy(data) ==>
            o.vars == Extraction.Extracted(vars, data, Rules(step)))
      && (o.result.status != Success || |Rules(step)| == 0 || !PyTruthy(data) ==> o.vars == vars)
      && o.result.statusCode == Some(response.statusCode)
      && o.result.headers == Some(Redaction.Redacted(response.headers))
  {
  }

  /** The request of a step built as `_execute_step` builds it: the url rendered, headers and a dict body rendered key by key. */
  method PrepareRequest(step: Step, vars: Dict<Json>) returns (request: Request)
    ensures request == BuildRequest(step, vars)
  {
    var url := Templating.Render(step.url, vars);
    var headers := Templating.RenderDict(step.headers, vars);
    assert headers == Templating.RenderValue(JObj(step.headers), vars).fields;
    var body := step.body;
    if body.Some? && PyTruthy(body.value) && body.value.JObj? {
      var rendered := Templating.RenderDict(body.value.fields, vars);
      assert rendered == Templating.RenderValue(body.value, vars).fields;
      body := Some(JObj(rendered));
    }
    var sentBody := if body.Some? && PyTruthy(body.value) then body else None;
    request := Request(Strings.Upper(step.httpMethod), url, headers, sentBody);
  }

  /** `_execute_step` run against a context: the variables change only by extraction. */
  method ExecuteStep(idx: nat, step: Step, context: FlowContexts.FlowContext, eval: Evaluator, client: Client)
    returns (result: StepResult, request: Option<Request>)
    modifies context
    ensures StepOutcome(result, request, context.variables) == ExecStep(idx, step, old(context.variables), eval, client)
  {
    result := Started(step);
    request := None;
    if HasCondition(step) {
      var e := eval(step.condition.value, context.variables);
      if e.Err? {
        result := result.(status := Failed, error := Some(e.error));
        return;
      }
      if !e.value {
        result := result.(status := Skipped, reason := Some("条件不满足: " + step.condition.value));
        return;
      }
    }
    var prepared := PrepareRequest(step, context.variables);
    request := Some(prepared);
    var sent := client(idx, request.value);
    if sent.Err? {
      result := result.(status := Failed, error := Some(sent.error));
      return;
    }
    var response := sent.value;
    var recordedHeaders := Redaction.RedactHeaders(response.headers);
    result := result.(statusCode := Some(response.statusCode), headers := Some(recordedHeaders));
    var data := JNull;
    if response.json.Some? {
      data := response.json.value;
      result := result.(response := Some(Redaction.RedactResponse(PyStr(data), Redaction.DefaultMaxLength)));
    } else {
      result := result.(response := Some(Redaction.RedactResponse(response.text, Redaction.DefaultMaxLength)));
    }
    if step.expectation.Some? {
      var check := ValidateExpect(response, data, step.expectation.value);
      if check.NotPassed? {
        result := result.(status := Failed, error := Some(check.error), authFailed := check.authFailed);
        return;
      }
    }
    if |Rules(step)| > 0 && PyTruthy(data) {
      Extraction.ExtractVariables(data, Rules(step), context);
    }
    result := result.(status := Success);
  }

  // ---------------------------------------------------------------- the flow

  /** A status that ends the run. */
  predicate Stops(s: Status) {
    s == Skipped || s == Failed
  }

  /** The results of running `flow` from position `i`: one per step run, up to and including the first that stops. */
  function RunFrom(flow: seq<Step>, i: nat, vars: Dict<Json>, eval: Evaluator, client: Client): (r: seq<StepResult>)
    ensures |r| == 0 <==> i >= |flow|
    ensures i <= |flow| ==> |r| <= |flow| - i
    decreases |flow| - i
  {
    if i >= |flow| then []
    else
      var o := ExecStep(i, flow[i], vars, eval, client);
      if Stops(o.result.status) then [o.result]
      else [o.result] + RunFrom(flow, i + 1, o.vars, eval, client)
  }

  /** The loop step of `execute_flow`: the results so far, plus one step, plus the rest, are still the whole run. */
  lemma RunFromAppend(flow: seq<Step>, i: nat, vars: Dict<Json>, eval: Evaluator, client: Client,
                      done: seq<StepResult>, whole: seq<StepResult>)
    requires i < |flow|
    requires done + RunFrom(flow, i, vars, eval, client) == whole
    ensures var o := ExecStep(i, flow[i], vars, eval, client);
      if Stops(o.result.status) then done + [o.result] == whole
      else (done + [o.result]) + RunFrom(flow, i + 1, o.vars, eval, client) == whole
  {
    var o := ExecStep(i, flow[i], vars, eval, client);
    if !Stops(o.result.status) {
      assert done + ([o.result] + RunFrom(flow, i + 1, o.vars, eval, client)) == whole;
    }
  }

  /** The status of a finished run: that of the step that stopped it, SUCCESS when none did. */
  function FlowStatus(results: seq<StepResult>): (r: Status)
    ensures r != Running
    ensures r == Success || (|results| > 0 && r == results[|results| - 1].status)
  {
    if |results| > 0 && Stops(results[|results| - 1].status) then results[|results| - 1].status else Success
  }

  /** The summary of a finished run. */
  function Summary(results: seq<StepResult>): (r: string)
    ensures r == "所有步骤执行成功" <==> FlowStatus(results) == Success
  {
    if |results| > 0 && results[|results| - 1].status == Skipped then
      var t := "步骤 " + results[|results| - 1].name + " 被跳过: " + results[|results| - 1].reason.GetOr("");
      assert t[0] == '步';
      t
    else if |results| > 0 && results[|results| - 1].status == Failed then
      var t := "步骤 " + results[|results| - 1].name + " 失败: " + results[|results| - 1].error.GetOr("");
      assert t[0] == '步';
      t
    else "所有步骤执行成功"
  }

  /** Whether a finished run failed on authentication: only the stopping step can say so. */
  function RunAuthFailed(results: seq<StepResult>): bool {
    |results| > 0 && results[|results| - 1].status == Failed && results[|results| - 1].authFailed
  }

  /**
   * The shape of a run: steps run in document order, one result each, every
   * result but the last a success, and a run shorter than the flow ends on
   * a step that stopped it.
   */
  lemma RunShape(flow: seq<Step>, i: nat, vars: Dict<Json>, eval: Evaluator, client: Client)
    requires i <= |flow|
    ensures var r := RunFrom(flow, i, vars, eval, client);
      && |r| <= |flow| - i
      && (forall k :: 0 <= k < |r| ==> r[k].name == flow[i + k].name && r[k].status != Running)
      && (forall k :: 0 <= k < |r| - 1 ==> r[k].status == Success)
      && (|r| < |flow| - i ==> |r| > 0 && Stops(r[|r| - 1].status))
  {
    RunShaped(flow, i, vars, eval, client);
    var r := RunFrom(flow, i, vars, eval, client);
    forall k | 0 <= k < |r|
      ensures r[k].name == flow[i + k].name
    {
      assert flow[i..][k] == flow[i + k];
    }
  }

  /**
   * The shape of a run of `steps`: at most one result per step, named after
   * it in order and none still running, every one but the last a success,
   * and a run cut short ends with the step that stopped it.
   */
  predicate Shaped(r: seq<StepResult>, steps: seq<Step>) {
    && |r| <= |steps|
    && (forall k :: 0 <= k < |r| ==> r[k].name == steps[k].name && r[k].status != Running)
    && (forall k :: 0 <= k < |r| - 1 ==> r[k].status == Success)
    && (|r| < |steps| ==> |r| > 0 && Stops(r[|r| - 1].status))
  }

  /** A run is shaped: proved one step at a time. */
  lemma {:induction false} RunShaped(flow: seq<Step>, i: nat, vars: Dict<Json>, eval: Evaluator, client: Client)
    requires i <= |flow|
    ensures Shaped(RunFrom(flow, i, vars, eval, client), flow[i..])
    decreases |flow| - i
  {
    if i < |flow| {
      var o := ExecStep(i, flow[i], vars, eval, client);
      if Stops(o.result.status) {
        StopShaped(o.result, flow[i..]);
      } else {
        RunShaped(flow, i + 1, o.vars, eval, client);
        assert flow[i..][1..] == flow[i + 1..];
        ConsShaped(o.result, RunFrom(flow, i + 1, o.vars, eval, client), flow[i..]);
      }
    }
  }

  /** A step that stops the run is a shaped run on its own. */
  lemma StopShaped(x: StepResult, steps: seq<Step>)
    requires |steps| > 0 && x.name == steps[0].name && Stops(x.status)
    ensures Shaped([x], steps)
  {
  }

  /** A successful step in front of a shaped run of the remaining steps is a shaped run. */
  lemma ConsShaped(x: StepResult, rest: seq<StepResult>, steps: seq<Step>)
    requires |steps| > 0 && x.name == steps[0].name && x.status != Running && !Stops(x.status)
    requires Shaped(rest, steps[1..])
    ensures Shaped([x] + rest, steps)
  {
    var r := [x] + rest;
    forall k | 1 <= k < |r|
      ensures r[k].name == steps[k].name && r[k].status != Running
    {
      assert r[k] == rest[k - 1] && steps[1..][k - 1] == steps[k];
    }
    forall k | 1 <= k < |r| - 1
      ensures r[k].status == Success
    {
      assert r[k] == rest[k - 1];
    }
    if |rest| > 0 {
      assert r[|r| - 1] == rest[|rest| - 1];
    }
  }

  /** A run succeeds exactly when no step was skipped or failed, and then every step ran. */
  lemma SuccessIffNoStop(flow: seq<Step>, vars: Dict<Json>, eval: Evaluator, client: Client)
    ensures var r := RunFrom(flow, 0, vars, eval, client);
      (FlowStatus(r) == Success <==> forall k :: 0 <= k < |r| ==> !Stops(r[k].status))
      && (FlowStatus(r) == Success ==> |r| == |flow|)
      && FlowStatus(r) != Running
  {
    RunShape(flow, 0, vars, eval, client);
  }

  /** The empty flow succeeds with no step results. */
  lemma EmptyFlowSucceeds(vars: Dict<Json>, eval: Evaluator, client: Client)
    ensures RunFrom([], 0, vars, eval, client) == []
    ensures FlowStatus([]) == Success && !RunAuthFailed([]) && Summary([]) == "所有步骤执行成功"
  {
  }

  /** The result of a flow run, filled in as the steps run. */
  class FlowResult {
    var status: Status
    var steps: seq<StepResult>
    var authFailed: bool
    var summary: string

    constructor ()
      ensures status == Running && steps == [] && !authFailed && summary == ""
    {
      status := Running;
      steps := [];
      authFailed := false;
      summary := "";
    }
  }

  /** The stopping step's status and message become the flow's, and an authentication failure is passed on. */
  method RecordStop(res: FlowResult, name: string, stepResult: StepResult)
    requires |res.steps| > 0 && res.steps[|res.steps| - 1] == stepResult
    requires Stops(stepResult.status) && name == stepResult.name
    requires !res.authFailed
    modifies res
    ensures res.steps == old(res.steps)
    ensures res.status == FlowStatus(res.steps) && res.summary == Summary(res.steps)
    ensures res.authFailed == RunAuthFailed(res.steps)
  {
    if stepResult.status == Skipped {
      res.status := Skipped;
      res.summary := "步骤 " + name + " 被跳过: " + stepResult.reason.GetOr("");
    } else {
      res.status := Failed;
      res.summary := "步骤 " + name + " 失败: " + stepResult.error.GetOr("");
      if stepResult.authFailed {
        res.authFailed := true;
      }
    }
  }

  /** A run in which no step stopped succeeds, with the success summary and no authentication failure. */
  lemma NoStopSucceeds(steps: seq<StepResult>)
    requires forall k :: 0 <= k < |steps| ==> !Stops(steps[k].status)
    ensures FlowStatus(steps) == Success && Summary(steps) == "所有步骤执行成功" && !RunAuthFailed(steps)
  {
  }

  /**
   * One iteration of the loop of `execute_flow`: the step is run and its
   * result appended; a step that stops the run also sets the flow's status,
   * summary and authentication failure.
   */
  method RunStep(flow: seq<Step>, i: nat, context: FlowContexts.FlowContext, res: FlowResult,
                 eval: Evaluator, client: Client, ghost whole: seq<StepResult>) returns (stop: bool)
    requires i < |flow|
    requires res.status == Running && !res.authFailed && res.summary == ""
    requires res.steps + RunFrom(flow, i, context.variables, eval, client) == whole
    requires forall k :: 0 <= k < |res.steps| ==> !Stops(res.steps[k].status)
    modifies context, res
    ensures stop ==> res.steps == whole && res.status == FlowStatus(whole)
    ensures stop ==> res.summary == Summary(whole) && res.authFailed == RunAuthFailed(whole)
    ensures !stop ==> res.status == Running && !res.authFailed && res.summary == ""
    ensures !stop ==> res.steps + RunFrom(flow, i + 1, context.variables, eval, client) == whole
    ensures !stop ==> forall k :: 0 <= k < |res.steps| ==> !Stops(res.steps[k].status)
  {
    RunFromAppend(flow, i, context.variables, eval, client, res.steps, whole);
    var stepResult, _ := ExecuteStep(i, flow[i], context, eval, client);
    res.steps := res.steps + [stepResult];
    stop := Stops(stepResult.status);
    if stop {
      RecordStop(res, flow[i].name, stepResult);
    }
  }

  /** The step loop of `execute_flow`, run on a prepared context. */
  method RunSteps(flow: seq<Step>, context: FlowContexts.FlowContext, eval: Evaluator, client: Client)
    returns (res: FlowResult)
    modifies context
    ensures fresh(res)
    ensures res.steps == RunFrom(flow, 0, old(context.variables), eval, client)
    ensures res.status == FlowStatus(res.steps) && res.summary == Summary(res.steps)
    ensures res.authFailed == RunAuthFailed(res.steps)
  {
    res := new FlowResult();
    ghost var whole := RunFrom(flow, 0, context.variables, eval, client);
    var i := 0;
    while i < |flow|
      invariant 0 <= i <= |flow|
      invariant res.status == Running && !res.authFailed && res.summary == ""
      invariant res.steps + RunFrom(flow, i, context.variables, eval, client) == whole
      invariant forall k :: 0 <= k < |res.steps| ==> !Stops(res.steps[k].status)
    {
      var stop := RunStep(flow, i, context, res, eval, client, whole);
      if stop {
        break;
      }
      i := i + 1;
    }
    if res.status == Running {
      RecordSuccess(res);
    }
  }

  /** A run that no step stopped ends with SUCCESS and the success summary. */
  method RecordSuccess(res: FlowResult)
    requires !res.authFailed
    requires forall k :: 0 <= k < |res.steps| ==> !Stops(res.steps[k].status)
    modifies res
    ensures res.steps == old(res.steps) && !res.authFailed
    ensures res.status == FlowStatus(res.steps) && res.summary == Summary(res.steps)
    ensures res.authFailed == RunAuthFailed(res.steps)
  {
    res.status := Success;
    res.summary := "所有步骤执行成功";
    NoStopSucceeds(res.steps);
  }

  /**
   * `execute_flow`: `None` when setting up the context raises; otherwise the
   * results of running the steps from the token the context starts with.
   */
  method ExecuteFlow(flow: seq<Step>, auth: Dict<Json>, decrypt: (Json, Json) -> Option<string>,
                     getenv: string -> Option<string>, eval: Evaluator, client: Client)
    returns (result: Option<FlowResult>)
    ensures result.None? <==> FlowContexts.InitialVariables(auth, decrypt, getenv).None?
    ensures result.Some? ==>
      var r := RunFrom(flow, 0, FlowContexts.InitialVariables(auth, decrypt, getenv).value, eval, client);
      && fresh(result.value)
      && result.value.steps == r
      && result.value.status == FlowStatus(r)
      && result.value.summary == Summary(r)
      && result.value.authFailed == RunAuthFailed(r)
  {
    var initial := FlowContexts.InitialVariables(auth, decrypt, getenv);
    if initial.None? {
      return None;
    }
    var context := new FlowContexts.FlowContext(auth, initial.value);
    var res := RunSteps(flow, context, eval, client);
    return Some(res);
  }
}
