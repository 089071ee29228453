/**
 * The worker: runs one site's flow and records the outcome on a new run
 * record and on the site. The flow engine's outside world (decryption,
 * environment, condition evaluator, HTTP client) is passed through; `crash`
 * is the text of the exception raised when the flow cannot start, and
 * `finishedAt` the clock reading when it ends.
 */
module Worker {
  import opened Wrappers
  import opened Dicts
  import opened JsonValues
  import opened FlowEngine
  import FlowContexts
  import Sites
  import Steps

  /** The reply of `run_site`. */
  datatype Reply =
    | NotFound                  // `{'status': 'error', 'message': 'Site not found'}`
    | Inactive                  // `{'status': 'skipped', 'message': 'Site is disabled or paused'}`
    | Completed(runId: string, runStatus: Status)
    | Crashed(message: string)  // `{'status': 'error', 'message': str(e)}`

  /** The webhook notification about a failed run. */
  datatype Payload = Payload(siteId: string, siteName: string, runId: string, status: Status, authFailed: bool,
                             summary: string, startedAt: int, finishedAt: int)

  /**
   * `run_site`. `commits` lists the run's status at each commit of the
   * session: RUNNING before the flow executes, then the final status.
   * `notification` is the payload posted to the webhook, if one is, and
   * `runId` the key the database gives the new run.
   */
  method RunSite(site: Option<Sites.Site>, runId: string, now: int, finishedAt: int, crash: string, webhookUrl: string,
                 decrypt: (Json, Json) -> Option<string>, getenv: string -> Option<string>,
                 eval: Evaluator, client: Client)
    returns (reply: Reply, run: Option<Sites.Run>, commits: seq<Status>, notification: Option<Payload>)
    modifies if site.Some? then {site.value} else {}
    ensures site.None? ==> reply == NotFound && run.None? && commits == [] && notification.None?
    ensures site.Some? && (!old(site.value.enabled) || old(site.value.paused)) ==>
              reply == Inactive && run.None? && commits == [] && notification.None? && unchanged(site.value)
    ensures site.Some? && old(site.value.enabled) && !old(site.value.paused) ==>
      var s := site.value;
      var initial := FlowContexts.InitialVariables(old(s.auth).GetOr([]), decrypt, getenv);
      && run.Some? && fresh(run.value)
      && run.value.id == runId && run.value.siteId == s.id && run.value.startedAt == now && run.value.finishedAt == Some(finishedAt)
      && commits == [Running, run.value.status]
      && (initial.None? ==>
            && run.value.status == Failed
            && run.value.summary == Some("执行异常: " + crash)
            && run.value.steps.None? && !run.value.authFailed
            && reply == Crashed(crash) && notification.None?
            && unchanged(s))
      && (initial.Some? ==>
            var r := RunFrom(old(s.flow).GetOr([]), 0, initial.value, eval, client);
            && run.value.status == FlowStatus(r)
            && run.value.summary == Some(Summary(r))
            && run.value.steps == Some(r)
            && run.value.authFailed == RunAuthFailed(r)
            && s.lastRunAt == Some(finishedAt)
            && s.lastRunStatus == Some(FlowStatus(r))
            && s.paused == RunAuthFailed(r)
            && s.enabled && s.name == old(s.name) && s.auth == old(s.auth) && s.flow == old(s.flow)
            && s.schedule == old(s.schedule)
            && reply == Completed(runId, FlowStatus(r))
            && notification ==
                 (if FlowStatus(r) == Failed && webhookUrl != "" then
                    Some(Payload(s.id, s.name, runId, Failed, RunAuthFailed(r), Summary(r), now, finishedAt))
                  else None))
  {
    run := None;
    commits := [];
    notification := None;
    if site.None? {
      return NotFound, run, commits, notification;
    }
    var s := site.value;
    if !s.enabled || s.paused {
      return Inactive, run, commits, notification;
    }
    var r := new Sites.Run(runId, s.id, now);
    run := Some(r);
    commits := commits + [r.status];
    var flowResult := ExecuteFlow(s.flow.GetOr([]), s.auth.GetOr([]), decrypt, getenv, eval, client);
    if flowResult.None? {
      r.status := Failed;
      r.finishedAt := Some(finishedAt);
      r.summary := Some("执行异常: " + crash);
      commits := commits + [r.status];
      return Crashed(crash), run, commits, notification;
    }
    var fr := flowResult.value;
    RecordOutcome(s, r, fr, finishedAt);
    commits := commits + [r.status];
    if r.status == Failed {
      notification := SendNotification(webhookUrl, s, r);
    }
    reply := Completed(r.id, r.status);
  }

  /** The updates `run_site` makes once the flow has run: the run takes the flow's outcome, the site its status. */
  method RecordOutcome(site: Sites.Site, run: Sites.Run, result: FlowResult, finishedAt: int)
    modifies site, run
    ensures run.status == result.status && run.finishedAt == Some(finishedAt) && run.summary == Some(result.summary)
    ensures run.steps == Some(result.steps) && run.authFailed == result.authFailed
    ensures site.lastRunAt == Some(finishedAt) && site.lastRunStatus == Some(result.status)
    ensures site.paused == (old(site.paused) || result.authFailed)
    ensures site.enabled == old(site.enabled) && site.name == old(site.name) && site.auth == old(site.auth)
    ensures site.flow == old(site.flow) && site.schedule == old(site.schedule)
  {
    run.status := result.status;
    run.finishedAt := Some(finishedAt);
    run.summary := Some(result.summary);
    run.steps := Some(result.steps);
    run.authFailed := result.authFailed;
    site.lastRunAt := run.finishedAt;
    site.lastRunStatus := Some(run.status);
    if result.authFailed {
      site.paused := true;
    }
  }

  /** `_send_notification`: nothing without a webhook URL, otherwise the run's payload. */
  method SendNotification(webhookUrl: string, site: Sites.Site, run: Sites.Run) returns (payload: Option<Payload>)
    requires run.finishedAt.Some?
    ensures webhookUrl == "" ==> payload.None?
    ensures webhookUrl != "" ==>
      payload == Some(Payload(site.id, site.name, run.id, run.status, run.authFailed, run.summary.GetOr(""),
                              run.startedAt, run.finishedAt.value))
  {
    if webhookUrl == "" {
      return None;
    }
    return Some(Payload(site.id, site.name, run.id, run.status, run.authFailed, run.summary.GetOr(""),
                        run.startedAt, run.finishedAt.value));
  }

  /**
   * A flow run never leaves the status RUNNING behind, and its status is
   * one of SUCCESS, FAILED and SKIPPED, so the worker's AUTH_FAILED test
   * can never hold and a notification follows exactly the FAILED runs.
   */
  lemma RunStatusSettled(flow: seq<Steps.Step>, vars: Dict<Json>, eval: Evaluator, client: Client)
    ensures var st := FlowStatus(RunFrom(flow, 0, vars, eval, client));
      st == Success || st == Failed || st == Skipped
  {
    SuccessIffNoStop(flow, vars, eval, client);
  }

  /** An authentication failure is always a failed run: the site is paused only after a FAILED run. */
  lemma AuthFailureIsFailure(flow: seq<Steps.Step>, vars: Dict<Json>, eval: Evaluator, client: Client)
    ensures var r := RunFrom(flow, 0, vars, eval, client);
      RunAuthFailed(r) ==> FlowStatus(r) == Failed
  {
  }
}
