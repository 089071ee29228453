/**
 * The scheduler: one job per enabled, unpaused site, keyed `site_{id}`. A
 * daily schedule becomes a one-off job at the next occurrence of its time
 * of day, delayed by a random number of seconds, and is scheduled again
 * after each run; a cron schedule becomes a recurring job. The job table
 * is a map from job id to job; `cronValid` says which crontab expressions
 * the trigger accepts. Times are integer seconds of local time.
 */
module Scheduling {
  import opened Wrappers
  import opened Dicts
  import opened JsonValues
  import FlowEngine
  import Sites
  import Worker

  const DaySeconds: int := 86400

  datatype Trigger = At(runAt: int) | Cron(expr: string)

  datatype Job = Job(siteId: string, trigger: Trigger)

  /** The id of a site's job. */
  function JobId(siteId: string): string {
    "site_" + siteId
  }

  lemma JobIdInjective(a: string, b: string)
    requires JobId(a) == JobId(b)
    ensures a == b
  {
    assert a == JobId(a)[5..] && b == JobId(b)[5..];
  }

  /** `site.schedule or {}`. */
  function ScheduleOf(schedule: Option<Dict<Json>>): Dict<Json> {
    schedule.GetOr([])
  }

  /** The schedule type, `dailyAfter` when missing. */
  function ScheduleType(schedule: Dict<Json>): Json {
    Get(schedule, "type").GetOr(JStr("dailyAfter"))
  }

  /** A value Python accepts as an `int`: a number, or a boolean as 0 or 1. */
  function AsPyInt(j: Json): (r: Option<int>)
    ensures j.JNum? ==> r == Some(j.n)
    ensures !j.JNum? && !j.JBool? ==> r.None?
  {
    match j
    case JNum(n) => Some(n)
    case JBool(b) => Some(if b then 1 else 0)
    case _ => None
  }

  /** A time of day `datetime.replace` accepts. */
  predicate ValidTime(hour: Json, minute: Json) {
    AsPyInt(hour).Some? && 0 <= AsPyInt(hour).value < 24 && AsPyInt(minute).Some? && 0 <= AsPyInt(minute).value < 60
  }

  /** The first moment strictly after `now` at `hour:minute`. */
  function NextSlot(now: int, hour: int, minute: int): (r: int)
    requires 0 <= hour < 24 && 0 <= minute < 60
  {
    var today := now - now % DaySeconds + hour * 3600 + minute * 60;
    if today <= now then today + DaySeconds else today
  }

  /** The slot lies within the next day and falls at the requested time of day. */
  lemma NextSlotBounds(now: int, hour: int, minute: int)
    requires 0 <= hour < 24 && 0 <= minute < 60
    ensures now < NextSlot(now, hour, minute) <= now + DaySeconds
    ensures NextSlot(now, hour, minute) % DaySeconds == hour * 3600 + minute * 60
  {
    var x := hour * 3600 + minute * 60;
    var q := now / DaySeconds;
    assert now - now % DaySeconds == DaySeconds * q;
    TimeOfDay(q, x);
    TimeOfDay(q + 1, x);
  }

  /** A moment `x` seconds into day `q` is at time of day `x`. */
  lemma TimeOfDay(q: int, x: int)
    requires 0 <= x < DaySeconds
    ensures (DaySeconds * q + x) % DaySeconds == x
  {
    var n := DaySeconds * q + x;
    var t := n / DaySeconds;
    assert DaySeconds * (t - q) == x - n % DaySeconds;
  }

  /**
   * `_compute_next_daily_run`: the next `hour:minute` after `now`, plus a
   * random delay of up to `randomDelaySeconds` when that is positive.
   * `None` when the time of day or the delay is rejected (the call raises).
   */
  method ComputeNextDailyRun(now: int, hour: Json, minute: Json, randomDelaySeconds: Json)
    returns (nextRun: Option<int>)
    ensures nextRun.Some? <==> ValidTime(hour, minute) && AsPyInt(randomDelaySeconds).Some?
    ensures nextRun.Some? ==>
      var slot := NextSlot(now, AsPyInt(hour).value, AsPyInt(minute).value);
      var d := AsPyInt(randomDelaySeconds).value;
      slot <= nextRun.value <= slot + (if d > 0 then d else 0)
  {
    if !ValidTime(hour, minute) {
      return None;
    }
    var h := AsPyInt(hour).value;
    var m := AsPyInt(minute).value;
    var next := now - now % DaySeconds + h * 3600 + m * 60;
    if next <= now {
      next := next + DaySeconds;
    }
    var d := AsPyInt(randomDelaySeconds);
    if d.None? {
      return None;
    }
    if d.value > 0 {
      var delay :| 0 <= delay <= d.value;
      next := next + delay;
    }
    return Some(next);
  }

  /** A daily schedule whose settings (hour 8, minute 5, no delay by default) are accepted. */
  predicate DailyAccepted(schedule: Dict<Json>) {
    ValidTime(Get(schedule, "hour").GetOr(JNum(8)), Get(schedule, "minute").GetOr(JNum(5)))
    && AsPyInt(Get(schedule, "randomDelaySeconds").GetOr(JNum(0))).Some?
  }

  /** The crontab expression of a cron schedule, `0 8 * * *` by default. */
  function CronExpression(schedule: Dict<Json>): Json {
    Get(schedule, "cron").GetOr(JStr("0 8 * * *"))
  }

  /** The guard of `_reschedule_site` as written: the type must be present and equal `dailyAfter`. */
  predicate RescheduleGuardAsWritten(schedule: Option<Dict<Json>>) {
    Get(ScheduleOf(schedule), "type") == Some(JStr("dailyAfter"))
  }

  /** The guard as intended: the schedule is daily by the same default `schedule_site` applies. */
  predicate RescheduleGuard(schedule: Option<Dict<Json>>) {
    ScheduleType(ScheduleOf(schedule)) == JStr("dailyAfter")
  }

  /**
   * A site with no schedule, or a schedule without a type, is scheduled as
   * a daily site but never scheduled again by the guard as written.
   */
  lemma DefaultDailyNeverRescheduled()
    ensures ScheduleType(ScheduleOf(None)) == JStr("dailyAfter") && DailyAccepted(ScheduleOf(None))
    ensures !RescheduleGuardAsWritten(None) && !RescheduleGuardAsWritten(Some([("hour", JNum(9))]))
    ensures RescheduleGuard(None) && RescheduleGuard(Some([("hour", JNum(9))]))
  {
  }

  /** The intended guard admits exactly the schedules `schedule_site` treats as daily. */
  lemma RescheduleGuardIsDaily(schedule: Option<Dict<Json>>)
    ensures RescheduleGuard(schedule) <==> ScheduleType(ScheduleOf(schedule)) == JStr("dailyAfter")
    ensures RescheduleGuardAsWritten(schedule) ==> RescheduleGuard(schedule)
  {
  }

  class Scheduler {
    var jobs: map<string, Job>

    /** Every job is filed under its site's job id, so a site has at most one job. */
    ghost predicate Valid()
      reads this
    {
      forall k :: k in jobs ==> k == JobId(jobs[k].siteId)
    }

    constructor ()
      ensures Valid() && jobs == map[]
    {
      jobs := map[];
    }

    /** At most one job per site. */
    lemma OneJobPerSite(k1: string, k2: string)
      requires Valid() && k1 in jobs && k2 in jobs && jobs[k1].siteId == jobs[k2].siteId
      ensures k1 == k2
    {
    }

    /**
     * `schedule_site`: nothing for a disabled or paused site; otherwise the
     * site's old job is removed and a new one added for a daily or cron
     * schedule. `ok` is false when building the new job raises, which then
     * leaves the site without a job.
     */
    method ScheduleSite(site: Sites.Site, now: int, cronValid: string -> bool) returns (ok: bool)
      requires Valid()
      modifies this
      ensures Valid()
      ensures !site.enabled || site.paused ==> ok && jobs == old(jobs)
      ensures site.enabled && !site.paused ==>
        var id := JobId(site.id);
        var schedule := ScheduleOf(site.schedule);
        && jobs - {id} == old(jobs) - {id}
        && (ScheduleType(schedule) == JStr("dailyAfter") ==>
              (ok <==> DailyAccepted(schedule))
              && (ok <==> id in jobs)
              && (ok ==> jobs[id].siteId == site.id && jobs[id].trigger.At?
                         && var slot := NextSlot(now, AsPyInt(Get(schedule, "hour").GetOr(JNum(8))).value,
                                                 AsPyInt(Get(schedule, "minute").GetOr(JNum(5))).value);
                            var d := AsPyInt(Get(schedule, "randomDelaySeconds").GetOr(JNum(0))).value;
                            slot <= jobs[id].trigger.runAt <= slot + (if d > 0 then d else 0)))
        && (ScheduleType(schedule) == JStr("cron") ==>
              (ok <==> CronExpression(schedule).JStr? && cronValid(CronExpression(schedule).s))
              && (ok <==> id in jobs)
              && (ok ==> jobs[id] == Job(site.id, Cron(CronExpression(schedule).s))))
        && (ScheduleType(schedule) != JStr("dailyAfter") && ScheduleType(schedule) != JStr("cron") ==>
              ok && id !in jobs)
    {
      if !site.enabled || site.paused {
        return true;
      }
      var schedule := ScheduleOf(site.schedule);
      var scheduleType := ScheduleType(schedule);
      var id := JobId(site.id);
      if id in jobs {
        jobs := jobs - {id};
      }
      if scheduleType == JStr("dailyAfter") {
        var hour := Get(schedule, "hour").GetOr(JNum(8));
        var minute := Get(schedule, "minute").GetOr(JNum(5));
        var randomDelaySeconds := Get(schedule, "randomDelaySeconds").GetOr(JNum(0));
        var nextRun := ComputeNextDailyRun(now, hour, minute, randomDelaySeconds);
        if nextRun.None? {
          return false;
        }
        jobs := jobs[id := Job(site.id, At(nextRun.value))];
      } else if scheduleType == JStr("cron") {
        var cronExpr := CronExpression(schedule);
        if !cronExpr.JStr? || !cronValid(cronExpr.s) {
          return false;
        }
        jobs := jobs[id := Job(site.id, Cron(cronExpr.s))];
      }
      return true;
    }

    /** `unschedule_site`: the site's job is removed if there is one. */
    method UnscheduleSite(siteId: string)
      requires Valid()
      modifies this
      ensures Valid()
      ensures jobs == old(jobs) - {JobId(siteId)}
    {
      var id := JobId(siteId);
      if id in jobs {
        jobs := jobs - {id};
      }
    }

    /**
     * `_reschedule_site` with the corrected guard `RescheduleGuard`, where a
     * missing type counts as daily as it does in `schedule_site`: an enabled,
     * unpaused daily site is scheduled again; anything else is left alone.
     * The guard as written is `RescheduleGuardAsWritten`.
     */
    method RescheduleSite(site: Option<Sites.Site>, now: int, cronValid: string -> bool) returns (ok: bool)
      requires Valid()
      modifies this
      ensures Valid()
      ensures !(site.Some? && site.value.enabled && !site.value.paused && RescheduleGuard(site.value.schedule)) ==>
                ok && jobs == old(jobs)
      ensures site.Some? && site.value.enabled && !site.value.paused && RescheduleGuard(site.value.schedule) ==>
                var id := JobId(site.value.id);
                && jobs - {id} == old(jobs) - {id}
                && (ok <==> DailyAccepted(ScheduleOf(site.value.schedule)))
                && (ok <==> id in jobs && jobs[id].trigger.At?)
    {
      ok := true;
      if site.Some? && site.value.enabled && !site.value.paused {
        if ScheduleType(ScheduleOf(site.value.schedule)) == JStr("dailyAfter") {
          ok := ScheduleSite(site.value, now, cronValid);
        }
      }
    }

    /**
     * `_run_site_job`: the job that fired runs the site through the worker
     * and is then rescheduled by `RescheduleSite`, with the corrected guard.
     * A daily job has fired for good and leaves the table first; a cron job
     * stays.
     */
    method RunSiteJob(siteId: string, site: Option<Sites.Site>, runId: string, now: int, finishedAt: int, crash: string,
                      webhookUrl: string, decrypt: (Json, Json) -> Option<string>,
                      getenv: string -> Option<string>, eval: FlowEngine.Evaluator, client: FlowEngine.Client,
                      cronValid: string -> bool)
      returns (reply: Worker.Reply)
      requires Valid()
      requires site.Some? ==> site.value.id == siteId
      modifies this, if site.Some? then {site.value} else {}
      ensures Valid()
      ensures jobs - {JobId(siteId)} == old(jobs) - {JobId(siteId)}
      ensures site.Some? && site.value.paused && JobId(siteId) in old(jobs) && old(jobs)[JobId(siteId)].trigger.At? ==>
                JobId(siteId) !in jobs
      ensures site.Some? && site.value.enabled && !site.value.paused && RescheduleGuard(site.value.schedule)
              && DailyAccepted(ScheduleOf(site.value.schedule)) ==>
                JobId(siteId) in jobs && jobs[JobId(siteId)].trigger.At?
    {
      var id := JobId(siteId);
      if id in jobs && jobs[id].trigger.At? {
        jobs := jobs - {id};
      }
      var run, commits, notification;
      reply, run, commits, notification := Worker.RunSite(site, runId, now, finishedAt, crash, webhookUrl,
                                                          decrypt, getenv, eval, client);
      var _ := RescheduleSite(site, now, cronValid);
    }
  }
}
