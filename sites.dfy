/**
 * The stored records the worker and the scheduler update: a site (its
 * authentication, flow and schedule, and the outcome of its last run) and
 * one run of its flow. Times are integer seconds.
 */
module Sites {
  import opened Wrappers
  import opened Dicts
  import opened JsonValues
  import Steps
  import FlowEngine

  class Site {
    const id: string
    var name: string
    var enabled: bool
    var paused: bool
    var auth: Option<Dict<Json>>
    var flow: Option<seq<Steps.Step>>
    var schedule: Option<Dict<Json>>
    var lastRunAt: Option<int>
    var lastRunStatus: Option<FlowEngine.Status>

    /** A new site: enabled, not paused, never run. */
    constructor (id: string, name: string, auth: Option<Dict<Json>>, flow: Option<seq<Steps.Step>>,
                 schedule: Option<Dict<Json>>)
      ensures this.id == id && this.name == name && enabled && !paused
      ensures this.auth == auth && this.flow == flow && this.schedule == schedule
      ensures lastRunAt.None? && lastRunStatus.None?
    {
      this.id := id;
      this.name := name;
      enabled := true;
      paused := false;
      this.auth := auth;
      this.flow := flow;
      this.schedule := schedule;
      lastRunAt := None;
      lastRunStatus := None;
    }
  }

  class Run {
    /** The key the database assigns when the run is first committed. */
    const id: string
    const siteId: string
    const startedAt: int
    var status: FlowEngine.Status
    var finishedAt: Option<int>
    var summary: Option<string>
    var steps: Option<seq<FlowEngine.StepResult>>
    var authFailed: bool

    /** A run record as committed before the flow executes: RUNNING, nothing else known. */
    constructor (id: string, siteId: string, startedAt: int)
      ensures this.id == id && this.siteId == siteId && this.startedAt == startedAt
      ensures status == FlowEngine.Running && finishedAt.None? && summary.None? && steps.None? && !authFailed
    {
      this.id := id;
      this.siteId := siteId;
      this.startedAt := startedAt;
      status := FlowEngine.Running;
      finishedAt := None;
      summary := None;
      steps := None;
      authFailed := false;
    }
  }
}
