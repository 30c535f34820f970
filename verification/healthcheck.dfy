/**
 * Liveness of the scheduled tasks. Each background task (abandoned-grid check, node check,
 * teardown) records when it last ran; the health report calls a task alive when that time
 * is within a staleness budget of `now`.
 */
module Healthcheck {
  import opened Wrappers
  import Utils

  /** The `scheduled_tasks` part of `get_healthcheck()`. */
  datatype ScheduledTasks = ScheduledTasks(abandonedCheck: string, nodeCheck: string, teardownCheck: string)

  /** The task has run, and no more than `budget` seconds ago. A task that never ran is stale. */
  predicate RanRecently(lastRun: Option<int>, now: int, budget: int) {
    lastRun.Some? && now - lastRun.value <= budget
  }

  /** "PASS" for a task that ran recently, "FAIL" otherwise; never "UNKNOWN". */
  function TaskStatus(lastRun: Option<int>, now: int, budget: int): (r: string)
    ensures r == "PASS" <==> RanRecently(lastRun, now, budget)
    ensures r == "FAIL" <==> !RanRecently(lastRun, now, budget)
  {
    Utils.PassFail(Some(RanRecently(lastRun, now, budget)))
  }

  /** Each of the three checks is judged on its own timestamp only. */
  function ScheduledTasksStatus(abandonedGrid: Option<int>, checkNodes: Option<int>, teardown: Option<int>,
                                now: int, budget: int): (r: ScheduledTasks)
    ensures r.abandonedCheck == "PASS" <==> RanRecently(abandonedGrid, now, budget)
    ensures r.nodeCheck == "PASS" <==> RanRecently(checkNodes, now, budget)
    ensures r.teardownCheck == "PASS" <==> RanRecently(teardown, now, budget)
    ensures r.abandonedCheck in {"PASS", "FAIL"} && r.nodeCheck in {"PASS", "FAIL"} && r.teardownCheck in {"PASS", "FAIL"}
  {
    ScheduledTasks(TaskStatus(abandonedGrid, now, budget), TaskStatus(checkNodes, now, budget), TaskStatus(teardown, now, budget))
  }

  /**
   * With any budget of less than 100 seconds, a task that ran just now passes and one
   * that last ran 100 seconds ago fails.
   */
  lemma TaskStatusNowAndHundredSecondsAgo(now: int, budget: int)
    requires 0 <= budget < 100
    ensures TaskStatus(Some(now), now, budget) == "PASS"
    ensures TaskStatus(Some(now - 100), now, budget) == "FAIL"
    ensures TaskStatus(None, now, budget) == "FAIL"
  {
  }

  /** A task's status only gets worse as time passes without it running again. */
  lemma {:induction false} TaskStatusDecays(lastRun: Option<int>, now: int, later: int, budget: int)
    requires now <= later
    requires TaskStatus(lastRun, later, budget) == "PASS"
    ensures TaskStatus(lastRun, now, budget) == "PASS"
  {
  }
}
