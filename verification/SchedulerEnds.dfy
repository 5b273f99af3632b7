// When a tick ends a running worker, and how; and what keeps one running.
module SchedulerEnds {
  import opened Text
  import opened Scheduler
  import opened SchedulerRuns

  // The report is about this run of the task: from its worker, not before its start, with one of the
  // three statuses.
  predicate Says(report: Report, task: Task) {
    && report.worker == "sched-" + task.id
    && report.instant.Some? && report.instant.value >= StartedAt(task)
    && report.status in {"done", "blocked", "question"}
  }

  // The last report about this run is the `k`-th.
  predicate LastSays(reports: seq<Report>, task: Task, k: nat) {
    k < |reports| && Says(reports[k], task) && forall j :: k < j < |reports| ==> !Says(reports[j], task)
  }

  predicate NoneSays(reports: seq<Report>, task: Task) {
    forall j :: 0 <= j < |reports| ==> !Says(reports[j], task)
  }

  predicate IsAlive(alive: seq<string>, task: Task) {
    exists k :: 0 <= k < |alive| && alive[k] == "sched-" + task.id
  }

  // A minute in nanoseconds.
  const STARTUP: int := 60_000_000_000

  // How a worker that runs at `now` ends then, if it does.
  predicate EndsAs(task: Task, reports: seq<Report>, alive: seq<string>, now: Time, end: WorkerEnd)
    requires task.deadline.Some?
  {
    match end
    case Done => exists k: nat :: k < |reports| && LastSays(reports, task, k) && reports[k].status == "done"
    case Attention => exists k: nat :: k < |reports| && LastSays(reports, task, k) && reports[k].status != "done"
    case TimedOut => NoneSays(reports, task) && now >= task.deadline.value
    case Vanished =>
      && NoneSays(reports, task) && now < task.deadline.value
      && !IsAlive(alive, task) && now >= StartedAt(task) + STARTUP
  }

  // What keeps it running.
  predicate RunsThrough(task: Task, reports: seq<Report>, alive: seq<string>, now: Time)
    requires task.deadline.Some?
  {
    && NoneSays(reports, task) && now < task.deadline.value
    && (IsAlive(alive, task) || now < StartedAt(task) + STARTUP)
  }

  lemma {:induction false} SaysIsConcern(report: Report, task: Task)
    ensures Says(report, task) <==> Concerns(report, task)
  {
  }

  lemma {:induction false} ReportRule(task: Task, reports: seq<Report>)
    ensures ReportEnd(task, reports).None? <==> NoneSays(reports, task)
    ensures ReportEnd(task, reports).Some? ==>
              exists k: nat :: k < |reports| && LastSays(reports, task, k) &&
                ReportEnd(task, reports) == Some(if reports[k].status == "done" then Done else Attention)
  {
    hide Concerns, Says;
    if reports != [] {
      var n := |reports| - 1;
      SaysIsConcern(reports[n], task);
      if Concerns(reports[n], task) {
        assert LastSays(reports, task, n);
      } else {
        ReportRule(task, reports[..n]);
        assert forall j :: 0 <= j < n ==> reports[..n][j] == reports[j];
        if ReportEnd(task, reports).Some? {
          var k: nat :| k < n && LastSays(reports[..n], task, k) &&
            ReportEnd(task, reports[..n]) == Some(if reports[..n][k].status == "done" then Done else Attention);
          assert LastSays(reports, task, k);
        }
      }
    }
  }

  lemma {:induction false} OneLast(reports: seq<Report>, task: Task, j: nat, k: nat)
    requires LastSays(reports, task, j) && LastSays(reports, task, k)
    ensures j == k && !NoneSays(reports, task)
  {
    hide Says;
  }

  lemma {:induction false} EndRule(task: Task, reports: seq<Report>, alive: seq<string>, now: Time, end: WorkerEnd)
    requires task.deadline.Some?
    ensures RunningEnd(task, reports, alive, now) == Some(end) <==> EndsAs(task, reports, alive, now, end)
    ensures RunningEnd(task, reports, alive, now).None? <==> RunsThrough(task, reports, alive, now)
  {
    ReportRule(task, reports);
    AliveRule(alive, task);
    hide Says, LastSays, NoneSays, IsAlive, StartedAt, ReportEnd;
    forall j: nat, k: nat | LastSays(reports, task, j) && LastSays(reports, task, k) ensures j == k && !NoneSays(reports, task) {
      OneLast(reports, task, j, k);
    }
  }

  lemma {:induction false} AliveRule(alive: seq<string>, task: Task)
    ensures IsAlive(alive, task) <==> WorkerId(task.id) in alive
  {
  }

  // Every tick ends a running worker exactly as the rule says, and otherwise leaves its record alone.
  lemma {:induction false} TickEnds(store: Store, e: Event, id: string, end: WorkerEnd)
    requires Safe(store) && e.Tick? && Possible(store, e) && id in RunningIds(store)
    ensures var task, plan := store[id], PlanTick(e.tasks, e.reports, e.alive, e.now, e.grace);
            && ((task, end) in plan.ended <==> EndsAs(task, e.reports, e.alive, e.now, end))
            && (EndsAs(task, e.reports, e.alive, e.now, end) ==> id !in After(store, e))
            && (id in After(store, e) <==> RunsThrough(task, e.reports, e.alive, e.now))
            && (id in After(store, e) ==> After(store, e)[id] == task)
  {
    hide Chosen, AfterTick, WorkerDeadline, Before, RunningEnd, EndsAs, RunsThrough;
    EndRule(store[id], e.reports, e.alive, e.now, end);
    EndedRule(store, e, id, end);
    TickRecords(store, e.tasks, e.reports, e.alive, e.now, e.grace);
    RunningAfterTick(store, e.tasks, e.reports, e.alive, e.now, e.grace);
    PlanChosen(e.tasks, store, e.reports, e.alive, e.now);
  }

  lemma {:induction false} EndedRule(store: Store, e: Event, id: string, end: WorkerEnd)
    requires Safe(store) && e.Tick? && Possible(store, e) && id in RunningIds(store)
    ensures (store[id], end) in PlanTick(e.tasks, e.reports, e.alive, e.now, e.grace).ended <==>
            RunningEnd(store[id], e.reports, e.alive, e.now) == Some(end)
  {
    hide RunningEnd, IsRunning, ByTime, EndedOf, RunningTasks, StillOf, DueTasks;
    RunningTasksMembers(e.tasks);
    ByTimeMembers(RunningTasks(e.tasks));
    EndedMembers(ByTime(RunningTasks(e.tasks)), e.reports, e.alive, e.now);
  }

  // Only running workers are ended.
  lemma {:induction false} OnlyRunningEnd(store: Store, e: Event, task: Task, end: WorkerEnd)
    requires Safe(store) && e.Tick? && Possible(store, e)
    requires (task, end) in PlanTick(e.tasks, e.reports, e.alive, e.now, e.grace).ended
    ensures task.id in RunningIds(store) && store[task.id] == task
  {
    hide RunningEnd, ByTime, EndedOf, RunningTasks, StillOf, DueTasks;
    RunningTasksMembers(e.tasks);
    ByTimeMembers(RunningTasks(e.tasks));
    EndedMembers(ByTime(RunningTasks(e.tasks)), e.reports, e.alive, e.now);
    assert (task, end).0 == task;
  }

  // A worker's timeout in nanoseconds: two hours if the task names none.
  function Span(task: Task): int {
    1_000_000_000 * match task.timeoutSecs
                    case None => 7_200
                    case Some(secs) => secs
  }

  // A running task without a deadline ends as one that started at its own time would.
  lemma {:induction false} WithoutDeadline(task: Task, reports: seq<Report>, alive: seq<string>, now: Time)
    requires task.deadline.None? && task.at + Span(task) <= LATEST
    ensures EARLIEST <= task.at + Span(task)
    ensures var dated := task.(deadline := Some(task.at + Span(task)));
            StartedAt(dated) == task.at && RunningEnd(task, reports, alive, now) == RunningEnd(dated, reports, alive, now)
  {
    assert Span(task) == TimeoutOf(task);
    var dated := task.(deadline := Some(task.at + TimeoutOf(task)));
    assert StartedAt(task) == StartedAt(dated) == task.at;
    hide TimeoutOf, Span;
    SameReportEnd(task, dated, reports);
  }

  lemma {:induction false} SameReportEnd(a: Task, b: Task, reports: seq<Report>)
    requires a.id == b.id && StartedAt(a) == StartedAt(b)
    ensures ReportEnd(a, reports) == ReportEnd(b, reports)
  {
    hide StartedAt;
    if reports != [] {
      SameReportEnd(a, b, reports[..|reports| - 1]);
    }
  }

  // ----- over runs -----

  // Nothing in the run ends the worker: it is alive at every tick and restart, makes no report, is not
  // cancelled, and no tick comes at its deadline or later.
  predicate Undisturbed(events: seq<Event>, task: Task)
    requires task.deadline.Some?
  {
    forall k :: 0 <= k < |events| ==>
      match events[k]
      case Tick(_, reports, alive, now, _) => RunsThrough(task, reports, alive, now)
      case Restart(_, live) => IsAlive(live, task)
      case Cancel(id) => id != task.id
      case _ => true
  }

  // Such a worker keeps running, with the record it started with.
  lemma {:induction false} KeepsRunning(store: Store, events: seq<Event>, id: string)
    requires Safe(store) && Valid(store, events) && id in RunningIds(store) && Undisturbed(events, store[id])
    ensures id in RunningIds(Run(store, events)) && Run(store, events)[id] == store[id]
    decreases |events|
  {
    if events != [] {
      var e, next := events[0], After(store, events[0]);
      OneEvent(store, e, id);
      hide Safe, Possible, After, RunsThrough, IsAlive;
      EventIsSafe(store, e);
      assert forall k :: 0 <= k < |events[1..]| ==> events[1..][k] == events[k + 1];
      KeepsRunning(next, events[1..], id);
    }
  }

  lemma {:induction false} OneEvent(store: Store, e: Event, id: string)
    requires Safe(store) && Possible(store, e) && id in RunningIds(store) && Undisturbed([e], store[id])
    ensures id in RunningIds(After(store, e)) && After(store, e)[id] == store[id]
  {
    assert [e][0] == e;
    match e
    case Tick(_, _, _, _, _) =>
      TickEnds(store, e, id, Done);
    case Restart(_, live) =>
      AliveRule(live, store[id]);
    case _ =>
  }
}
