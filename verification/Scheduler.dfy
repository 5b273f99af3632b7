// The worker scheduler: which running workers a tick ends and which due tasks it starts.
module Scheduler {
  import opened Text

  // Moments in nanoseconds, within the range of chrono's `DateTime<Utc>`.
  const SECOND: int := 1_000_000_000
  const EARLIEST: int := -8_334_601_228_800 * SECOND
  const LATEST: int := 8_210_266_876_800 * SECOND - 1

  type Time = t: int | EARLIEST <= t <= LATEST witness 0

  // Timeouts in whole seconds that chrono's `Duration::seconds` accepts.
  type Secs = n: nat | n <= 9_223_372_036_854_775

  const WORKER_DEFAULT_TIMEOUT_SECS: Secs := 7200
  const WORKER_CAP: nat := 2
  const STARTUP_GRACE_SECS: int := 60
  const WORKER_ID_PREFIX := "sched-"

  datatype Kind = Command(command: string) | Worker(brief: string)
  datatype Status = Proposed | Pending | Running

  datatype Task = Task(id: string, kind: Kind, followUp: Option<string>, at: Time,
                       timeoutSecs: Option<Secs>, status: Status, late: bool, deadline: Option<Time>)

  // A worker's report; `instant` is its time when that parses.
  datatype Report = Report(worker: string, at: string, instant: Option<Time>, status: string)

  datatype WorkerEnd = Done | Attention | TimedOut | Vanished
  datatype WorkerFire = WorkerFire(task: Task, late: bool)
  datatype TickPlan = TickPlan(ended: seq<(Task, WorkerEnd)>, fire: seq<WorkerFire>)

  function WorkerId(id: string): string {
    WORKER_ID_PREFIX + id
  }

  function CheckedAdd(t: Time, span: int): Option<Time> {
    if EARLIEST <= t + span <= LATEST then Some(t + span) else None
  }

  function TimeoutOf(task: Task): (span: int)
    ensures 0 <= span
  {
    task.timeoutSecs.GetOr(WORKER_DEFAULT_TIMEOUT_SECS) * SECOND
  }

  function WorkerDeadline(task: Task, now: Time): Time {
    CheckedAdd(now, TimeoutOf(task)).GetOr(now)
  }

  function StartedAt(task: Task): Time {
    match task.deadline
    case None => task.at
    case Some(deadline) => CheckedAdd(deadline, -TimeoutOf(task)).GetOr(task.at)
  }

  predicate IsKnownStatus(status: string) {
    status == "done" || status == "blocked" || status == "question"
  }

  // Whether the report says how this run of the task ended.
  predicate Concerns(report: Report, task: Task) {
    && report.worker == WorkerId(task.id)
    && report.instant.Some? && report.instant.value >= StartedAt(task)
    && IsKnownStatus(report.status)
  }

  // The end the last such report gives.
  function ReportEnd(task: Task, reports: seq<Report>): Option<WorkerEnd> {
    if reports == [] then None else
      var last := reports[|reports| - 1];
      if Concerns(last, task) then Some(if last.status == "done" then Done else Attention)
      else ReportEnd(task, reports[..|reports| - 1])
  }

  function RunningEnd(task: Task, reports: seq<Report>, alive: seq<string>, now: Time): Option<WorkerEnd> {
    var deadline := if task.deadline.Some? then task.deadline else CheckedAdd(StartedAt(task), TimeoutOf(task));
    if deadline.None? then None
    else
      var report := ReportEnd(task, reports);
      if report.Some? then report
      else if now >= deadline.value then Some(TimedOut)
      else if WorkerId(task.id) !in alive && now >= StartedAt(task) + STARTUP_GRACE_SECS * SECOND then Some(Vanished)
      else None
  }

  // ----- the order of tasks -----

  // Earlier by time, then by id.
  predicate Before(a: Task, b: Task) {
    a.at < b.at || (a.at == b.at && TextBefore(a.id, b.id))
  }

  lemma {:induction false} BeforeTransitive(a: Task, b: Task, c: Task)
    requires Before(a, b) && Before(b, c)
    ensures Before(a, c)
  {
    hide TextBefore;
    if a.at == b.at && b.at == c.at {
      TextBeforeTransitive(a.id, b.id, c.id);
    }
  }

  lemma {:induction false} BeforeTotal(a: Task, b: Task)
    ensures a.id != b.id ==> (Before(a, b) <==> !Before(b, a))
    ensures !Before(a, a)
  {
    hide TextBefore;
    TextBeforeTotal(a.id, b.id);
    TextBeforeTotal(a.id, a.id);
  }

  predicate Sorted(tasks: seq<Task>) {
    forall i, j :: 0 <= i < j < |tasks| ==> !Before(tasks[j], tasks[i])
  }

  predicate DistinctIds(tasks: seq<Task>) {
    forall i, j :: 0 <= i < j < |tasks| ==> tasks[i].id != tasks[j].id
  }

  // A stable insertion from the right.
  function Insert(task: Task, sorted: seq<Task>): seq<Task> {
    if sorted == [] || !Before(task, sorted[|sorted| - 1]) then sorted + [task]
    else Insert(task, sorted[..|sorted| - 1]) + [sorted[|sorted| - 1]]
  }

  function ByTime(tasks: seq<Task>): seq<Task> {
    if tasks == [] then [] else Insert(tasks[|tasks| - 1], ByTime(tasks[..|tasks| - 1]))
  }

  lemma {:induction false} InsertMembers(task: Task, sorted: seq<Task>)
    ensures |Insert(task, sorted)| == |sorted| + 1
    ensures forall t :: t in Insert(task, sorted) <==> t == task || t in sorted
  {
    hide Before;
    if sorted != [] && Before(task, sorted[|sorted| - 1]) {
      InsertMembers(task, sorted[..|sorted| - 1]);
      assert sorted == sorted[..|sorted| - 1] + [sorted[|sorted| - 1]];
    }
  }

  lemma {:induction false} ByTimeMembers(tasks: seq<Task>)
    ensures |ByTime(tasks)| == |tasks|
    ensures forall t :: t in ByTime(tasks) <==> t in tasks
  {
    hide Insert;
    if tasks != [] {
      ByTimeMembers(tasks[..|tasks| - 1]);
      InsertMembers(tasks[|tasks| - 1], ByTime(tasks[..|tasks| - 1]));
      assert tasks == tasks[..|tasks| - 1] + [tasks[|tasks| - 1]];
    }
  }

  lemma {:induction false} InsertSorted(task: Task, sorted: seq<Task>)
    requires Sorted(sorted)
    requires forall t :: t in sorted ==> t.id != task.id
    ensures Sorted(Insert(task, sorted))
  {
    hide Before;
    var n := |sorted|;
    if n == 0 {
    } else if Before(task, sorted[n - 1]) {
      var front := sorted[..n - 1];
      InsertSorted(task, front);
      InsertMembers(task, front);
      var result := Insert(task, front) + [sorted[n - 1]];
      forall i | 0 <= i < n ensures !Before(result[n], result[i]) {
        assert result[i] in Insert(task, front);
        BeforeTotal(task, sorted[n - 1]);
        if result[i] != task {
          var k :| 0 <= k < n - 1 && front[k] == result[i];
        }
      }
    } else {
      forall i | 0 <= i < n ensures !Before(task, sorted[i]) {
        LastIsLatest(task, sorted, i);
      }
    }
  }

  lemma {:induction false} LastIsLatest(task: Task, sorted: seq<Task>, i: nat)
    requires Sorted(sorted) && i < |sorted| && !Before(task, sorted[|sorted| - 1])
    requires forall t :: t in sorted ==> t.id != task.id
    ensures !Before(task, sorted[i])
  {
    hide Before;
    var last := sorted[|sorted| - 1];
    BeforeTotal(task, last);
    assert last in sorted && sorted[i] in sorted;
    if i < |sorted| - 1 && Before(task, sorted[i]) {
      BeforeTransitive(last, task, sorted[i]);
    }
  }

  lemma {:induction false} InsertDistinct(task: Task, sorted: seq<Task>)
    requires DistinctIds(sorted)
    requires forall t :: t in sorted ==> t.id != task.id
    ensures DistinctIds(Insert(task, sorted))
  {
    hide Before;
    var n := |sorted|;
    if n > 0 && Before(task, sorted[n - 1]) {
      var front := sorted[..n - 1];
      InsertDistinct(task, front);
      InsertMembers(task, front);
      var result := Insert(task, front) + [sorted[n - 1]];
      forall i | 0 <= i < n ensures result[i].id != sorted[n - 1].id {
        assert result[i] in Insert(task, front);
        assert sorted[n - 1] in sorted;
        if result[i] != task {
          var k :| 0 <= k < n - 1 && front[k] == result[i];
        }
      }
    }
  }

  // Sorting keeps the tasks and puts them in order.
  lemma {:induction false} ByTimeSorts(tasks: seq<Task>)
    requires DistinctIds(tasks)
    ensures Sorted(ByTime(tasks)) && DistinctIds(ByTime(tasks))
  {
    hide Before, Insert;
    if tasks != [] {
      var front, last := tasks[..|tasks| - 1], tasks[|tasks| - 1];
      ByTimeSorts(front);
      ByTimeMembers(front);
      assert forall t :: t in front ==> t.id != last.id;
      InsertSorted(last, ByTime(front));
      InsertDistinct(last, ByTime(front));
    }
  }

  // ----- the plan of a tick -----

  predicate IsRunning(task: Task) {
    task.kind.Worker? && task.status == Running
  }

  predicate IsWaiting(task: Task) {
    task.kind.Worker? && task.status == Pending
  }

  function RunningTasks(tasks: seq<Task>): seq<Task> {
    if tasks == [] then [] else
      var last := tasks[|tasks| - 1];
      RunningTasks(tasks[..|tasks| - 1]) + if IsRunning(last) then [last] else []
  }

  function DueTasks(tasks: seq<Task>, now: Time): seq<Task> {
    if tasks == [] then [] else
      var last := tasks[|tasks| - 1];
      DueTasks(tasks[..|tasks| - 1], now) + if IsWaiting(last) && last.at <= now then [last] else []
  }

  function EndedOf(running: seq<Task>, reports: seq<Report>, alive: seq<string>, now: Time): seq<(Task, WorkerEnd)> {
    if running == [] then [] else
      var last := running[|running| - 1];
      var end := RunningEnd(last, reports, alive, now);
      EndedOf(running[..|running| - 1], reports, alive, now) + if end.Some? then [(last, end.value)] else []
  }

  function StillOf(running: seq<Task>, reports: seq<Report>, alive: seq<string>, now: Time): seq<Task> {
    if running == [] then [] else
      var last := running[|running| - 1];
      StillOf(running[..|running| - 1], reports, alive, now)
      + if RunningEnd(last, reports, alive, now).None? then [last] else []
  }

  function FreeSlots(still: nat): nat {
    if still >= WORKER_CAP then 0 else WORKER_CAP - still
  }

  function Take<T>(s: seq<T>, n: nat): seq<T> {
    if n <= |s| then s[..n] else s
  }

  function FireOf(due: seq<Task>, now: Time, grace: int): seq<WorkerFire> {
    seq(|due|, k requires 0 <= k < |due| => WorkerFire(due[k], due[k].late || now - due[k].at > grace))
  }

  function PlanTick(tasks: seq<Task>, reports: seq<Report>, alive: seq<string>, now: Time, grace: int): TickPlan {
    var running := ByTime(RunningTasks(tasks));
    var still := StillOf(running, reports, alive, now);
    var due := ByTime(DueTasks(tasks, now));
    TickPlan(EndedOf(running, reports, alive, now), FireOf(Take(due, FreeSlots(|still|)), now, grace))
  }

  // ----- reports not seen before -----

  predicate Relevant(report: Report) {
    WORKER_ID_PREFIX <= report.worker && IsKnownStatus(report.status)
  }

  predicate SameReport(a: Report, b: Report) {
    a.worker == b.worker && a.at == b.at
  }

  predicate Holds(reports: seq<Report>, report: Report) {
    exists k :: 0 <= k < |reports| && SameReport(reports[k], report)
  }

  // One of the reports came from this worker at this time.
  predicate Told(reports: seq<Report>, worker: string, at: string) {
    exists k :: 0 <= k < |reports| && reports[k].worker == worker && reports[k].at == at
  }

  // A report of a scheduled worker that says how it ended.
  predicate FromSchedule(report: Report) {
    |report.worker| >= 6 && report.worker[..6] == "sched-" && report.status in {"done", "blocked", "question"}
  }

  lemma {:induction false} HoldsIsTold(reports: seq<Report>, report: Report)
    ensures Holds(reports, report) <==> Told(reports, report.worker, report.at)
  {
  }

  lemma {:induction false} RelevantIsFromSchedule(report: Report)
    ensures Relevant(report) <==> FromSchedule(report)
  {
    assert WORKER_ID_PREFIX == "sched-";
  }

  // The incoming reports of scheduled workers that are not known, each once.
  method NewScheduledReports(known: seq<Report>, incoming: seq<Report>) returns (news: seq<Report>)
    ensures forall r :: r in news ==> r in incoming && FromSchedule(r) && !Told(known, r.worker, r.at)
    ensures forall i, j :: 0 <= i < j < |news| ==> news[i].worker != news[j].worker || news[i].at != news[j].at
    ensures forall r :: r in incoming && FromSchedule(r) ==> Told(known + news, r.worker, r.at)
  {
    hide Relevant, FromSchedule, Told;
    news := [];
    var k := 0;
    while k < |incoming|
      invariant k <= |incoming|
      invariant forall r :: r in news ==> r in incoming[..k] && Relevant(r) && !Holds(known, r)
      invariant forall i, j :: 0 <= i < j < |news| ==> !SameReport(news[i], news[j])
      invariant forall r :: r in incoming[..k] && Relevant(r) ==> Holds(known, r) || Holds(news, r)
    {
      var report := incoming[k];
      ghost var before := news;
      if Relevant(report) && !Holds(known + news, report) {
        HoldsEither(known, news, report);
        news := news + [report];
        assert SameReport(news[|before|], report);
        forall r | r in incoming[..k] && Relevant(r) ensures Holds(known, r) || Holds(news, r) {
          HoldsEither(before, [report], r);
        }
      } else {
        HoldsEither(known, news, report);
      }
      assert incoming[..k + 1] == incoming[..k] + [report];
      k := k + 1;
    }
    assert incoming[..|incoming|] == incoming;
    forall r | r in incoming ensures Relevant(r) <==> FromSchedule(r) {
      RelevantIsFromSchedule(r);
    }
    forall r | r in incoming
      ensures Holds(known, r) <==> Told(known, r.worker, r.at)
      ensures Holds(known, r) || Holds(news, r) <==> Told(known + news, r.worker, r.at)
    {
      HoldsEither(known, news, r);
      HoldsIsTold(known, r);
      HoldsIsTold(known + news, r);
    }
  }

  lemma {:induction false} HoldsEither(a: seq<Report>, b: seq<Report>, report: Report)
    ensures Holds(a + b, report) <==> Holds(a, report) || Holds(b, report)
  {
    if Holds(a, report) {
      var k :| 0 <= k < |a| && SameReport(a[k], report);
      assert SameReport((a + b)[k], report);
    }
    if Holds(b, report) {
      var k :| 0 <= k < |b| && SameReport(b[k], report);
      assert SameReport((a + b)[|a| + k], report);
    }
  }
}
