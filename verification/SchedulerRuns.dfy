// Runs of the worker scheduler: ticks, restarts, cancellations and new tasks on the task store.
module SchedulerRuns {
  import opened Text
  import opened Scheduler

  // The task store: one record per id.
  type Store = map<string, Task>

  predicate Keyed(store: Store) {
    forall id :: id in store ==> store[id].id == id
  }

  // What `load_all` hands to a tick: every record once, in any order.
  predicate Lists(tasks: seq<Task>, store: Store) {
    && DistinctIds(tasks)
    && (forall t :: t in tasks ==> t.id in store && store[t.id] == t)
    && (forall id :: id in store ==> store[id] in tasks)
  }

  function Ids(tasks: seq<Task>): set<string> {
    set t | t in tasks :: t.id
  }

  function EndedIds(plan: TickPlan): set<string> {
    set e | e in plan.ended :: e.0.id
  }

  function Started(fire: WorkerFire, now: Time): Task {
    fire.task.(status := Running, late := fire.late, deadline := Some(WorkerDeadline(fire.task, now)))
  }

  // The records of the first `k` started tasks.
  function StartedRecords(fire: seq<WorkerFire>, now: Time, k: nat): Store
    requires k <= |fire|
  {
    if k == 0 then map[]
    else StartedRecords(fire, now, k - 1)[fire[k - 1].task.id := Started(fire[k - 1], now)]
  }

  // A tick removes the ended tasks and saves the started ones as running.
  function AfterTick(store: Store, plan: TickPlan, now: Time): Store {
    (store - EndedIds(plan)) + StartedRecords(plan.fire, now, |plan.fire|)
  }

  // `plan_restore`: after a restart only live workers keep running.
  function Restored(task: Task, now: Time, alive: seq<string>): Task {
    match task.status
    case Running =>
      if task.kind.Worker? && WorkerId(task.id) in alive then task
      else task.(status := Pending, late := task.late || task.at < now, deadline := None)
    case Pending => task.(late := task.late || task.at < now)
    case Proposed => task
  }

  function AfterRestore(store: Store, now: Time, alive: seq<string>): Store {
    map id | id in store :: Restored(store[id], now, alive)
  }

  datatype Event =
    | Tick(tasks: seq<Task>, reports: seq<Report>, alive: seq<string>, now: Time, grace: int)
    | Restart(now: Time, live: seq<string>)
    | Cancel(id: string)
    | Submit(task: Task)
    | Arm(id: string)

  // A tick sees the store; a new task has a new id and has not started; only proposals are armed.
  predicate Possible(store: Store, e: Event) {
    match e
    case Tick(tasks, _, _, _, _) => Lists(tasks, store)
    case Submit(task) => task.id !in store && task.status != Running && task.deadline.None?
    case Arm(id) => id in store && store[id].status == Proposed
    case _ => true
  }

  function After(store: Store, e: Event): Store {
    match e
    case Tick(tasks, reports, alive, now, grace) => AfterTick(store, PlanTick(tasks, reports, alive, now, grace), now)
    case Restart(now, live) => AfterRestore(store, now, live)
    case Cancel(id) => store - {id}
    case Submit(task) => store[task.id := task]
    case Arm(id) => if id in store then store[id := store[id].(status := Pending)] else store
  }

  predicate Valid(store: Store, events: seq<Event>)
    decreases |events|
  {
    events == [] || (Possible(store, events[0]) && Valid(After(store, events[0]), events[1..]))
  }

  function Run(store: Store, events: seq<Event>): Store
    decreases |events|
  {
    if events == [] then store else Run(After(store, events[0]), events[1..])
  }

  // ----- what a tick does to the store -----

  function RunningIds(store: Store): set<string> {
    set id | id in store && IsRunning(store[id])
  }

  predicate Safe(store: Store) {
    && Keyed(store)
    && |RunningIds(store)| <= WORKER_CAP
    && forall id :: id in RunningIds(store) ==> store[id].deadline.Some?
  }

  lemma {:induction false} RunningTasksMembers(tasks: seq<Task>)
    requires DistinctIds(tasks)
    ensures forall t :: t in RunningTasks(tasks) <==> t in tasks && IsRunning(t)
    ensures DistinctIds(RunningTasks(tasks))
  {
    hide IsRunning;
    if tasks != [] {
      var front := tasks[..|tasks| - 1];
      assert tasks == front + [tasks[|tasks| - 1]];
      RunningTasksMembers(front);
      var kept := RunningTasks(front);
      assert forall k :: 0 <= k < |kept| ==> kept[k] in front;
    }
  }

  lemma {:induction false} DueTasksMembers(tasks: seq<Task>, now: Time)
    requires DistinctIds(tasks)
    ensures forall t :: t in DueTasks(tasks, now) <==> t in tasks && IsWaiting(t) && t.at <= now
    ensures DistinctIds(DueTasks(tasks, now))
  {
    hide IsWaiting;
    if tasks != [] {
      var front := tasks[..|tasks| - 1];
      assert tasks == front + [tasks[|tasks| - 1]];
      DueTasksMembers(front, now);
      var kept := DueTasks(front, now);
      assert forall k :: 0 <= k < |kept| ==> kept[k] in front;
    }
  }

  lemma {:induction false} EndedMembers(running: seq<Task>, reports: seq<Report>, alive: seq<string>, now: Time)
    ensures forall e :: e in EndedOf(running, reports, alive, now)
                        <==> e.0 in running && RunningEnd(e.0, reports, alive, now) == Some(e.1)
  {
    hide RunningEnd;
    if running != [] {
      var front := running[..|running| - 1];
      assert running == front + [running[|running| - 1]];
      EndedMembers(front, reports, alive, now);
    }
  }

  lemma {:induction false} StillMembers(running: seq<Task>, reports: seq<Report>, alive: seq<string>, now: Time)
    requires DistinctIds(running)
    ensures forall t :: t in StillOf(running, reports, alive, now)
                        <==> t in running && RunningEnd(t, reports, alive, now).None?
    ensures DistinctIds(StillOf(running, reports, alive, now))
  {
    hide RunningEnd;
    if running != [] {
      var front := running[..|running| - 1];
      assert running == front + [running[|running| - 1]];
      StillMembers(front, reports, alive, now);
      var kept := StillOf(front, reports, alive, now);
      assert forall k :: 0 <= k < |kept| ==> kept[k] in front;
    }
  }

  lemma {:induction false} CountIds(tasks: seq<Task>)
    requires DistinctIds(tasks)
    ensures |Ids(tasks)| == |tasks|
  {
    if tasks == [] {
      assert Ids(tasks) == {};
    } else {
      var front, last := tasks[..|tasks| - 1], tasks[|tasks| - 1];
      assert tasks == front + [last];
      CountIds(front);
      assert Ids(tasks) == Ids(front) + {last.id};
      assert last.id !in Ids(front);
    }
  }

  // The tasks a tick starts, before they are marked.
  function Chosen(tasks: seq<Task>, reports: seq<Report>, alive: seq<string>, now: Time): seq<Task> {
    Take(ByTime(DueTasks(tasks, now)),
         FreeSlots(|StillOf(ByTime(RunningTasks(tasks)), reports, alive, now)|))
  }

  function StillIds(store: Store, reports: seq<Report>, alive: seq<string>, now: Time): set<string> {
    set id | id in RunningIds(store) && RunningEnd(store[id], reports, alive, now).None?
  }

  lemma {:induction false} PlanStill(tasks: seq<Task>, store: Store, reports: seq<Report>, alive: seq<string>, now: Time)
    requires Keyed(store) && Lists(tasks, store)
    ensures var still := StillOf(ByTime(RunningTasks(tasks)), reports, alive, now);
            |still| == |StillIds(store, reports, alive, now)|
    ensures EndedIds(PlanTick(tasks, reports, alive, now, 0)) == RunningIds(store) - StillIds(store, reports, alive, now)
  {
    hide RunningEnd, IsRunning, ByTime, StillOf, EndedOf, RunningTasks, DueTasks;
    var running := ByTime(RunningTasks(tasks));
    RunningTasksMembers(tasks);
    ByTimeMembers(RunningTasks(tasks));
    ByTimeSorts(RunningTasks(tasks));
    StillMembers(running, reports, alive, now);
    EndedMembers(running, reports, alive, now);
    var still := StillOf(running, reports, alive, now);
    CountIds(still);
    assert Ids(still) == StillIds(store, reports, alive, now) by {
      forall id | id in StillIds(store, reports, alive, now) ensures id in Ids(still) {
        assert store[id] in still;
      }
    }
    var plan := PlanTick(tasks, reports, alive, now, 0);
    forall id | id in RunningIds(store) - StillIds(store, reports, alive, now) ensures id in EndedIds(plan) {
      var end := RunningEnd(store[id], reports, alive, now).value;
      assert (store[id], end) in plan.ended;
    }
  }

  // The chosen tasks: due records of the store, at most the free slots, earliest first.
  lemma {:induction false} PlanChosen(tasks: seq<Task>, store: Store, reports: seq<Report>, alive: seq<string>, now: Time)
    requires Keyed(store) && Lists(tasks, store)
    ensures var chosen := Chosen(tasks, reports, alive, now);
            var free := FreeSlots(|StillIds(store, reports, alive, now)|);
            && DistinctIds(chosen) && |chosen| <= free
            && (forall t :: t in chosen ==> t.id in store && store[t.id] == t && IsWaiting(t) && t.at <= now)
            && (forall id :: id in store && IsWaiting(store[id]) && store[id].at <= now && store[id] !in chosen ==>
                  |chosen| == free && forall t :: t in chosen ==> Before(t, store[id]))
  {
    hide RunningEnd, IsWaiting, ByTime, DueTasks, Before, StillOf, RunningTasks, StillIds, FreeSlots;
    PlanStill(tasks, store, reports, alive, now);
    var due := ByTime(DueTasks(tasks, now));
    DueTasksMembers(tasks, now);
    ByTimeMembers(DueTasks(tasks, now));
    ByTimeSorts(DueTasks(tasks, now));
    var chosen := Chosen(tasks, reports, alive, now);
    assert forall t :: t in chosen ==> t in due;
    forall id | id in store && IsWaiting(store[id]) && store[id].at <= now && store[id] !in chosen
      ensures |chosen| == FreeSlots(|StillIds(store, reports, alive, now)|)
      ensures forall t :: t in chosen ==> Before(t, store[id])
    {
      assert store[id] in due;
      var k :| 0 <= k < |due| && due[k] == store[id];
      assert |chosen| <= k;
      forall t | t in chosen ensures Before(t, store[id]) {
        var j :| 0 <= j < |chosen| && chosen[j] == t;
        assert due[j] == t;
        BeforeTotal(due[j], due[k]);
      }
    }
  }

  lemma {:induction false} StartedKeys(fire: seq<WorkerFire>, now: Time, k: nat)
    requires k <= |fire|
    ensures forall id :: id in StartedRecords(fire, now, k) <==> exists j :: 0 <= j < k && fire[j].task.id == id
    ensures forall id :: id in StartedRecords(fire, now, k) ==>
              exists j :: 0 <= j < k && fire[j].task.id == id && StartedRecords(fire, now, k)[id] == Started(fire[j], now)
  {
    hide Started;
    if k > 0 {
      StartedKeys(fire, now, k - 1);
      var before := StartedRecords(fire, now, k - 1);
      var all := StartedRecords(fire, now, k);
      forall id | id in all
        ensures exists j :: 0 <= j < k && fire[j].task.id == id && all[id] == Started(fire[j], now)
      {
        if id == fire[k - 1].task.id {
          assert all[id] == Started(fire[k - 1], now);
        } else {
          var j :| 0 <= j < k - 1 && fire[j].task.id == id && before[id] == Started(fire[j], now);
        }
      }
    }
  }

  // A task runs late when it was marked late or is due for longer than one tick.
  predicate RunsLate(task: Task, now: Time, grace: int) {
    task.late || now - task.at > grace
  }

  // The store after a tick, record by record.
  lemma {:induction false} TickRecords(store: Store, tasks: seq<Task>, reports: seq<Report>, alive: seq<string>, now: Time, grace: int)
    requires Keyed(store) && Lists(tasks, store)
    ensures var next := AfterTick(store, PlanTick(tasks, reports, alive, now, grace), now);
            var chosen := Chosen(tasks, reports, alive, now);
            && next.Keys == store.Keys - (RunningIds(store) - StillIds(store, reports, alive, now))
            && (forall id :: id in next && id !in Ids(chosen) ==> next[id] == store[id])
            && Ids(chosen) <= next.Keys
            && (forall id :: id in Ids(chosen) ==>
                  next[id] == store[id].(status := Running, late := RunsLate(store[id], now, grace),
                                         deadline := Some(WorkerDeadline(store[id], now))))
  {
    hide RunningEnd, ByTime, DueTasks, StillOf, RunningTasks, EndedOf, WorkerDeadline, Chosen, Before;
    PlanStill(tasks, store, reports, alive, now);
    PlanChosen(tasks, store, reports, alive, now);
    var plan := PlanTick(tasks, reports, alive, now, grace);
    var chosen := Chosen(tasks, reports, alive, now);
    FireIsChosen(tasks, reports, alive, now, grace);
    var records := StartedRecords(plan.fire, now, |plan.fire|);
    StartedKeys(plan.fire, now, |plan.fire|);
    forall id | id in Ids(chosen) ensures id in records {
      var t :| t in chosen && t.id == id;
      var j :| 0 <= j < |chosen| && chosen[j] == t;
      assert plan.fire[j].task.id == id;
    }
    forall id | id in records
      ensures id in Ids(chosen) && id !in RunningIds(store) && id in store
      ensures records[id] == store[id].(status := Running, late := RunsLate(store[id], now, grace),
                                        deadline := Some(WorkerDeadline(store[id], now)))
    {
      var j :| 0 <= j < |plan.fire| && plan.fire[j].task.id == id && records[id] == Started(plan.fire[j], now);
      assert chosen[j] in chosen;
    }
  }

  lemma {:induction false} FireIsChosen(tasks: seq<Task>, reports: seq<Report>, alive: seq<string>, now: Time, grace: int)
    ensures var plan := PlanTick(tasks, reports, alive, now, grace);
            var chosen := Chosen(tasks, reports, alive, now);
            && |plan.fire| == |chosen|
            && (forall k :: 0 <= k < |chosen| ==>
                  plan.fire[k].task == chosen[k] && plan.fire[k].late == RunsLate(chosen[k], now, grace))
            && plan.ended == PlanTick(tasks, reports, alive, now, 0).ended
  {
    hide ByTime, DueTasks, StillOf, RunningTasks, EndedOf;
  }

  // Who runs after a tick: those who keep running, and the chosen.
  lemma {:induction false} RunningAfterTick(store: Store, tasks: seq<Task>, reports: seq<Report>, alive: seq<string>, now: Time, grace: int)
    requires Keyed(store) && Lists(tasks, store)
    ensures var next := AfterTick(store, PlanTick(tasks, reports, alive, now, grace), now);
            var still, chosen := StillIds(store, reports, alive, now), Ids(Chosen(tasks, reports, alive, now));
            && RunningIds(next) == still + chosen && still !! chosen
            && |chosen| == |Chosen(tasks, reports, alive, now)| <= FreeSlots(|still|)
  {
    hide RunningEnd, Chosen, PlanTick, AfterTick, WorkerDeadline, Before, FreeSlots;
    TickRecords(store, tasks, reports, alive, now, grace);
    PlanChosen(tasks, store, reports, alive, now);
    CountIds(Chosen(tasks, reports, alive, now));
  }

  // ----- safety -----

  lemma {:induction false} TickIsSafe(store: Store, e: Event)
    requires Safe(store) && e.Tick? && Possible(store, e)
    ensures Safe(After(store, e))
  {
    hide RunningEnd, Chosen, PlanTick, AfterTick, WorkerDeadline, Before, IsRunning, IsWaiting;
    var next := After(store, e);
    TickRecords(store, e.tasks, e.reports, e.alive, e.now, e.grace);
    RunningAfterTick(store, e.tasks, e.reports, e.alive, e.now, e.grace);
    var still := StillIds(store, e.reports, e.alive, e.now);
    assert still <= RunningIds(store);
    SubsetCount(still, RunningIds(store));
  }

  lemma {:induction false} SubsetCount<T>(a: set<T>, b: set<T>)
    requires a <= b
    ensures |a| <= |b|
  {
    assert b == a + (b - a);
  }

  lemma {:induction false} EventIsSafe(store: Store, e: Event)
    requires Safe(store) && Possible(store, e)
    ensures Safe(After(store, e))
  {
    if e.Tick? {
      TickIsSafe(store, e);
    } else {
      var next := After(store, e);
      assert RunningIds(next) <= RunningIds(store);
      SubsetCount(RunningIds(next), RunningIds(store));
    }
  }

  // At most `WORKER_CAP` workers run at any point of any run, each with a deadline.
  lemma {:induction false} RunIsSafe(store: Store, events: seq<Event>)
    requires Safe(store) && Valid(store, events)
    ensures Safe(Run(store, events))
    decreases |events|
  {
    hide Safe, Possible, After;
    if events != [] {
      EventIsSafe(store, events[0]);
      RunIsSafe(After(store, events[0]), events[1..]);
    }
  }

  // A running worker does not outlive the first tick at or after its deadline.
  lemma {:induction false} OverdueEnds(store: Store, e: Event, id: string)
    requires Safe(store) && e.Tick? && Possible(store, e)
    requires id in RunningIds(store) && store[id].deadline.value <= e.now
    ensures id !in After(store, e)
  {
    hide Chosen, PlanTick, AfterTick, WorkerDeadline, Before, ReportEnd;
    TickRecords(store, e.tasks, e.reports, e.alive, e.now, e.grace);
  }

  // After a tick every running deadline lies ahead, or belongs to a worker started by it.
  lemma {:induction false} DeadlinesAhead(store: Store, e: Event, id: string)
    requires Safe(store) && e.Tick? && Possible(store, e) && id in RunningIds(After(store, e))
    ensures var task := After(store, e)[id];
            if id in RunningIds(store) then task == store[id] && task.deadline.value > e.now
            else id in store && IsWaiting(store[id]) && task.deadline == Some(WorkerDeadline(store[id], e.now))
  {
    hide Chosen, PlanTick, AfterTick, WorkerDeadline, Before, ReportEnd, StartedAt;
    TickRecords(store, e.tasks, e.reports, e.alive, e.now, e.grace);
    RunningAfterTick(store, e.tasks, e.reports, e.alive, e.now, e.grace);
    PlanChosen(e.tasks, store, e.reports, e.alive, e.now);
  }

  // ----- the start recovered from the deadline -----

  // A start: the tick that fired a task, and the task as it waited.
  datatype Start = Start(now: Time, task: Task)

  predicate StartedBy(store: Store, e: Event, id: string) {
    e.Tick? && id !in RunningIds(store) && id in RunningIds(After(store, e)) && id in store
  }

  // The last start of the task in the run.
  function LastStart(store: Store, events: seq<Event>, id: string): Option<Start>
    decreases |events|
  {
    if events == [] then None
    else
      var later := LastStart(After(store, events[0]), events[1..], id);
      if later.Some? then later
      else if StartedBy(store, events[0], id) then Some(Start(events[0].now, store[id]))
      else None
  }

  // The deadline did not fall off the end of the calendar; or the timeout is zero; or the start
  // would fall off its beginning and the task was due at the very moment it started.
  predicate Recoverable(start: Start) {
    || start.now + TimeoutOf(start.task) <= LATEST
    || TimeoutOf(start.task) == 0
    || (start.now - TimeoutOf(start.task) < EARLIEST && start.task.at == start.now)
  }

  lemma {:induction false} FreshStartIsRecovered(fire: WorkerFire, now: Time)
    ensures StartedAt(Started(fire, now)) == now <==> Recoverable(Start(now, fire.task))
  {
  }

  // One event: a worker running behind it was started by it or ran before it, unchanged.
  lemma {:induction false} RunsOn(store: Store, e: Event, id: string)
    requires Safe(store) && Possible(store, e) && id in RunningIds(After(store, e))
    ensures if StartedBy(store, e, id)
            then IsWaiting(store[id]) &&
                 exists late :: After(store, e)[id] == Started(WorkerFire(store[id], late), e.now)
            else id in RunningIds(store) && After(store, e)[id] == store[id]
  {
    if e.Tick? {
      hide Chosen, PlanTick, AfterTick, WorkerDeadline, Before, RunningEnd, StartedAt;
      TickRecords(store, e.tasks, e.reports, e.alive, e.now, e.grace);
      RunningAfterTick(store, e.tasks, e.reports, e.alive, e.now, e.grace);
      PlanChosen(e.tasks, store, e.reports, e.alive, e.now);
      if id !in RunningIds(store) {
        assert After(store, e)[id] == Started(WorkerFire(store[id], RunsLate(store[id], e.now, e.grace)), e.now);
      }
    }
  }

  // A worker running at the end was started last by the tick that wrote its record, and has kept
  // the record since; one never started in the run has its first record still.
  lemma {:induction false} RecordOfLastStart(store: Store, events: seq<Event>, id: string)
    requires Safe(store) && Valid(store, events) && id in RunningIds(Run(store, events))
    ensures match LastStart(store, events, id)
            case None => id in RunningIds(store) && Run(store, events)[id] == store[id]
            case Some(start) =>
              start.task.id == id &&
              exists late :: Run(store, events)[id] == Started(WorkerFire(start.task, late), start.now)
    decreases |events|
  {
    if events != [] {
      hide Safe, Possible, After, StartedBy, RunningIds, IsWaiting, Started;
      var e, next := events[0], After(store, events[0]);
      EventIsSafe(store, e);
      RecordOfLastStart(next, events[1..], id);
      if LastStart(next, events[1..], id).None? {
        RunsOn(store, e, id);
        StartedId(store, e, id);
      }
    }
  }

  lemma {:induction false} StartedId(store: Store, e: Event, id: string)
    requires Safe(store)
    ensures StartedBy(store, e, id) ==> id in store && store[id].id == id
  {
  }

  // Over any run: the start recovered from the stored deadline of a running worker is the tick
  // that last started it, if and only if the start was recoverable at that tick. Restarts and
  // other ticks in between change nothing.
  lemma {:induction false} StartIsRecovered(store: Store, events: seq<Event>, id: string)
    requires Safe(store) && Valid(store, events) && id in RunningIds(Run(store, events))
    requires LastStart(store, events, id).Some?
    ensures var start := LastStart(store, events, id).value;
            StartedAt(Run(store, events)[id]) == start.now <==> Recoverable(start)
  {
    hide Safe, Valid, LastStart, Started, StartedAt, Recoverable, Run;
    RecordOfLastStart(store, events, id);
    var start := LastStart(store, events, id).value;
    var late :| Run(store, events)[id] == Started(WorkerFire(start.task, late), start.now);
    FreshStartIsRecovered(WorkerFire(start.task, late), start.now);
  }

  // A worker with a timeout that starts at the last moment of the calendar is taken to have started
  // before it did.
  lemma {:induction false} LateStartIsLost(fire: WorkerFire)
    requires TimeoutOf(fire.task) > 0
    ensures StartedAt(Started(fire, LATEST)) < LATEST || StartedAt(Started(fire, LATEST)) == fire.task.at
    ensures fire.task.timeoutSecs == Some(1) ==> StartedAt(Started(fire, LATEST)) == LATEST - SECOND
  {
    FreshStartIsRecovered(fire, LATEST);
  }

  // No due task is overtaken: whoever starts comes before every due task that does not.
  lemma {:induction false} NoOvertaking(store: Store, e: Event, first: string, second: string)
    requires Safe(store) && e.Tick? && Possible(store, e)
    requires first in store && IsWaiting(store[first]) && store[first].at <= e.now
    requires second in store && IsWaiting(store[second])
    requires second in RunningIds(After(store, e))
    requires first == second || Before(store[first], store[second])
    ensures first in RunningIds(After(store, e))
  {
    hide Chosen, PlanTick, AfterTick, WorkerDeadline, Before, RunningEnd;
    RunningAfterTick(store, e.tasks, e.reports, e.alive, e.now, e.grace);
    PlanChosen(e.tasks, store, e.reports, e.alive, e.now);
    var chosen := Chosen(e.tasks, e.reports, e.alive, e.now);
    assert second !in RunningIds(store);
    assert store[second] in chosen;
    if store[first] !in chosen {
      BeforeTotal(store[first], store[second]);
    }
  }

  // A restart keeps exactly the live workers running; it marks overdue tasks late for good.
  lemma {:induction false} RestartKeepsLive(store: Store, now: Time, live: seq<string>, id: string)
    requires Safe(store) && id in store
    ensures var task, keeps := After(store, Restart(now, live))[id], IsRunning(store[id]) && WorkerId(id) in live;
            && (keeps ==> task == store[id])
            && (!keeps && store[id].status == Running ==> task.status == Pending && task.deadline.None?)
            && (task.status == Running <==> keeps)
            && (task.late <==> store[id].late || (!keeps && store[id].status != Proposed && store[id].at < now))
    ensures After(After(store, Restart(now, live)), Restart(now, live)) == After(store, Restart(now, live))
  {
  }
}
