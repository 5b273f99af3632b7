// How long a due task waits: with enough ticks and bounded timeouts, it starts in time.
module SchedulerWaiting {
  import opened Text
  import opened Scheduler
  import opened SchedulerRuns

  // The waiting tasks ordered ahead of `x`.
  function Ahead(store: Store, x: Task): set<string> {
    set id | id in store && IsWaiting(store[id]) && Before(store[id], x)
  }

  predicate Waits(store: Store, x: Task) {
    x.id in store && store[x.id] == x && IsWaiting(x)
  }

  predicate Within(store: Store, span: int) {
    forall id :: id in store ==> TimeoutOf(store[id]) <= span
  }

  // Events that neither take `x` away nor put anything ahead of it: a restart may requeue only workers
  // whose task is not ahead of `x`.
  predicate Calm(store: Store, e: Event, x: Task, span: int) {
    match e
    case Tick(_, _, _, _, _) => true
    case Restart(_, live) => forall id :: id in RunningIds(store) && Before(store[id], x) ==> WorkerId(id) in live
    case Cancel(id) => id != x.id
    case Submit(task) => !Before(task, x) && TimeoutOf(task) <= span
    case Arm(id) => id in store ==> !Before(store[id], x)
  }

  predicate AllCalm(store: Store, events: seq<Event>, x: Task, span: int)
    decreases |events|
  {
    events == [] || (Calm(store, events[0], x, span) && AllCalm(After(store, events[0]), events[1..], x, span))
  }

  // Ticks go forward in time, at most `gap` apart.
  predicate Steady(events: seq<Event>, last: int, gap: int)
    decreases |events|
  {
    events == [] ||
    (if events[0].Tick? then last <= events[0].now <= last + gap && Steady(events[1..], events[0].now, gap)
     else Steady(events[1..], last, gap))
  }

  // The time of the last tick, or `last`.
  function EndTime(events: seq<Event>, last: int): int
    decreases |events|
  {
    if events == [] then last
    else EndTime(events[1..], if events[0].Tick? then events[0].now else last)
  }

  // The first tick that starts `x`.
  function StartTime(store: Store, events: seq<Event>, x: Task): Option<int>
    decreases |events|
  {
    if events == [] then None
    else
      var next := After(store, events[0]);
      if events[0].Tick? && x.id in RunningIds(next) then Some(events[0].now)
      else StartTime(next, events[1..], x)
  }

  function Rounds(n: nat, step: int): int {
    if n == 0 then 0 else step + Rounds(n - 1, step)
  }

  lemma {:induction false} RoundsGrow(m: nat, n: nat, step: int)
    requires m <= n && 0 <= step
    ensures Rounds(m, step) <= Rounds(n, step)
  {
    if m < n {
      RoundsGrow(m, n - 1, step);
    }
  }

  lemma {:induction false} RoundsIsProduct(n: nat, step: int)
    ensures Rounds(n, step) == n * step
  {
    if n > 0 {
      RoundsIsProduct(n - 1, step);
      assert n * step == (n - 1) * step + step;
    }
  }

  lemma {:induction false} DeadlineWithin(task: Task, now: Time, span: int)
    requires TimeoutOf(task) <= span
    ensures WorkerDeadline(task, now) <= now + span
  {
  }

  lemma {:induction false} StartedFromAhead(store: Store, e: Event, x: Task)
    requires Safe(store) && e.Tick? && Possible(store, e)
    requires Waits(store, x) && x.at <= e.now && x.id !in RunningIds(After(store, e))
    ensures var chosen := Ids(Chosen(e.tasks, e.reports, e.alive, e.now));
            var still := StillIds(store, e.reports, e.alive, e.now);
            && RunningIds(After(store, e)) == still + chosen && still !! chosen
            && |still| + |chosen| == WORKER_CAP
            && chosen <= Ahead(store, x)
            && Waits(After(store, e), x)
  {
    hide Chosen, PlanTick, AfterTick, WorkerDeadline, Before, RunningEnd;
    RunningAfterTick(store, e.tasks, e.reports, e.alive, e.now, e.grace);
    PlanChosen(e.tasks, store, e.reports, e.alive, e.now);
    TickRecords(store, e.tasks, e.reports, e.alive, e.now, e.grace);
    var chosen := Chosen(e.tasks, e.reports, e.alive, e.now);
    var still := StillIds(store, e.reports, e.alive, e.now);
    assert still <= RunningIds(store);
    SubsetCount(still, RunningIds(store));
    assert x !in chosen;
    assert x.id !in Ids(chosen);
    forall id | id in Ids(chosen) ensures id in Ahead(store, x) {
      var t :| t in chosen && t.id == id;
      assert Before(t, store[x.id]);
    }
  }

  // A tick that passes over `x` fills every slot, and only from ahead of `x`.
  lemma {:induction false} PassedOver(store: Store, e: Event, x: Task, span: int)
    returns (started: set<string>)
    requires Safe(store) && e.Tick? && Possible(store, e)
    requires Waits(store, x) && x.at <= e.now && x.id !in RunningIds(After(store, e))
    requires Within(store, span)
    ensures var next := After(store, e);
            && Waits(next, x) && Within(next, span)
            && |RunningIds(next)| == WORKER_CAP
            && started <= Ahead(store, x) && Ahead(next, x) == Ahead(store, x) - started
            && forall id :: id in RunningIds(next) ==>
                 next[id].deadline.Some? &&
                 if id in started then next[id].deadline.value <= e.now + span
                 else id in RunningIds(store) && next[id] == store[id] && next[id].deadline.value > e.now
  {
    hide Chosen, PlanTick, AfterTick, WorkerDeadline, Before, RunningEnd, TimeoutOf;
    StartedFromAhead(store, e, x);
    TickRecords(store, e.tasks, e.reports, e.alive, e.now, e.grace);
    started := Ids(Chosen(e.tasks, e.reports, e.alive, e.now));
    var next := After(store, e);
    TickWithin(store, e, started, span);
    forall id | id in RunningIds(next)
      ensures next[id].deadline.Some?
      ensures if id in started then next[id].deadline.value <= e.now + span
              else id in RunningIds(store) && next[id] == store[id] && next[id].deadline.value > e.now
    {
      DeadlinesAhead(store, e, id);
      if id in started {
        DeadlineWithin(store[id], e.now, span);
      }
    }
  }

  lemma {:induction false} TickWithin(store: Store, e: Event, started: set<string>, span: int)
    requires Safe(store) && e.Tick? && Possible(store, e) && Within(store, span)
    requires started == Ids(Chosen(e.tasks, e.reports, e.alive, e.now))
    ensures Within(After(store, e), span)
  {
    hide Chosen, PlanTick, AfterTick, WorkerDeadline, RunningEnd;
    TickRecords(store, e.tasks, e.reports, e.alive, e.now, e.grace);
  }

  // A restart marks a waiting task late; nothing else about it changes.
  predicate SameButLate(x: Task, y: Task) {
    y == x.(late := y.late)
  }

  lemma {:induction false} CalmKeeps(store: Store, e: Event, x: Task, span: int)
    requires Safe(store) && Possible(store, e) && Calm(store, e, x, span) && !e.Tick?
    requires Waits(store, x) && Within(store, span)
    ensures var next := After(store, e);
            && x.id in next && SameButLate(x, next[x.id]) && Waits(next, next[x.id])
            && Within(next, span) && Ahead(next, next[x.id]) <= Ahead(store, x)
            && RunningIds(next) <= RunningIds(store)
            && forall id :: id in RunningIds(next) ==> next[id] == store[id]
  {
    hide TextBefore;
  }

  // Being calm does not depend on the mark.
  lemma {:induction false} CalmButLate(store: Store, events: seq<Event>, x: Task, y: Task, span: int)
    requires SameButLate(x, y) && AllCalm(store, events, x, span)
    ensures AllCalm(store, events, y, span) && StartTime(store, events, y) == StartTime(store, events, x)
    decreases |events|
  {
    if events != [] {
      hide After, RunningIds;
      CalmButLate(After(store, events[0]), events[1..], x, y, span);
    }
  }

  // The whole wait. `from` starts an epoch: every running worker was started in it (`begun`)
  // or is due to end within `span` of `from`; the started and the waiting ahead are at most `w`.
  lemma {:induction false} Wait(store: Store, events: seq<Event>, x: Task, from: int, last: int,
                                span: int, gap: int, begun: set<string>, w: nat)
    requires 0 < span && 0 <= gap
    requires Safe(store) && Valid(store, events) && AllCalm(store, events, x, span) && Steady(events, last, gap)
    requires Waits(store, x) && x.at <= last && Within(store, span)
    requires from <= last < from + span
    requires forall id :: id in RunningIds(store) ==>
               store[id].deadline.value <= last + span && (id in begun || store[id].deadline.value <= from + span)
    requires |begun| + |Ahead(store, x)| <= w
    ensures var bound := from + Rounds(w / WORKER_CAP + 1, span + gap);
            match StartTime(store, events, x)
            case None => EndTime(events, last) < bound - gap
            case Some(t) => t < bound
    decreases |events|
  {
    hide Safe, Possible, After, Calm, Waits, Within, Ahead, RunningIds;
    RoundsGrow(1, w / WORKER_CAP + 1, span + gap);
    if events != [] {
      var e := events[0];
      var next := After(store, e);
      EventIsSafe(store, e);
      SafeDeadlines(store);
      SafeDeadlines(next);
      if !e.Tick? {
        CalmKeeps(store, e, x, span);
        var y := next[x.id];
        SubsetCount(Ahead(next, y), Ahead(store, x));
        CalmButLate(next, events[1..], x, y, span);
        Wait(next, events[1..], y, from, last, span, gap, begun, w);
      } else if x.id !in RunningIds(next) {
        var started := PassedOver(store, e, x, span);
        var both := begun + started;
        UnionCount(begun, started);
        assert |Ahead(store, x) - started| == |Ahead(store, x)| - |started|;
        if e.now < from + span {
          Wait(next, events[1..], x, from, e.now, span, gap, both, w);
        } else {
          assert RunningIds(next) <= both;
          SubsetCount(RunningIds(next), both);
          var w' := |Ahead(next, x)|;
          Wait(next, events[1..], x, e.now, e.now, span, gap, {}, w');
          RoundsGrow(w' / WORKER_CAP + 1, w / WORKER_CAP, span + gap);
        }
      }
    }
  }

  lemma {:induction false} SafeDeadlines(store: Store)
    requires Safe(store)
    ensures forall id :: id in RunningIds(store) ==> id in store && store[id].deadline.Some?
  {
  }

  lemma {:induction false} UnionCount(a: set<string>, b: set<string>)
    ensures |a + b| <= |a| + |b|
  {
    assert a + b == a + (b - a);
    SubsetCount(b - a, b);
  }

  // No timeout is longer than `span`, and no running worker has longer to go.
  predicate Near(store: Store, now: int, span: int) {
    Within(store, span) && forall id :: id in RunningIds(store) ==> store[id].deadline.Some? && store[id].deadline.value <= now + span
  }

  // A due task with `k` tasks ahead starts within (k / WORKER_CAP + 1) * (span + gap).
  lemma {:induction false} BoundedWait(store: Store, events: seq<Event>, x: Task, now: int, span: int, gap: int)
    requires 0 < span && 0 <= gap
    requires Safe(store) && Valid(store, events) && AllCalm(store, events, x, span) && Steady(events, now, gap)
    requires Waits(store, x) && x.at <= now && Near(store, now, span)
    ensures var bound := now + (|Ahead(store, x)| / WORKER_CAP + 1) * (span + gap);
            EndTime(events, now) >= bound ==>
              var start := StartTime(store, events, x);
              start.Some? && start.value < bound
  {
    hide Safe, Valid, AllCalm, Waits, Within, Ahead, RunningIds;
    Wait(store, events, x, now, now, span, gap, {}, |Ahead(store, x)|);
    RoundsIsProduct(|Ahead(store, x)| / WORKER_CAP + 1, span + gap);
  }

  lemma {:induction false} EventKeepsNear(store: Store, e: Event, last: int, span: int)
    requires Safe(store) && Possible(store, e) && Near(store, last, span)
    requires e.Tick? ==> last <= e.now
    requires e.Submit? ==> TimeoutOf(e.task) <= span
    ensures Near(After(store, e), if e.Tick? then e.now else last, span)
  {
    hide Chosen, PlanTick, AfterTick, WorkerDeadline, RunningEnd, Before;
    var next := After(store, e);
    if e.Tick? {
      EventIsSafe(store, e);
      SafeDeadlines(next);
      TickWithin(store, e, Ids(Chosen(e.tasks, e.reports, e.alive, e.now)), span);
      forall id | id in RunningIds(next) ensures next[id].deadline.value <= e.now + span {
        DeadlinesAhead(store, e, id);
        if id !in RunningIds(store) {
          DeadlineWithin(store[id], e.now, span);
        }
      }
    }
  }

  // Every run of steady ticks keeps this premise of `BoundedWait`.
  lemma {:induction false} RunKeepsNear(store: Store, events: seq<Event>, last: int, span: int, gap: int)
    requires Safe(store) && Valid(store, events) && Steady(events, last, gap) && Near(store, last, span)
    requires forall k :: 0 <= k < |events| && events[k].Submit? ==> TimeoutOf(events[k].task) <= span
    ensures Near(Run(store, events), EndTime(events, last), span)
    decreases |events|
  {
    hide Safe, Possible, After, Near, TimeoutOf;
    if events != [] {
      EventIsSafe(store, events[0]);
      EventKeepsNear(store, events[0], last, span);
      assert forall k :: 0 <= k < |events[1..]| ==> events[1..][k] == events[k + 1];
      RunKeepsNear(After(store, events[0]), events[1..], if events[0].Tick? then events[0].now else last, span, gap);
    }
  }
}
