// Whole runs of checks: what one worker is nudged about and what is posted about it.
module WorkerCheckRuns {
  import opened Text
  import opened WorkerCheck

  // ----- one worker's own history -----

  // What each check saw of the worker, if it saw it at all.
  type History = seq<Option<Observation>>

  function MemoryAfter(history: History): Option<Memory> {
    if history == [] then None else
      match history[|history| - 1]
      case None => None
      case Some(obs) => Some(Remembered(MemoryAfter(history[..|history| - 1]), obs))
  }

  predicate SeenAs(history: History, n: nat, state: State)
    requires n < |history|
  {
    history[n].Some? && Classify(history[n].value) == state
  }

  // The worker reported, or was not there: either way it may be nudged again.
  predicate Fresh(seen: Option<Observation>) {
    seen.None? || seen.value.reportedSinceNudge
  }

  predicate NudgedAt(history: History, n: nat)
    requires n < |history|
  {
    history[n].Some? && Nudges(MemoryAfter(history[..n]), history[n].value)
  }

  predicate PostedAt(history: History, n: nat)
    requires n < |history|
  {
    history[n].Some? && PostsNow(MemoryAfter(history[..n]), history[n].value)
  }

  // The worker waited at some check before `n`, and nothing fresh happened since.
  ghost predicate WaitedSince(history: History, n: nat)
    requires n <= |history|
  {
    exists i :: 0 <= i < n && SeenAs(history, i, Waiting) && forall k :: i < k < n ==> !Fresh(history[k])
  }

  // The worker was Unknown at some check before `n`, and only Unknown or Working since.
  ghost predicate UnknownSince(history: History, n: nat)
    requires n <= |history|
  {
    exists i :: 0 <= i < n && SeenAs(history, i, Unknown) &&
      forall k :: i < k < n ==> SeenAs(history, k, Unknown) || SeenAs(history, k, Working)
  }

  lemma {:induction false} MemorySays(history: History, n: nat)
    requires n <= |history|
    ensures (MemoryAfter(history[..n]).Some? && MemoryAfter(history[..n]).value.nudged) <==> WaitedSince(history, n)
  {
    hide Classify, Nudges, PostsNow;
    if n > 0 {
      MemorySays(history, n - 1);
      assert history[..n][..n - 1] == history[..n - 1];
      hide MemoryAfter;
      WaitedStep(history, n);
      MemoryStep(history, n);
    }
  }

  lemma {:induction false} MemoryStep(history: History, n: nat)
    requires 0 < n <= |history|
    ensures MemoryAfter(history[..n]) ==
            if history[n - 1].None? then None
            else Some(Remembered(MemoryAfter(history[..n - 1]), history[n - 1].value))
  {
    hide Remembered;
    assert history[..n][..n - 1] == history[..n - 1];
  }

  lemma {:induction false} WaitedStep(history: History, n: nat)
    requires 0 < n <= |history|
    ensures WaitedSince(history, n) <==>
            SeenAs(history, n - 1, Waiting) || (WaitedSince(history, n - 1) && !Fresh(history[n - 1]))
  {
    hide Classify, Fresh;
    if WaitedSince(history, n) {
      var i :| 0 <= i < n && SeenAs(history, i, Waiting) && forall k :: i < k < n ==> !Fresh(history[k]);
      assert i < n - 1 ==> !Fresh(history[n - 1]);
    }
    if WaitedSince(history, n - 1) && !Fresh(history[n - 1]) {
      var i :| 0 <= i < n - 1 && SeenAs(history, i, Waiting) && forall k :: i < k < n - 1 ==> !Fresh(history[k]);
      assert forall k :: i < k < n ==> !Fresh(history[k]);
    }
  }

  lemma {:induction false} UnknownSays(history: History, n: nat)
    requires n <= |history|
    ensures (MemoryAfter(history[..n]).Some? && MemoryAfter(history[..n]).value.unknownPosted) <==> UnknownSince(history, n)
  {
    hide Classify, Nudges, PostsNow, MemoryAfter;
    if n == 0 {
      NoMemory(history);
    } else {
      UnknownSays(history, n - 1);
      UnknownStep(history, n);
      MemoryStep(history, n);
    }
  }

  lemma {:induction false} NoMemory(history: History)
    ensures MemoryAfter(history[..0]) == None
  {
  }

  lemma {:induction false} UnknownStep(history: History, n: nat)
    requires 0 < n <= |history|
    ensures UnknownSince(history, n) <==>
            SeenAs(history, n - 1, Unknown) || (UnknownSince(history, n - 1) && SeenAs(history, n - 1, Working))
  {
    hide SeenAs;
    if UnknownSince(history, n) {
      var i :| 0 <= i < n && SeenAs(history, i, Unknown) &&
        forall k :: i < k < n ==> SeenAs(history, k, Unknown) || SeenAs(history, k, Working);
      assert i < n - 1 ==> SeenAs(history, n - 1, Unknown) || SeenAs(history, n - 1, Working);
    }
    if UnknownSince(history, n - 1) && SeenAs(history, n - 1, Working) {
      var i :| 0 <= i < n - 1 && SeenAs(history, i, Unknown) &&
        forall k :: i < k < n - 1 ==> SeenAs(history, k, Unknown) || SeenAs(history, k, Working);
      assert forall k :: i < k < n ==> SeenAs(history, k, Unknown) || SeenAs(history, k, Working);
    }
  }

  // A check nudges the worker exactly when it waits and either something fresh came with this
  // check or it has not waited since the last fresh thing.
  lemma {:induction false} NudgeIff(history: History, n: nat)
    requires n < |history|
    ensures NudgedAt(history, n) <==>
            SeenAs(history, n, Waiting) && (Fresh(history[n]) || !WaitedSince(history, n))
  {
    hide Classify, WaitedSince, MemoryAfter;
    MemorySays(history, n);
  }

  lemma {:induction false} WaitedOrFresh(history: History, i: nat, j: nat)
    requires i < j <= |history| && SeenAs(history, i, Waiting)
    ensures WaitedSince(history, j) || exists k :: i < k < j && Fresh(history[k])
  {
  }

  lemma {:induction false} UnknownOrOther(history: History, i: nat, j: nat)
    requires i < j <= |history| && SeenAs(history, i, Unknown)
    ensures || UnknownSince(history, j)
            || exists k :: i < k < j && !SeenAs(history, k, Unknown) && !SeenAs(history, k, Working)
  {
  }

  // Between two nudges the worker reported or went missing.
  lemma {:induction false} NudgesApart(history: History, i: nat, j: nat) returns (k: nat)
    requires i < j < |history| && NudgedAt(history, i) && NudgedAt(history, j)
    ensures i < k <= j && Fresh(history[k])
  {
    hide Classify, MemoryAfter, Nudges, Fresh, WaitedSince;
    NudgeIff(history, i);
    NudgeIff(history, j);
    if Fresh(history[j]) {
      k := j;
    } else {
      WaitedOrFresh(history, i, j);
      k :| i < k < j && Fresh(history[k]);
    }
  }

  function NudgeCount(history: History, n: nat): nat
    requires n <= |history|
  {
    if n == 0 then 0 else NudgeCount(history, n - 1) + if NudgedAt(history, n - 1) then 1 else 0
  }

  function ReportCount(history: History, n: nat): nat
    requires n <= |history|
  {
    if n == 0 then 0 else
      ReportCount(history, n - 1) +
      if history[n - 1].Some? && history[n - 1].value.reportedSinceNudge then 1 else 0
  }

  // A worker seen at every check gets at most one nudge more than there are checks that find a new report.
  lemma {:induction false} NudgesAreBounded(history: History, n: nat)
    requires n <= |history| && forall k :: 0 <= k < n ==> history[k].Some?
    ensures NudgeCount(history, n) <= ReportCount(history, n) + 1
    ensures (MemoryAfter(history[..n]).None? || !MemoryAfter(history[..n]).value.nudged) ==>
              NudgeCount(history, n) <= ReportCount(history, n)
  {
    hide Classify, PostsNow, MemoryAfter;
    if n > 0 {
      NudgesAreBounded(history, n - 1);
      MemoryStep(history, n);
    }
  }

  // ----- the report flag -----

  // What one check finds of a worker: the worker itself, if it runs, whether a message to it is under
  // way, and when it last reported.
  datatype Check = Check(seen: Option<Observation>, sent: bool, last: Option<string>)

  // The worker's last report at its last nudge, if it was nudged.
  type NudgeRecord = Option<Option<string>>

  predicate ReportedSinceNudge(last: Option<string>, record: NudgeRecord) {
    last.Some? && (record.None? || last != record.value)
  }

  function Flagged(check: Check, record: NudgeRecord): Option<Observation> {
    if check.seen.None? then None
    else Some(check.seen.value.(reportedSinceNudge := !check.sent && ReportedSinceNudge(check.last, record)))
  }

  // A check that nudges notes the last report; the note of a worker that is gone is dropped.
  function NextRecord(check: Check, record: NudgeRecord, memory: Option<Memory>): NudgeRecord {
    var seen := Flagged(check, record);
    if seen.None? then None else if Nudges(memory, seen.value) then Some(check.last) else record
  }

  // The checks with their report flags, and the note they leave.
  function Watched(checks: seq<Check>): (r: (History, NudgeRecord))
    ensures |r.0| == |checks|
  {
    if checks == [] then ([], None) else
      var (history, record) := Watched(checks[..|checks| - 1]);
      var check := checks[|checks| - 1];
      (history + [Flagged(check, record)], NextRecord(check, record, MemoryAfter(history)))
  }

  // Checks that find another last report than the check before.
  function NewReports(checks: seq<Check>): nat {
    if |checks| < 2 then 0 else
      var n := |checks| - 1;
      NewReports(checks[..n]) + if checks[n].last != checks[n - 1].last then 1 else 0
  }

  function Absences(checks: seq<Check>): nat {
    if checks == [] then 0 else
      Absences(checks[..|checks| - 1]) + if checks[|checks| - 1].seen.None? then 1 else 0
  }

  predicate Nudged(memory: Option<Memory>) {
    memory.Some? && memory.value.nudged
  }

  lemma {:induction false} CountOfFront(history: History, more: History, n: nat)
    requires n <= |history|
    ensures NudgeCount(history + more, n) == NudgeCount(history, n)
  {
    if n > 0 {
      hide Nudges;
      CountOfFront(history, more, n - 1);
      assert (history + more)[..n - 1] == history[..n - 1];
    }
  }

  lemma {:induction false} WatchedStep(checks: seq<Check>)
    requires checks != []
    ensures var front, check := checks[..|checks| - 1], checks[|checks| - 1];
            var (before, record) := Watched(front);
            var (history, after) := Watched(checks);
            var seen, memory := Flagged(check, record), MemoryAfter(before);
            && after == NextRecord(check, record, memory)
            && MemoryAfter(history) == (if seen.None? then None else Some(Remembered(memory, seen.value)))
            && (NudgeCount(history, |checks|) ==
                NudgeCount(before, |front|) + if seen.Some? && Nudges(memory, seen.value) then 1 else 0)
  {
    hide Nudges, Remembered, Flagged, NextRecord;
    var front, check := checks[..|checks| - 1], checks[|checks| - 1];
    var (before, record) := Watched(front);
    var history := Watched(checks).0;
    var n := |front|;
    assert history == before + [Flagged(check, record)];
    assert history[..n] == before;
    CountOfFront(before, [Flagged(check, record)], n);
  }

  // What keeps the nudges down: a worker that may be nudged again reported, or was gone, since its last nudge.
  lemma {:induction false} NudgesPerReport(checks: seq<Check>)
    ensures var (history, record) := Watched(checks);
            var spent := NudgeCount(history, |checks|);
            var earned := NewReports(checks) + Absences(checks);
            && spent <= earned + 1
            && (!Nudged(MemoryAfter(history)) || record.None? || checks == [] || checks[|checks| - 1].last != record.value ==>
                  spent <= earned)
  {
    hide Classify, Nudges, MemoryAfter, Watched, NudgeCount, Flagged, NextRecord, Remembered, ReportedSinceNudge;
    if checks == [] {
      NothingWatched();
    } else {
      var front, check := checks[..|checks| - 1], checks[|checks| - 1];
      NudgesPerReport(front);
      WatchedStep(checks);
      var (before, record) := Watched(front);
      CheckStep(check, record, MemoryAfter(before));
      assert front != [] ==> front[|front| - 1] == checks[|checks| - 2];
    }
  }

  lemma {:induction false} NothingWatched()
    ensures Watched([]) == ([], None) && MemoryAfter([]) == None && NudgeCount([], 0) == 0
  {
  }

  // One check: whom it may nudge, and who may be nudged behind it.
  lemma {:induction false} CheckStep(check: Check, record: NudgeRecord, memory: Option<Memory>)
    ensures var seen, after := Flagged(check, record), NextRecord(check, record, memory);
            && (seen.None? <==> check.seen.None?)
            && (seen.None? ==> after.None?)
            && (seen.Some? ==>
                  var next := Some(Remembered(memory, seen.value));
                  var news := record.None? || check.last != record.value;
                  if Nudges(memory, seen.value) then Nudged(next) && after == Some(check.last) && (!Nudged(memory) || news)
                  else after == record && (Nudged(next) || !Nudged(memory) || news))
  {
    hide Classify;
  }

  // A post about Unknown goes out exactly at the first Unknown of a stretch of Unknown and Working.
  lemma {:induction false} UnknownPostIff(history: History, n: nat)
    requires n < |history| && SeenAs(history, n, Unknown)
    ensures PostedAt(history, n) <==> history[n].value.kind == Claude && !UnknownSince(history, n)
  {
    hide Classify, UnknownSince, MemoryAfter;
    UnknownSays(history, n);
    StateKept(history, n);
    assert n > 0 && SeenAs(history, n - 1, Unknown) ==> UnknownSince(history, n) by {
      if n > 0 {
        UnknownStep(history, n);
      }
    }
  }

  // The state remembered is the one seen at the check before.
  lemma {:induction false} StateKept(history: History, n: nat)
    requires n <= |history|
    ensures var memory := MemoryAfter(history[..n]);
            if n == 0 || history[n - 1].None? then memory.None?
            else memory.Some? && memory.value.state == Classify(history[n - 1].value)
  {
    hide Classify, MemoryAfter;
    if n == 0 {
      NoMemory(history);
    } else {
      MemoryStep(history, n);
    }
  }

  // Between two posts about Unknown the worker was in some state other than Unknown and Working.
  lemma {:induction false} UnknownPostsApart(history: History, i: nat, j: nat) returns (k: nat)
    requires i < j < |history| && SeenAs(history, i, Unknown) && SeenAs(history, j, Unknown)
    requires PostedAt(history, i) && PostedAt(history, j)
    ensures i < k < j && !SeenAs(history, k, Unknown) && !SeenAs(history, k, Working)
  {
    hide SeenAs, PostedAt, UnknownSince;
    UnknownPostIff(history, j);
    UnknownOrOther(history, i, j);
    k :| i < k < j && !SeenAs(history, k, Unknown) && !SeenAs(history, k, Working);
  }

  // Any other state is posted exactly when the check before did not see it.
  lemma {:induction false} PostIff(history: History, n: nat, state: State)
    requires n < |history| && SeenAs(history, n, state) && state != Unknown
    ensures PostedAt(history, n) <==>
            Posts(state, history[n].value.kind) && (n == 0 || !SeenAs(history, n - 1, state))
  {
    hide Classify, Posts, MemoryAfter;
    StateKept(history, n);
  }

  // ----- all workers together -----

  type Round = seq<Observation>

  predicate Distinct(round: Round) {
    forall i, j :: 0 <= i < j < |round| ==> round[i].id != round[j].id
  }

  function MemoriesAfter(rounds: seq<Round>): Memories {
    if rounds == [] then map[] else
      PlannedMemories(MemoriesAfter(rounds[..|rounds| - 1]), rounds[|rounds| - 1])
  }

  // The last observation of the worker in a round.
  function Own(round: Round, id: string): Option<Observation> {
    if round == [] then None
    else if round[|round| - 1].id == id then Some(round[|round| - 1])
    else Own(round[..|round| - 1], id)
  }

  function OwnHistory(rounds: seq<Round>, id: string): (history: History)
    ensures |history| == |rounds|
    ensures forall r :: 0 <= r < |rounds| ==> history[r] == Own(rounds[r], id)
  {
    seq(|rounds|, r requires 0 <= r < |rounds| => Own(rounds[r], id))
  }

  function OwnActions(actions: seq<Action>, id: string): seq<Action> {
    if actions == [] then [] else
      OwnActions(actions[..|actions| - 1], id) +
      if actions[|actions| - 1].id == id then [actions[|actions| - 1]] else []
  }

  lemma {:induction false} OwnActionsConcat(a: seq<Action>, b: seq<Action>, id: string)
    ensures OwnActions(a + b, id) == OwnActions(a, id) + OwnActions(b, id)
  {
    if b == [] {
      assert a + b == a;
    } else {
      assert (a + b)[..|a + b| - 1] == a + b[..|b| - 1];
      OwnActionsConcat(a, b[..|b| - 1], id);
    }
  }

  lemma {:induction false} OwnActionsFor(prev: Option<Memory>, obs: Observation, id: string)
    ensures OwnActions(ActionsFor(prev, obs), id) == if obs.id == id then ActionsFor(prev, obs) else []
  {
    hide Nudges, PostsNow, Classify;
    var nudge: seq<Action> := if Nudges(prev, obs) then [Nudge(obs.id)] else [];
    var post: seq<Action> := if PostsNow(prev, obs) then [Inbox(obs.id, Classify(obs))] else [];
    OwnActionsConcat(nudge, post, id);
    assert [Nudge(obs.id)][..0] == [] && [Inbox(obs.id, Classify(obs))][..0] == [];
  }

  lemma {:induction false} NotOwn(prev: Memories, round: Round, id: string)
    requires Own(round, id).None?
    ensures OwnActions(PlannedActions(prev, round), id) == []
    ensures id !in PlannedMemories(prev, round)
  {
    hide ActionsFor, Remembered;
    if round != [] {
      var front, last := round[..|round| - 1], round[|round| - 1];
      NotOwn(prev, front, id);
      OwnActionsConcat(PlannedActions(prev, front), ActionsFor(Recall(prev, last.id), last), id);
      OwnActionsFor(Recall(prev, last.id), last, id);
    }
  }

  lemma {:induction false} OwnAbsent(round: Round, id: string)
    requires forall i :: 0 <= i < |round| ==> round[i].id != id
    ensures Own(round, id).None?
  {
    if round != [] {
      OwnAbsent(round[..|round| - 1], id);
    }
  }

  // One check treats a worker by its own memory and its own observation.
  lemma {:induction false} OneCheckIsOwn(prev: Memories, round: Round, id: string)
    requires Distinct(round)
    ensures var (seen, memory) := (Own(round, id), Recall(prev, id));
            && (Recall(PlannedMemories(prev, round), id) ==
                if seen.None? then None else Some(Remembered(memory, seen.value)))
            && (OwnActions(PlannedActions(prev, round), id) ==
                if seen.None? then [] else ActionsFor(memory, seen.value))
  {
    hide ActionsFor, Remembered;
    if Own(round, id).None? {
      NotOwn(prev, round, id);
    } else {
      var front, last := round[..|round| - 1], round[|round| - 1];
      OwnActionsConcat(PlannedActions(prev, front), ActionsFor(Recall(prev, last.id), last), id);
      OwnActionsFor(Recall(prev, last.id), last, id);
      if last.id == id {
        OwnAbsent(front, id);
        NotOwn(prev, front, id);
        assert [] + ActionsFor(Recall(prev, id), last) == ActionsFor(Recall(prev, id), last);
      } else {
        OneCheckIsOwn(prev, front, id);
        assert OwnActions(PlannedActions(prev, front), id) + [] == OwnActions(PlannedActions(prev, front), id);
      }
    }
  }

  lemma {:induction false} MemoryIsOwn(rounds: seq<Round>, n: nat, id: string)
    requires n <= |rounds| && forall r :: 0 <= r < |rounds| ==> Distinct(rounds[r])
    ensures Recall(MemoriesAfter(rounds[..n]), id) == MemoryAfter(OwnHistory(rounds, id)[..n])
  {
    hide Own, OwnActions, PlannedActions, PlannedMemories, Distinct, ActionsFor, Remembered, OwnHistory, MemoryAfter;
    if n == 0 {
      NoMemory(OwnHistory(rounds, id));
    } else {
      MemoryIsOwn(rounds, n - 1, id);
      OneCheckIsOwn(MemoriesAfter(rounds[..n - 1]), rounds[n - 1], id);
      MemoryStep(OwnHistory(rounds, id), n);
      assert rounds[..n][..n - 1] == rounds[..n - 1];
    }
  }

  // Over any run of checks, what a check remembers of a worker and does about it depends on the
  // worker's own history only.
  lemma {:induction false} WorkersAreIndependent(rounds: seq<Round>, n: nat, id: string)
    requires n < |rounds| && forall r :: 0 <= r < |rounds| ==> Distinct(rounds[r])
    ensures var (before, history) := (MemoriesAfter(rounds[..n]), OwnHistory(rounds, id));
            && Recall(PlannedMemories(before, rounds[n]), id) == MemoryAfter(history[..n + 1])
            && (OwnActions(PlannedActions(before, rounds[n]), id) ==
                if history[n].None? then [] else ActionsFor(MemoryAfter(history[..n]), history[n].value))
  {
    hide Own, OwnActions, PlannedActions, PlannedMemories, Distinct, ActionsFor, Remembered, OwnHistory, MemoryAfter, MemoriesAfter;
    MemoryIsOwn(rounds, n, id);
    OneCheckIsOwn(MemoriesAfter(rounds[..n]), rounds[n], id);
    MemoryStep(OwnHistory(rounds, id), n + 1);
  }
}
