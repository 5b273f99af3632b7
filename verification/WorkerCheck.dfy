// The periodic check on workers: nudging those that stopped and posting what needs an answer.
module WorkerCheck {
  import opened Text

  datatype Harness = Claude | Cursor | Opencode | Codex | ClaudeHeadless
  datatype Activity = Running | Background | Idle | Failed

  // What the core reads off a captured terminal pane.
  datatype Pane = Pane(trustAnswer: bool, busy: bool)

  datatype Observation = Observation(
    id: string, kind: Harness, ready: bool, blocked: bool, waiting: bool, unreported: bool,
    reportedSinceNudge: bool, pane: Option<Pane>, activity: Option<Activity>, activityAge: nat,
    autoContinue: bool)

  datatype State = Working | Waiting | BlockedPermission | BlockedTrust | Unknown | Reported

  // A post names the state it is about; its wording is left out.
  datatype Action = Nudge(id: string) | Inbox(id: string, about: State)

  datatype Memory = Memory(state: State, nudged: bool, unknownPosted: bool)

  const RUNNING_STALE_SECS := 600
  const BACKGROUND_STALE_SECS := 3600

  predicate BusyMarkStale(activity: Activity, age: nat) {
    match activity
    case Running => age > RUNNING_STALE_SECS
    case Background => age > BACKGROUND_STALE_SECS
    case _ => false
  }

  predicate IsBusy(obs: Observation) {
    || (&& obs.activity.Some? && (obs.activity.value.Running? || obs.activity.value.Background?)
        && !(obs.pane.Some? && BusyMarkStale(obs.activity.value, obs.activityAge)))
    || (obs.pane.Some? && obs.pane.value.busy)
  }

  function Classify(obs: Observation): State {
    if obs.blocked then BlockedPermission
    else if obs.pane.Some? && !obs.ready && obs.pane.value.trustAnswer then BlockedTrust
    else if obs.waiting then Waiting
    else if obs.reportedSinceNudge then Reported
    else if && obs.ready && !obs.unreported && !IsBusy(obs) && obs.pane.Some?
            && !(obs.autoContinue && obs.activity == Some(Failed)) then Unknown
    else Working
  }

  // Whether a worker of this kind gets a post about the state.
  predicate Posts(state: State, kind: Harness) {
    match state
    case Waiting => true
    case BlockedPermission => kind == Claude || kind == Opencode
    case BlockedTrust => kind == Claude
    case Unknown => kind == Claude
    case _ => false
  }

  // ----- one worker -----

  predicate Nudges(prev: Option<Memory>, obs: Observation) {
    Classify(obs).Waiting? && (obs.reportedSinceNudge || prev.None? || !prev.value.nudged)
  }

  predicate PostsNow(prev: Option<Memory>, obs: Observation) {
    var state := Classify(obs);
    && (prev.None? || prev.value.state != state)
    && !(state.Unknown? && prev.Some? && prev.value.unknownPosted)
    && Posts(state, obs.kind)
  }

  function Remembered(prev: Option<Memory>, obs: Observation): Memory {
    var state := Classify(obs);
    Memory(state,
           state.Waiting? || (prev.Some? && prev.value.nudged && !obs.reportedSinceNudge),
           state.Unknown? || (state.Working? && prev.Some? && prev.value.unknownPosted))
  }

  function ActionsFor(prev: Option<Memory>, obs: Observation): seq<Action> {
    (if Nudges(prev, obs) then [Nudge(obs.id)] else []) +
    (if PostsNow(prev, obs) then [Inbox(obs.id, Classify(obs))] else [])
  }

  // ----- one check -----

  type Memories = map<string, Memory>

  function Recall(memories: Memories, id: string): Option<Memory> {
    if id in memories then Some(memories[id]) else None
  }

  function PlannedActions(prev: Memories, observations: seq<Observation>): seq<Action> {
    if observations == [] then [] else
      var last := observations[|observations| - 1];
      PlannedActions(prev, observations[..|observations| - 1]) + ActionsFor(Recall(prev, last.id), last)
  }

  function PlannedMemories(prev: Memories, observations: seq<Observation>): Memories {
    if observations == [] then map[] else
      var last := observations[|observations| - 1];
      PlannedMemories(prev, observations[..|observations| - 1])[last.id := Remembered(Recall(prev, last.id), last)]
  }

  method Plan(prev: Memories, observations: seq<Observation>) returns (actions: seq<Action>, next: Memories)
    ensures actions == PlannedActions(prev, observations)
    ensures next == PlannedMemories(prev, observations)
  {
    hide Classify, Posts, PlannedActions, PlannedMemories, Remembered, ActionsFor;
    actions, next := [], map[];
    PlannedNone(prev);
    for i := 0 to |observations|
      invariant actions == PlannedActions(prev, observations[..i])
      invariant next == PlannedMemories(prev, observations[..i])
    {
      PlannedOne(prev, observations, i);
      var obs := observations[i];
      var state := Classify(obs);
      var entry := Recall(prev, obs.id);
      var nudged := entry.Some? && entry.value.nudged && !obs.reportedSinceNudge;
      ghost var before := actions;
      if state == Waiting && !nudged {
        actions := actions + [Nudge(obs.id)];
        nudged := true;
      }
      var wasUnknownPosted := entry.Some? && entry.value.unknownPosted;
      var repeatUnknown := state == Unknown && wasUnknownPosted;
      if (entry.None? || entry.value.state != state) && !repeatUnknown && Posts(state, obs.kind) {
        actions := actions + [Inbox(obs.id, state)];
      }
      ActionsInTurn(before, entry, obs);
      var unknownPosted := if state == Unknown then true else state == Working && wasUnknownPosted;
      RememberedParts(entry, obs);
      next := next[obs.id := Memory(state, nudged, unknownPosted)];
    }
    assert observations[..|observations|] == observations;
  }

  lemma {:induction false} PlannedNone(prev: Memories)
    ensures PlannedActions(prev, []) == [] && PlannedMemories(prev, []) == map[]
  {
  }

  lemma {:induction false} PlannedOne(prev: Memories, observations: seq<Observation>, i: nat)
    requires i < |observations|
    ensures var entry := Recall(prev, observations[i].id);
            && (PlannedActions(prev, observations[..i + 1]) ==
                PlannedActions(prev, observations[..i]) + ActionsFor(entry, observations[i]))
            && (PlannedMemories(prev, observations[..i + 1]) ==
                PlannedMemories(prev, observations[..i])[observations[i].id := Remembered(entry, observations[i])])
  {
    hide ActionsFor, Remembered;
    assert observations[..i + 1][..i] == observations[..i];
  }

  lemma {:induction false} ActionsInTurn(before: seq<Action>, prev: Option<Memory>, obs: Observation)
    ensures before + ActionsFor(prev, obs) ==
            (var nudged := if Nudges(prev, obs) then before + [Nudge(obs.id)] else before;
             if PostsNow(prev, obs) then nudged + [Inbox(obs.id, Classify(obs))] else nudged)
  {
    hide Nudges, PostsNow;
    assert before + [] == before;
  }

  lemma {:induction false} RememberedParts(prev: Option<Memory>, obs: Observation)
    ensures var state := Classify(obs);
            Remembered(prev, obs) ==
            Memory(state, Nudges(prev, obs) || (prev.Some? && prev.value.nudged && !obs.reportedSinceNudge),
                   state.Unknown? || (state.Working? && prev.Some? && prev.value.unknownPosted))
  {
    hide Classify;
  }
}
