// What the check sees in a worker, said of the observation: the strongest of the signs it shows.
module WorkerCheckStates {
  import opened Text
  import opened WorkerCheck
  import opened WorkerCheckRuns

  // A mark of work that is at most ten minutes old, or an hour for work in the background.
  predicate FreshMark(obs: Observation) {
    || (obs.activity == Some(Running) && obs.activityAge <= 600)
    || (obs.activity == Some(Background) && obs.activityAge <= 3600)
  }

  // Ready, with a pane to look at, and no sign of work, of a report to come or of a stall handled elsewhere.
  predicate Silent(obs: Observation) {
    && obs.ready && !obs.unreported && obs.pane.Some? && !obs.pane.value.busy && !FreshMark(obs)
    && !(obs.autoContinue && obs.activity == Some(Failed))
  }

  predicate AsksTrust(obs: Observation) {
    !obs.ready && obs.pane.Some? && obs.pane.value.trustAnswer
  }

  predicate Shows(obs: Observation, state: State) {
    match state
    case BlockedPermission => obs.blocked
    case BlockedTrust => AsksTrust(obs)
    case Waiting => obs.waiting
    case Reported => obs.reportedSinceNudge
    case Unknown => Silent(obs)
    case Working => true
  }

  // The strongest sign first.
  function Rank(state: State): nat {
    match state
    case BlockedPermission => 0
    case BlockedTrust => 1
    case Waiting => 2
    case Reported => 3
    case Unknown => 4
    case Working => 5
  }

  ghost predicate Strongest(obs: Observation, state: State) {
    Shows(obs, state) && forall other :: Shows(obs, other) ==> Rank(state) <= Rank(other)
  }

  lemma {:induction false} MarkHolds(obs: Observation)
    requires obs.pane.Some?
    ensures IsBusy(obs) <==> FreshMark(obs) || obs.pane.value.busy
  {
  }

  lemma {:induction false} RankIsOwn(a: State, b: State)
    requires Rank(a) == Rank(b)
    ensures a == b
  {
  }

  // The state is the strongest sign the worker shows, and no other.
  lemma {:induction false} StateIsStrongest(obs: Observation, state: State)
    ensures Classify(obs) == state <==> Strongest(obs, state)
  {
    if obs.pane.Some? {
      MarkHolds(obs);
    }
    hide IsBusy, FreshMark;
    assert Shows(obs, Classify(obs));
    assert forall other :: Shows(obs, other) ==> Rank(Classify(obs)) <= Rank(other);
    if Strongest(obs, state) {
      RankIsOwn(state, Classify(obs));
    }
  }

  predicate Stopped(seen: Option<Observation>) {
    seen.Some? && seen.value.waiting && !seen.value.blocked && !AsksTrust(seen.value)
  }

  lemma {:induction false} StoppedIsWaiting(obs: Observation)
    ensures Stopped(Some(obs)) <==> Strongest(obs, Waiting)
  {
    assert Shows(obs, BlockedPermission) <==> obs.blocked;
    assert Shows(obs, BlockedTrust) <==> AsksTrust(obs);
    hide Silent, AsksTrust;
  }

  ghost predicate StoppedSince(history: History, n: nat)
    requires n <= |history|
  {
    exists i :: 0 <= i < n && Stopped(history[i]) && forall k :: i < k < n ==> !Fresh(history[k])
  }

  lemma {:induction false} SeenIsStopped(history: History, n: nat)
    requires n < |history|
    ensures SeenAs(history, n, Waiting) <==> Stopped(history[n])
  {
    hide Strongest, Classify, AsksTrust;
    if history[n].Some? {
      StateIsStrongest(history[n].value, Waiting);
      StoppedIsWaiting(history[n].value);
    }
  }

  // A worker is nudged exactly when it stopped, and either reported with this check or had not
  // stopped since it last reported or was gone.
  lemma {:induction false} NudgeRule(history: History, n: nat)
    requires n < |history|
    ensures NudgedAt(history, n) <==> Stopped(history[n]) && (Fresh(history[n]) || !StoppedSince(history, n))
  {
    hide SeenAs, Stopped, Fresh, NudgedAt;
    NudgeIff(history, n);
    forall k | 0 <= k <= n ensures SeenAs(history, k, Waiting) <==> Stopped(history[k]) {
      SeenIsStopped(history, k);
    }
  }

  // A worker that shows no sign but work is left alone, whatever is remembered of it.
  lemma {:induction false} BusyIsLeftAlone(history: History, n: nat)
    requires n < |history| && history[n].Some?
    requires var obs := history[n].value; !obs.blocked && !AsksTrust(obs) && !obs.waiting && !Silent(obs)
    ensures !NudgedAt(history, n) && !PostedAt(history, n)
  {
    var obs := history[n].value;
    forall state | Strongest(obs, state) ensures state == Working || state == Reported {
      assert Shows(obs, state);
    }
    StateIsStrongest(obs, Classify(obs));
    hide Classify, Strongest, MemoryAfter, Silent, AsksTrust;
  }

  // At first sight a stopped worker is posted about, and a worker that asks for a permission if its
  // kind can be answered; about trust and about silence only Claude is.
  lemma {:induction false} FirstPost(obs: Observation)
    ensures PostsNow(None, obs) <==>
            || Stopped(Some(obs))
            || (obs.blocked && (obs.kind == Claude || obs.kind == Opencode))
            || (obs.kind == Claude && (Strongest(obs, BlockedTrust) || Strongest(obs, Unknown)))
  {
    var state := Classify(obs);
    forall other ensures Strongest(obs, other) <==> state == other {
      StateIsStrongest(obs, other);
    }
    StoppedIsWaiting(obs);
    assert obs.blocked ==> Strongest(obs, BlockedPermission);
    assert state == BlockedPermission ==> Shows(obs, state);
    hide Classify, Strongest, Stopped, Shows;
  }
}
