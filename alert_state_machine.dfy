/**
 * The hysteresis alert/recovery state machine evaluated on every poll tick.
 * The state is the alert flag, the pending start of the current candidate
 * transition and the two event logs; `Evaluate` is one call of the
 * component's `checkIfUnderHighLoad`.
 */
module AlertStateMachine {
  import opened Options
  import opened Samples

  /** A candidate transition commits once its condition has held this long: 2 minutes, in milliseconds. */
  const SustainMs: int := 120000

  /**
   * `alertMode`, the pending start `startingTimestampOfAlertOrRecovery`
   * (milliseconds, or `None` for `null`), and the times at which alerts and
   * recoveries were recorded.
   */
  datatype AlertState = AlertState(
    alertMode: bool,
    pendingSince: Option<int>,
    alertEvents: seq<int>,
    recoveryEvents: seq<int>)

  /** One poll tick as the state machine sees it: the load just received and the clock. */
  datatype Sample = Sample(load: Load, now: nat)

  /** The state when the component mounts: not alerting, nothing pending, both logs empty. */
  function Initial(): AlertState
  {
    AlertState(false, None, [], [])
  }

  /** The candidacy condition: `>= 1` while not alerting, `< 1` while alerting. */
  predicate CandidacyHolds(alertMode: bool, load: Load)
  {
    if alertMode then BelowThreshold(load) else AtOrAboveThreshold(load)
  }

  /** The pending start is tested for truthiness, so `null` and a timestamp of 0 both read as unset. */
  predicate IsSet(pending: Option<int>)
  {
    pending.Some? && pending.value != 0
  }

  /** Transitions alternate: one more alert than recoveries while alerting, as many otherwise. */
  predicate Alternates(s: AlertState)
  {
    |s.alertEvents| == |s.recoveryEvents| + (if s.alertMode then 1 else 0)
  }

  /** One evaluation of the newest load at time `now`. */
  function Evaluate(s: AlertState, load: Load, now: nat): (r: AlertState)
    // A broken condition clears the pending start and changes nothing else.
    ensures !CandidacyHolds(s.alertMode, load) ==> r == s.(pendingSince := None)
    // A condition that holds with nothing pending starts the debounce at `now`.
    ensures CandidacyHolds(s.alertMode, load) && !IsSet(s.pendingSince) ==>
              r == s.(pendingSince := Some(now))
    // The mode flips exactly when the condition holds and has been pending for
    // at least the sustain duration (inclusive).
    ensures r.alertMode != s.alertMode <==>
              CandidacyHolds(s.alertMode, load) && IsSet(s.pendingSince) &&
              now - s.pendingSince.value >= SustainMs
    // A commit clears the pending start and appends `now` to the matching log only.
    ensures r.alertMode != s.alertMode ==>
              r.pendingSince == None &&
              if s.alertMode then
                r.alertEvents == s.alertEvents && r.recoveryEvents == s.recoveryEvents + [now]
              else
                r.alertEvents == s.alertEvents + [now] && r.recoveryEvents == s.recoveryEvents
    // While the condition holds but the sustain duration has not elapsed, nothing changes.
    ensures (CandidacyHolds(s.alertMode, load) && IsSet(s.pendingSince) && r.alertMode == s.alertMode)
              ==> r == s
    ensures Alternates(s) ==> Alternates(r)
  {
    if !CandidacyHolds(s.alertMode, load) then
      s.(pendingSince := None)
    else if !IsSet(s.pendingSince) then
      s.(pendingSince := Some(now))
    else if now - s.pendingSince.value >= SustainMs then
      if s.alertMode then
        AlertState(false, None, s.alertEvents, s.recoveryEvents + [now])
      else
        AlertState(true, None, s.alertEvents + [now], s.recoveryEvents)
    else
      s
  }

  /** `states[i + 1]` is the state after evaluating `samples[i]` in `states[i]`. */
  ghost predicate IsRun(states: seq<AlertState>, samples: seq<Sample>)
  {
    && |states| == |samples| + 1
    && forall i :: 0 <= i < |samples| ==>
         states[i + 1] == Evaluate(states[i], samples[i].load, samples[i].now)
  }

  /** The states visited when `samples` are evaluated one after another from `s0`. */
  function Run(s0: AlertState, samples: seq<Sample>): (states: seq<AlertState>)
    ensures IsRun(states, samples) && states[0] == s0
    decreases |samples|
  {
    if samples == [] then
      [s0]
    else
      var prefix := Run(s0, samples[..|samples| - 1]);
      var last := samples[|samples| - 1];
      prefix + [Evaluate(prefix[|prefix| - 1], last.load, last.now)]
  }

  /** Every state of a run that starts consistent satisfies the alternation invariant. */
  lemma {:induction false} RunAlternates(states: seq<AlertState>, samples: seq<Sample>)
    requires IsRun(states, samples) && Alternates(states[0])
    ensures forall i :: 0 <= i < |states| ==> Alternates(states[i])
  {
    if samples != [] {
      var n := |samples| - 1;
      assert IsRun(states[..n + 1], samples[..n]);
      RunAlternates(states[..n + 1], samples[..n]);
      assert Alternates(states[n]);
    }
  }

  /** Both event logs only grow: each state's logs are prefixes of every later state's. */
  lemma {:induction false} RunLogsOnlyGrow(states: seq<AlertState>, samples: seq<Sample>)
    requires IsRun(states, samples)
    ensures forall i, j :: 0 <= i <= j < |states| ==>
              states[i].alertEvents <= states[j].alertEvents &&
              states[i].recoveryEvents <= states[j].recoveryEvents
  {
    if samples != [] {
      var n := |samples| - 1;
      var init := states[..n + 1];
      assert IsRun(init, samples[..n]);
      RunLogsOnlyGrow(init, samples[..n]);
      var last := states[n + 1];
      assert last.alertEvents[..|states[n].alertEvents|] == states[n].alertEvents;
      assert last.recoveryEvents[..|states[n].recoveryEvents|] == states[n].recoveryEvents;
      forall i | 0 <= i <= n
        ensures states[i].alertEvents <= last.alertEvents
        ensures states[i].recoveryEvents <= last.recoveryEvents
      {
        assert init[i] == states[i] && init[n] == states[n];
        PrefixTransitive(states[i].alertEvents, states[n].alertEvents, last.alertEvents);
        PrefixTransitive(states[i].recoveryEvents, states[n].recoveryEvents, last.recoveryEvents);
      }
    }
  }

  /** The prefix order on event logs is transitive. */
  lemma PrefixTransitive(a: seq<int>, b: seq<int>, c: seq<int>)
    requires a <= b && b <= c
    ensures a <= c
  {
  }

  /**
   * A pending start in a run that began with nothing pending was set by some
   * earlier evaluation `j`, at that sample's time, and every evaluation from
   * `j` on satisfied the candidacy condition in the same mode.
   */
  lemma {:induction false} PendingStartedByStreak(states: seq<AlertState>, samples: seq<Sample>, n: nat)
    returns (j: nat)
    requires IsRun(states, samples) && states[0].pendingSince == None
    requires n < |states| && states[n].pendingSince.Some?
    ensures j < n && states[n].pendingSince == Some(samples[j].now)
    ensures forall i :: j <= i < n ==>
              states[i].alertMode == states[n].alertMode &&
              CandidacyHolds(states[n].alertMode, samples[i].load)
  {
    var k := n - 1;
    var prev := states[k];
    if CandidacyHolds(prev.alertMode, samples[k].load) && !IsSet(prev.pendingSince) {
      j := k;
    } else {
      j := PendingStartedByStreak(states, samples, k);
    }
  }

  /**
   * Debounce requires continuity: a transition committed at evaluation `n`
   * was preceded by an unbroken streak of evaluations `j..n`, all in the same
   * mode and all satisfying the condition, spanning at least the sustain
   * duration. A single failing evaluation inside that span is impossible.
   */
  lemma CommitFollowsSustainedStreak(states: seq<AlertState>, samples: seq<Sample>, n: nat)
    returns (j: nat)
    requires IsRun(states, samples) && states[0].pendingSince == None
    requires n < |samples| && states[n + 1].alertMode != states[n].alertMode
    ensures j < n && samples[n].now - samples[j].now >= SustainMs
    ensures forall i :: j <= i <= n ==>
              states[i].alertMode == states[n].alertMode &&
              CandidacyHolds(states[n].alertMode, samples[i].load)
  {
    j := PendingStartedByStreak(states, samples, n);
  }

  /**
   * A failing evaluation resets progress to zero: when sample times do not go
   * backwards, a commit at `n` after a failing evaluation `f` in the same
   * mode still needs the full sustain duration counted from the evaluation
   * after `f`.
   */
  lemma BreakRestartsDebounce(states: seq<AlertState>, samples: seq<Sample>, f: nat, n: nat)
    requires IsRun(states, samples) && states[0].pendingSince == None
    requires forall i :: 0 < i < |samples| ==> samples[i - 1].now <= samples[i].now
    requires f < n < |samples| && states[n + 1].alertMode != states[n].alertMode
    requires !CandidacyHolds(states[f].alertMode, samples[f].load)
    ensures samples[n].now - samples[f + 1].now >= SustainMs
  {
    var j := CommitFollowsSustainedStreak(states, samples, n);
    NowMonotone(samples, f + 1, j);
  }

  lemma {:induction false} NowMonotone(samples: seq<Sample>, a: nat, b: nat)
    requires forall i :: 0 < i < |samples| ==> samples[i - 1].now <= samples[i].now
    requires a <= b < |samples|
    ensures samples[a].now <= samples[b].now
    decreases b - a
  {
    if a < b {
      NowMonotone(samples, a + 1, b);
    }
  }

  /**
   * The sustain boundary is inclusive and exact: when a streak starts from
   * nothing pending at evaluation `j` and the condition keeps holding, the
   * mode flips at the first later evaluation `i` whose time is at least the
   * sustain duration after sample `j`, and not before. (A start time of 0
   * reads as unset, so it is excluded.)
   */
  lemma SustainedStreakCommits(states: seq<AlertState>, samples: seq<Sample>, j: nat, n: nat)
    returns (i: nat)
    requires IsRun(states, samples)
    requires j < n < |samples|
    requires !IsSet(states[j].pendingSince) && samples[j].now != 0
    requires forall k :: j <= k <= n ==> CandidacyHolds(states[j].alertMode, samples[k].load)
    requires samples[n].now - samples[j].now >= SustainMs
    ensures j < i <= n && states[i + 1].alertMode != states[j].alertMode
    ensures samples[i].now - samples[j].now >= SustainMs
    ensures forall k :: j < k < i ==> samples[k].now - samples[j].now < SustainMs
    ensures forall k :: j <= k <= i ==> states[k].alertMode == states[j].alertMode
  {
    var start := Some(samples[j].now);
    i := j + 1;
    while samples[i].now - samples[j].now < SustainMs
      invariant j < i <= n
      invariant states[i].alertMode == states[j].alertMode && states[i].pendingSince == start
      invariant forall k :: j < k < i ==> samples[k].now - samples[j].now < SustainMs
      invariant forall k :: j <= k <= i ==> states[k].alertMode == states[j].alertMode
      decreases n - i
    {
      i := i + 1;
    }
  }

  /**
   * Loads that never satisfy the candidacy condition never set the pending
   * start and never append to either log.
   */
  lemma {:induction false} NoCandidacyNoChange(states: seq<AlertState>, samples: seq<Sample>)
    requires IsRun(states, samples)
    requires forall k :: 0 <= k < |samples| ==> !CandidacyHolds(states[0].alertMode, samples[k].load)
    ensures forall k :: 0 < k < |states| ==> states[k] == states[0].(pendingSince := None)
  {
    if samples != [] {
      var n := |samples| - 1;
      assert IsRun(states[..n + 1], samples[..n]);
      NoCandidacyNoChange(states[..n + 1], samples[..n]);
      assert states[n].alertMode == states[0].alertMode;
    }
  }
}
