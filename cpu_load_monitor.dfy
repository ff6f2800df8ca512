/**
 * The `CPULoadMonitor` component's state and its per-tick updates: the
 * sliding window behind the chart and the alert state machine, both changed
 * in place on every poll.
 */
module CpuLoadMonitor {
  import opened Options
  import opened Samples
  import opened SampleWindow
  import AlertStateMachine

  /**
   * What one fetch of `/cpu-load` yields. `FetchFailed` is the `undefined`
   * returned by the fetch helper on a transport error or a non-success
   * status; `Body` carries the `loadAverage` field of the JSON body, which
   * is `Unavailable` when the field is missing.
   */
  datatype Response = FetchFailed | Body(loadAverage: Load)

  class Monitor {
    /** `startingTimestampOfApplication`: the clock reading when the component mounted. */
    const appStart: nat

    /** The two parallel arrays of `loadData`: elapsed time (ms since `appStart`) and load. */
    var timestamps: seq<int>
    var loadAverages: seq<Load>

    var alertMode: bool
    /** `startingTimestampOfAlertOrRecovery`. */
    var pendingSince: Option<int>
    /** `dateTimesOfAlerts` and `dateTimesOfRecoveries`, as clock readings. */
    var alertEvents: seq<int>
    var recoveryEvents: seq<int>

    /** Every sample ever appended, in arrival order (not bounded). */
    ghost var arrivedTimes: seq<int>
    ghost var arrivedLoads: seq<Load>

    /**
     * The window holds exactly the most recent arrivals, the two arrays are
     * windows of the same arrival stream, and transitions alternate.
     */
    ghost predicate Valid()
      reads this
    {
      && |arrivedTimes| == |arrivedLoads|
      && timestamps == Window(arrivedTimes)
      && loadAverages == Window(arrivedLoads)
      && AlertStateMachine.Alternates(State())
    }

    /** The alert part of the component's state. */
    function State(): AlertStateMachine.AlertState
      reads this
    {
      AlertStateMachine.AlertState(alertMode, pendingSince, alertEvents, recoveryEvents)
    }

    /** Mounting the component at clock reading `appStart`. */
    constructor (appStart: nat)
      ensures Valid()
      ensures this.appStart == appStart
      ensures timestamps == [] && loadAverages == []
      ensures arrivedTimes == [] && arrivedLoads == []
      ensures State() == AlertStateMachine.Initial()
    {
      this.appStart := appStart;
      timestamps, loadAverages := [], [];
      alertMode, pendingSince := false, None;
      alertEvents, recoveryEvents := [], [];
      arrivedTimes, arrivedLoads := [], [];
      assert Window<int>([]) == [] && Window<Load>([]) == [];
    }

    /**
     * The `setLoadData` updater: copy both arrays, shift the head off both
     * when the window is full, then push the new load and its elapsed time.
     */
    method Append(load: Load, now: nat)
      requires Valid()
      modifies this`timestamps, this`loadAverages, this`arrivedTimes, this`arrivedLoads
      ensures Valid()
      ensures timestamps == Slide(old(timestamps), now - appStart)
      ensures loadAverages == Slide(old(loadAverages), load)
      ensures |timestamps| == |loadAverages| == Min(|old(timestamps)| + 1, HistoricalWindowLength)
      ensures arrivedTimes == old(arrivedTimes) + [now - appStart]
      ensures arrivedLoads == old(arrivedLoads) + [load]
      ensures State() == old(State())
    {
      var elapsed := now - appStart;
      WindowsAdvanceTogether(timestamps, loadAverages, arrivedTimes, arrivedLoads, elapsed, load);
      ShiftThenPush(timestamps, elapsed);
      ShiftThenPush(loadAverages, load);
      var loads := loadAverages;
      var times := timestamps;
      if |loads| == HistoricalWindowLength {
        loads := loads[1..];
        times := times[1..];
      }
      loads := loads + [load];
      times := times + [elapsed];
      loadAverages, timestamps := loads, times;
      arrivedTimes, arrivedLoads := arrivedTimes + [elapsed], arrivedLoads + [load];
    }

    /** `checkIfUnderHighLoad` applied to the newest load at clock reading `now`. */
    method Evaluate(load: Load, now: nat)
      requires Valid()
      modifies this
      ensures Valid()
      ensures State() == AlertStateMachine.Evaluate(old(State()), load, now)
      ensures timestamps == old(timestamps) && loadAverages == old(loadAverages)
      ensures arrivedTimes == old(arrivedTimes) && arrivedLoads == old(arrivedLoads)
    {
      if !alertMode {
        if AtOrAboveThreshold(load) {
          if AlertStateMachine.IsSet(pendingSince) {
            var elapsed := now - pendingSince.value;
            if elapsed >= AlertStateMachine.SustainMs {
              pendingSince := None;
              alertEvents := alertEvents + [now];
              alertMode := true;
            }
          } else {
            pendingSince := Some(now);
          }
        } else {
          pendingSince := None;
        }
      } else {
        if BelowThreshold(load) {
          if AlertStateMachine.IsSet(pendingSince) {
            var elapsed := now - pendingSince.value;
            if elapsed >= AlertStateMachine.SustainMs {
              pendingSince := None;
              recoveryEvents := recoveryEvents + [now];
              alertMode := false;
            }
          } else {
            pendingSince := Some(now);
          }
        } else {
          pendingSince := None;
        }
      }
    }

    /** One poll tick that received a body: update the window, then evaluate the same load. */
    method Tick(load: Load, now: nat)
      requires Valid()
      modifies this
      ensures Valid()
      ensures timestamps == Slide(old(timestamps), now - appStart)
      ensures loadAverages == Slide(old(loadAverages), load)
      ensures arrivedTimes == old(arrivedTimes) + [now - appStart]
      ensures arrivedLoads == old(arrivedLoads) + [load]
      ensures State() == AlertStateMachine.Evaluate(old(State()), load, now)
    {
      Append(load, now);
      Evaluate(load, now);
    }

    /**
     * One poll tick. A failed fetch yields `undefined`, destructuring it
     * throws, and the tick changes nothing; otherwise the body's load is
     * appended and evaluated.
     */
    method Poll(response: Response, now: nat)
      requires Valid()
      modifies this
      ensures Valid()
      ensures response.FetchFailed? ==>
                timestamps == old(timestamps) && loadAverages == old(loadAverages) &&
                arrivedTimes == old(arrivedTimes) && arrivedLoads == old(arrivedLoads) &&
                State() == old(State())
      ensures response.Body? ==>
                timestamps == Slide(old(timestamps), now - appStart) &&
                loadAverages == Slide(old(loadAverages), response.loadAverage) &&
                arrivedTimes == old(arrivedTimes) + [now - appStart] &&
                arrivedLoads == old(arrivedLoads) + [response.loadAverage] &&
                State() == AlertStateMachine.Evaluate(old(State()), response.loadAverage, now)
    {
      if response.Body? {
        Tick(response.loadAverage, now);
      }
    }
  }
}
