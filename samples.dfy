/**
 * One CPU load reading, as the monitor receives it from the metric endpoint,
 * and the two threshold comparisons the alert logic applies to it.
 */
module Samples {

  /** The load ratio at which the host counts as fully utilised. */
  const LoadAlertThreshold: real := 1.0

  /**
   * A normalised load average. `Unavailable` stands for a response body whose
   * `loadAverage` is missing: the value is then `undefined`, which is still
   * pushed into the window, and for which both `>= 1` and `< 1` are false.
   * A `null` value compares like 0 and is written `Reading(0.0)` here.
   */
  datatype Load = Reading(value: real) | Unavailable

  /** `load >= LOAD_ALERT_THRESHOLD`: the candidacy condition while not alerting. */
  predicate AtOrAboveThreshold(load: Load)
  {
    load.Reading? && load.value >= LoadAlertThreshold
  }

  /** `load < LOAD_ALERT_THRESHOLD`: the candidacy condition while alerting. */
  predicate BelowThreshold(load: Load)
  {
    load.Reading? && load.value < LoadAlertThreshold
  }
}
