/**
 * The sliding window of recent samples that feeds the chart: two parallel
 * sequences (elapsed times and load averages), each capped at
 * `HistoricalWindowLength` entries, oldest first.
 */
module SampleWindow {

  /** `LENGTH_OF_HISTORICAL_WINDOW`: 60 samples, ten minutes at one poll every ten seconds. */
  const HistoricalWindowLength: nat := 60

  function Min(a: int, b: int): int
  {
    if a <= b then a else b
  }

  /**
   * One update of one of the two arrays: when the array already holds exactly
   * `HistoricalWindowLength` entries its head is shifted off, then `x` is
   * pushed at the tail.
   */
  function Slide<T>(s: seq<T>, x: T): (r: seq<T>)
    ensures |s| <= HistoricalWindowLength ==> |r| == Min(|s| + 1, HistoricalWindowLength)
    ensures 0 < |r| <= |s| + 1 && r[|r| - 1] == x
    ensures r[..|r| - 1] == s[|s| + 1 - |r|..]
  {
    var kept := if |s| == HistoricalWindowLength then s[1..] else s;
    kept + [x]
  }

  /** The reference definition: the most recent `min(|xs|, 60)` elements of `xs`, in arrival order. */
  function Window<T>(xs: seq<T>): seq<T>
  {
    xs[|xs| - Min(|xs|, HistoricalWindowLength)..]
  }

  /** The window obtained by sliding every element of `xs`, in order, into an initially empty window. */
  function Replay<T>(xs: seq<T>): seq<T>
  {
    if xs == [] then [] else Slide(Replay(xs[..|xs| - 1]), xs[|xs| - 1])
  }

  /** Every entry is no smaller than the one before it. */
  predicate NonDecreasing(s: seq<int>)
  {
    forall i :: 0 < i < |s| ==> s[i - 1] <= s[i]
  }

  /** Sliding one element into the window of a stream gives the window of the extended stream. */
  lemma SlideKeepsWindow<T>(xs: seq<T>, x: T)
    ensures Slide(Window(xs), x) == Window(xs + [x])
  {
    var n := |xs|;
    if n >= HistoricalWindowLength {
      var d := n + 1 - HistoricalWindowLength;
      var w := xs[d - 1..];
      assert Window(xs) == w && |w| == HistoricalWindowLength;
      assert Slide(w, x) == w[1..] + [x];
      assert w[1..] == xs[d..];
      assert Window(xs + [x]) == (xs + [x])[d..];
      assert (xs + [x])[d..] == xs[d..] + [x];
    } else {
      assert Window(xs) == xs[0..] == xs;
      assert Slide(xs, x) == xs + [x];
      assert Window(xs + [x]) == (xs + [x])[0..];
    }
  }

  /** `Slide` is the source's two steps: shift the head off a full window, then push. */
  lemma ShiftThenPush<T>(s: seq<T>, x: T)
    ensures |s| == HistoricalWindowLength ==> Slide(s, x) == s[1..] + [x]
    ensures |s| != HistoricalWindowLength ==> Slide(s, x) == s + [x]
  {
  }

  /**
   * The window update applied to both arrays of a window pair keeps them the
   * windows of the two extended arrival streams, of equal length.
   */
  lemma WindowsAdvanceTogether<S, T>(times: seq<S>, loads: seq<T>, arrivedTimes: seq<S>, arrivedLoads: seq<T>, t: S, x: T)
    requires |arrivedTimes| == |arrivedLoads|
    requires times == Window(arrivedTimes) && loads == Window(arrivedLoads)
    ensures |times| == |loads| == Min(|arrivedTimes|, HistoricalWindowLength)
    ensures Slide(times, t) == Window(arrivedTimes + [t])
    ensures Slide(loads, x) == Window(arrivedLoads + [x])
  {
    SlideKeepsWindow(arrivedTimes, t);
    SlideKeepsWindow(arrivedLoads, x);
  }

  /** After N appends to an empty window it holds exactly the last `min(N, 60)` samples, in arrival order. */
  lemma {:induction false} ReplayIsWindow<T>(xs: seq<T>)
    ensures Replay(xs) == Window(xs)
    ensures |Replay(xs)| == Min(|xs|, HistoricalWindowLength)
  {
    if xs != [] {
      var init, last := xs[..|xs| - 1], xs[|xs| - 1];
      assert init + [last] == xs;
      ReplayIsWindow(init);
      SlideKeepsWindow(init, last);
      assert Replay(xs) == Slide(Replay(init), last);
    }
  }

  /**
   * The two arrays are shifted and pushed together, so replaying two streams
   * of equal length gives windows of equal length whose k-th entries are the
   * two halves of the same arrival.
   */
  lemma ReplayKeepsArraysAligned<S, T>(times: seq<S>, loads: seq<T>)
    requires |times| == |loads|
    ensures |Replay(times)| == |Replay(loads)| <= |times|
    ensures forall k :: 0 <= k < |Replay(times)| ==>
              Replay(times)[k] == times[|times| - |Replay(times)| + k] &&
              Replay(loads)[k] == loads[|times| - |Replay(times)| + k]
  {
    ReplayIsWindow(times);
    ReplayIsWindow(loads);
    WindowsAligned(times, loads);
  }

  /** Windows of two equal-length streams have equal length and start at the same arrival. */
  lemma WindowsAligned<S, T>(times: seq<S>, loads: seq<T>)
    requires |times| == |loads|
    ensures |Window(times)| == |Window(loads)| <= |times|
    ensures forall k :: 0 <= k < |Window(times)| ==>
              Window(times)[k] == times[|times| - |Window(times)| + k] &&
              Window(loads)[k] == loads[|times| - |Window(times)| + k]
  {
  }

  /** When samples arrive in time order the window's elapsed times stay non-decreasing. */
  lemma SlideKeepsOrder(s: seq<int>, x: int)
    requires NonDecreasing(s)
    requires s != [] ==> s[|s| - 1] <= x
    ensures NonDecreasing(Slide(s, x))
  {
    var d := if |s| == HistoricalWindowLength then 1 else 0;
    var r := Slide(s, x);
    forall i | 0 < i < |r| ensures r[i - 1] <= r[i] {
      assert r[i - 1] == s[d + i - 1];
      if i < |r| - 1 {
        assert r[i] == s[d + i];
      }
    }
  }
}
