/**
 * Tap tempo: the button keeps the time of the last tap and up to four of the
 * most recent intervals between taps, and from two intervals on sets the
 * tempo to 60 over their mean, rounded, when that lies in [40, 240]. Tap times
 * are seconds on a clock that strictly increases from one tap to the next.
 */
module TapTempo {
  import opened Common
  import opened Settings
  import Engine

  /** The most intervals kept. */
  const MaxIntervals: nat := 4

  /** A pause longer than this (in seconds) starts a new tapping sequence. */
  const ResetGap: real := 2.0

  /** Seconds in a minute. */
  const SecondsPerMinute: real := 60.0

  /** Every interval is positive and at most the reset gap. */
  predicate PlausibleIntervals(intervals: seq<real>)
  {
    forall i :: 0 <= i < |intervals| ==> 0.0 < intervals[i] <= ResetGap
  }

  /** `reduce(0, +)`: the intervals added up from the oldest. */
  function Sum(intervals: seq<real>): real
  {
    if intervals == [] then 0.0 else Sum(intervals[..|intervals| - 1]) + intervals[|intervals| - 1]
  }

  lemma {:induction false} SumBounds(intervals: seq<real>)
    requires PlausibleIntervals(intervals)
    ensures 0.0 <= Sum(intervals) <= ResetGap * |intervals| as real
    ensures intervals != [] ==> Sum(intervals) > 0.0
  {
    if intervals != [] {
      SumBounds(intervals[..|intervals| - 1]);
    }
  }

  lemma {:induction false} SumOfEqual(intervals: seq<real>, interval: real)
    requires forall i :: 0 <= i < |intervals| ==> intervals[i] == interval
    ensures Sum(intervals) == |intervals| as real * interval
  {
    if intervals != [] {
      SumOfEqual(intervals[..|intervals| - 1], interval);
    }
  }

  /**
   * Append the newest interval and drop the oldest once there are more than
   * four.
   */
  function RecordInterval(intervals: seq<real>, interval: real): (r: seq<real>)
    ensures |intervals| <= MaxIntervals ==> |r| == if |intervals| < MaxIntervals then |intervals| + 1 else MaxIntervals
    ensures |r| >= 1 && r[|r| - 1] == interval
  {
    var appended := intervals + [interval];
    if |appended| > MaxIntervals then appended[1..] else appended
  }

  /** What is kept are the newest intervals, in the order they arrived. */
  lemma RecordIntervalKeepsNewest(intervals: seq<real>, interval: real)
    ensures var appended, r := intervals + [interval], RecordInterval(intervals, interval);
      |r| <= |appended| && r == appended[|appended| - |r|..]
  {
  }

  /** Recording a plausible interval keeps the history plausible. */
  lemma RecordIntervalPlausible(intervals: seq<real>, interval: real)
    requires PlausibleIntervals(intervals)
    requires 0.0 < interval <= ResetGap
    ensures PlausibleIntervals(RecordInterval(intervals, interval))
  {
    var appended, r := intervals + [interval], RecordInterval(intervals, interval);
    assert PlausibleIntervals(appended);
    RecordIntervalKeepsNewest(intervals, interval);
    forall i | 0 <= i < |r| ensures 0.0 < r[i] <= ResetGap {
      assert r[i] == appended[|appended| - |r| + i];
    }
  }

  /** Recording an interval equal to all the kept ones keeps them all equal. */
  lemma RecordEqualInterval(intervals: seq<real>, interval: real)
    requires forall i :: 0 <= i < |intervals| ==> intervals[i] == interval
    ensures var r := RecordInterval(intervals, interval); forall i :: 0 <= i < |r| ==> r[i] == interval
  {
    var appended, r := intervals + [interval], RecordInterval(intervals, interval);
    RecordIntervalKeepsNewest(intervals, interval);
    forall i | 0 <= i < |r| ensures r[i] == interval {
      assert r[i] == appended[|appended| - |r| + i];
    }
  }

  /** The intervals kept after a tap at `now`, given the previous tap. */
  function NextIntervals(lastTapTime: Option<real>, intervals: seq<real>, now: real): (r: seq<real>)
  {
    match lastTapTime
    case None => intervals
    case Some(last) =>
      if now - last > ResetGap then [] else RecordInterval(intervals, now - last)
  }

  /** A tap keeps the history plausible, and within four intervals. */
  lemma NextIntervalsPlausible(lastTapTime: Option<real>, intervals: seq<real>, now: real)
    requires PlausibleIntervals(intervals) && |intervals| <= MaxIntervals
    requires lastTapTime.Some? ==> now > lastTapTime.value
    ensures PlausibleIntervals(NextIntervals(lastTapTime, intervals, now))
    ensures |NextIntervals(lastTapTime, intervals, now)| <= MaxIntervals
  {
    if lastTapTime.Some? && now - lastTapTime.value <= ResetGap {
      RecordIntervalPlausible(intervals, now - lastTapTime.value);
    }
  }

  /** The tempo 60 / mean interval, rounded, once at least two intervals are known. */
  function Estimate(intervals: seq<real>): (e: Option<int>)
    requires PlausibleIntervals(intervals)
    ensures e.Some? <==> |intervals| >= 2
    ensures e.Some? ==> e.value >= 30
  {
    if |intervals| >= 2 then
      SumBounds(intervals);
      var mean := Sum(intervals) / |intervals| as real;
      assert 0.0 < mean <= ResetGap;
      assert SecondsPerMinute / mean >= 30.0;
      Some(Round(SecondsPerMinute / mean))
    else
      None
  }

  /** The new tempo, if the estimate is one the metronome accepts. */
  function TempoUpdate(intervals: seq<real>): (u: Option<int>)
    requires PlausibleIntervals(intervals)
    ensures u.Some? <==> Estimate(intervals).Some? && Engine.ValidBPM(Estimate(intervals).value)
    ensures u.Some? ==> u == Estimate(intervals)
  {
    var e := Estimate(intervals);
    if e.Some? && Engine.MinBPM <= e.value <= Engine.MaxBPM then e else None
  }

  /** Steady taps half a second apart read as 120 bpm. */
  lemma SteadyHalfSeconds(intervals: seq<real>)
    requires |intervals| >= 2
    requires forall i :: 0 <= i < |intervals| ==> intervals[i] == 0.5
    ensures PlausibleIntervals(intervals)
    ensures TempoUpdate(intervals) == Some(120)
  {
    SumOfEqual(intervals, 0.5);
    assert Sum(intervals) / |intervals| as real == 0.5;
  }

  /** The tap times `start`, `start + gap`, `start + 2 gap`, ... (`count` of them). */
  function SteadyTaps(start: real, gap: real, count: nat): (times: seq<real>)
    ensures |times| == count
  {
    seq(count, i => start + i as real * gap)
  }

  /** The intervals kept after tapping at `times` on a fresh button. */
  function IntervalsAfter(times: seq<real>): seq<real>
  {
    if |times| <= 1 then []
    else NextIntervals(Some(times[|times| - 2]), IntervalsAfter(times[..|times| - 1]), times[|times| - 1])
  }

  lemma {:induction false} SteadyIntervals(start: real, count: nat)
    requires count >= 1
    ensures var kept := IntervalsAfter(SteadyTaps(start, 0.5, count));
      && |kept| == (if count - 1 < MaxIntervals then count - 1 else MaxIntervals)
      && forall i :: 0 <= i < |kept| ==> kept[i] == 0.5
  {
    if count > 1 {
      var times := SteadyTaps(start, 0.5, count);
      var earlier := SteadyTaps(start, 0.5, count - 1);
      assert times[..count - 1] == earlier;
      SteadyIntervals(start, count - 1);
      var kept := IntervalsAfter(earlier);
      assert times[count - 1] - times[count - 2] == 0.5;
      assert IntervalsAfter(times) == RecordInterval(kept, 0.5);
      RecordEqualInterval(kept, 0.5);
    }
  }

  /**
   * Tapping every half second from a fresh button: the first two taps leave the
   * tempo alone, and every tap from the third on sets it to 120.
   */
  lemma SteadyTappingReads120(start: real, count: nat)
    requires count >= 1
    ensures PlausibleIntervals(IntervalsAfter(SteadyTaps(start, 0.5, count)))
    ensures count <= 2 ==> TempoUpdate(IntervalsAfter(SteadyTaps(start, 0.5, count))) == None
    ensures count >= 3 ==> TempoUpdate(IntervalsAfter(SteadyTaps(start, 0.5, count))) == Some(120)
  {
    SteadyIntervals(start, count);
    if count >= 3 {
      SteadyHalfSeconds(IntervalsAfter(SteadyTaps(start, 0.5, count)));
    }
  }

  /**
   * A sequence starts from an empty history (the first tap, or a tap after a
   * pause over two seconds); the tap after its first leaves at most one
   * interval, so neither of the two taps changes the tempo.
   */
  lemma FirstTwoTapsKeepTempo(lastTapTime: Option<real>, intervals: seq<real>, first: real, second: real)
    requires PlausibleIntervals(intervals) && |intervals| <= MaxIntervals
    requires lastTapTime.Some? ==> first > lastTapTime.value
    requires first < second
    requires NextIntervals(lastTapTime, intervals, first) == []
    ensures TempoUpdate([]) == None
    ensures |NextIntervals(Some(first), [], second)| <= 1
    ensures TempoUpdate(NextIntervals(Some(first), [], second)) == None
  {
  }

  class TapTempoButton {
    /** The tempo setting the button writes to. */
    var bpm: int
    var lastTapTime: Option<real>
    var tapCount: int
    var tapIntervals: seq<real>
    const audioEngine: Engine.AudioEngine

    ghost predicate Valid()
      reads this
    {
      && |tapIntervals| <= MaxIntervals
      && PlausibleIntervals(tapIntervals)
      && (lastTapTime.None? ==> tapIntervals == [])
    }

    constructor (bpm: int, audioEngine: Engine.AudioEngine)
      ensures Valid()
      ensures this.bpm == bpm && this.audioEngine == audioEngine
      ensures lastTapTime == None && tapCount == 0 && tapIntervals == []
    {
      this.bpm, this.audioEngine := bpm, audioEngine;
      lastTapTime, tapCount, tapIntervals := None, 0, [];
    }

    /**
     * A tap at `now`: record the interval since the previous tap (or start over
     * after a pause over two seconds), and from two intervals on adopt the
     * estimated tempo if it is in [40, 240], passing it on to the metronome
     * while it plays.
     */
    method HandleTap(now: real, isPlaying: bool, beatsPerMeasure: int, subdivision: Subdivision)
      requires Valid() && audioEngine.Valid() && 1 <= beatsPerMeasure
      requires lastTapTime.Some? ==> now > lastTapTime.value
      modifies this`lastTapTime, this`tapCount, this`tapIntervals, this`bpm
      modifies audioEngine`resumeWorkItem, audioEngine`probeActive, audioEngine`currentBPM
      ensures Valid() && audioEngine.Valid()
      ensures lastTapTime == Some(now)
      ensures tapIntervals == NextIntervals(old(lastTapTime), old(tapIntervals), now)
      ensures tapCount == (if old(lastTapTime).Some? && now - old(lastTapTime).value > ResetGap then 1 else old(tapCount) + 1)
      ensures TempoUpdate(tapIntervals).None? ==> bpm == old(bpm) && unchanged(audioEngine)
      ensures TempoUpdate(tapIntervals).Some? ==> bpm == TempoUpdate(tapIntervals).value
      ensures TempoUpdate(tapIntervals).Some? && !isPlaying ==> unchanged(audioEngine)
      ensures TempoUpdate(tapIntervals).Some? && isPlaying ==>
        && audioEngine.currentBPM == bpm
        && audioEngine.isPlaying == old(audioEngine.isPlaying)
        && (audioEngine.isPlaying ==>
              !audioEngine.probeActive &&
              audioEngine.resumeWorkItem == Some(Engine.ResumeWith(bpm, beatsPerMeasure, subdivision)))
        && (!audioEngine.isPlaying ==> audioEngine.resumeWorkItem == None && !audioEngine.probeActive)
    {
      RecordTap(now);
      if |tapIntervals| >= 2 {
        SumBounds(tapIntervals);
        var averageInterval := Sum(tapIntervals) / |tapIntervals| as real;
        var newBPM := Round(SecondsPerMinute / averageInterval);
        assert Estimate(tapIntervals) == Some(newBPM);
        if newBPM >= Engine.MinBPM && newBPM <= Engine.MaxBPM {
          bpm := newBPM;
          if isPlaying {
            audioEngine.UpdateBPMWithPause(newBPM, beatsPerMeasure, subdivision);
          }
        }
      }
    }

    /** The first half of a tap: update the interval history, the count and the last tap time. */
    method RecordTap(now: real)
      requires Valid()
      requires lastTapTime.Some? ==> now > lastTapTime.value
      modifies this`lastTapTime, this`tapCount, this`tapIntervals
      ensures Valid()
      ensures lastTapTime == Some(now)
      ensures tapIntervals == NextIntervals(old(lastTapTime), old(tapIntervals), now)
      ensures tapCount == (if old(lastTapTime).Some? && now - old(lastTapTime).value > ResetGap then 1 else old(tapCount) + 1)
    {
      ghost var next := NextIntervals(lastTapTime, tapIntervals, now);
      NextIntervalsPlausible(lastTapTime, tapIntervals, now);
      if lastTapTime.Some? {
        var interval := now - lastTapTime.value;
        if interval > ResetGap {
          tapIntervals := [];
          tapCount := 0;
        } else {
          ghost var recorded := RecordInterval(tapIntervals, interval);
          tapIntervals := tapIntervals + [interval];
          if |tapIntervals| > MaxIntervals {
            tapIntervals := tapIntervals[1..];
          }
          assert tapIntervals == recorded;
        }
      }
      assert tapIntervals == next;
      lastTapTime := Some(now);
      tapCount := tapCount + 1;
    }
  }
}
