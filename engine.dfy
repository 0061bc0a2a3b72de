/**
 * The audio engine: a metronome that clicks from a display-refresh probe
 * against an absolute deadline, and a tuning-fork tone.
 *
 * Time is an explicit `now` argument (the host's media clock). The display
 * link is the boolean `probeActive`; its callback is `HandleTick`, which it
 * delivers only while registered. The deferred resume of a debounced tempo
 * change is the field `resumeWorkItem`; the dispatch queue running it is
 * `FireResume`. Whether the accent and normal click samples loaded is fixed
 * at construction. Every click handed to the player is appended to the ghost
 * log `clicks`.
 */
module Engine {
  import opened Common
  import opened Settings
  import Oscillator

  /** The slowest and fastest tempo any caller passes. */
  const MinBPM: int := 40
  const MaxBPM: int := 240

  predicate ValidBPM(bpm: int)
  {
    MinBPM <= bpm <= MaxBPM
  }

  /** Which sample a click plays. */
  datatype Click = Accent | Normal

  /** The action a pending resume will perform when it fires. */
  datatype PendingResume =
    | ResumeWith(bpm: int, beatsPerMeasure: int, subdivision: Subdivision)  // from a debounced tempo change
    | ResumeCurrent                                                          // from a temporary pause

  /** Seconds between two clicks at `bpm` beats per minute. */
  function BeatPeriod(bpm: int): (p: real)
    requires ValidBPM(bpm)
    ensures 0.25 <= p <= 1.5
  {
    60.0 / bpm as real
  }

  /** Fraction of a beat between subdivided clicks (computed when playback starts, never used). */
  function SubdivisionMultiplier(subdivision: Subdivision): (m: real)
    ensures 0.0 < m <= 1.0
    ensures m == 1.0 <==> subdivision == Quarter
  {
    match subdivision
    case Quarter => 1.0
    case Eighth => 0.5
    case Sixteenth => 0.25
    case Triplet => 1.0 / 3.0
  }

  /** The sample played on beat `beat`: the accent on the first beat of the bar. */
  function SelectedClick(beat: int): (c: Click)
    ensures c == Accent <==> beat == 1
  {
    if beat == 1 then Accent else Normal
  }

  /** The beat after `beat`: one more, back to 1 once past the end of the bar. */
  function NextBeat(beat: int, beatsPerMeasure: int): (b: int)
    ensures 1 <= beat ==> 1 <= b
    ensures 1 <= beat <= beatsPerMeasure ==> 1 <= b <= beatsPerMeasure
    ensures b == 1 || b == beat + 1
  {
    if beat + 1 > beatsPerMeasure then 1 else beat + 1
  }

  /** The beat reached after `k` clicks, starting from beat `beat`. */
  function BeatAfter(beat: int, beatsPerMeasure: int, k: nat): int
  {
    if k == 0 then beat else NextBeat(BeatAfter(beat, beatsPerMeasure, k - 1), beatsPerMeasure)
  }

  /**
   * Counting from the first beat, the beat index cycles 1, 2, ..., beatsPerMeasure, 1, ...:
   * after `k` clicks it is `k mod beatsPerMeasure + 1`, so the accent falls exactly on
   * every `beatsPerMeasure`-th click.
   */
  lemma {:induction false} BeatCycles(beatsPerMeasure: int, k: nat)
    requires beatsPerMeasure >= 1
    ensures BeatAfter(1, beatsPerMeasure, k) == k % beatsPerMeasure + 1
    ensures SelectedClick(BeatAfter(1, beatsPerMeasure, k)) == Accent <==> k % beatsPerMeasure == 0
  {
    if k > 0 {
      BeatCycles(beatsPerMeasure, k - 1);
      ModSuccessor(k - 1, beatsPerMeasure);
    }
  }

  /** The remainder of `k + 1` is one more than that of `k`, or 0 after `m - 1`. */
  lemma ModSuccessor(k: nat, m: int)
    requires m >= 1
    ensures (k + 1) % m == if k % m + 1 == m then 0 else k % m + 1
  {
    var q, r := k / m, k % m;
    assert k == q * m + r;
    if r + 1 == m {
      assert (q + 1) * m == q * m + m;
      ModUnique(k + 1, m, q + 1, 0);
    } else {
      ModUnique(k + 1, m, q, r + 1);
    }
  }

  /** `k mod m` is the unique remainder `b` of any decomposition `k == a * m + b` with `0 <= b < m`. */
  lemma ModUnique(k: int, m: int, a: int, b: int)
    requires m >= 1 && 0 <= b < m && k == a * m + b
    ensures k % m == b
  {
    var q, r := k / m, k % m;
    assert k == q * m + r;
    assert q * m - a * m == b - r;
    assert (q - a) * m == q * m - a * m;
    if q > a {
      MulAtLeast(q - a, m);
    } else if q < a {
      assert (a - q) * m == a * m - q * m;
      MulAtLeast(a - q, m);
    }
  }

  lemma MulAtLeast(x: int, m: int)
    requires x >= 1 && m >= 1
    ensures x * m >= m
  {
  }

  /** The deadline after `k` deadlines have passed since a start at `start`. */
  function Deadline(start: real, bpm: int, k: nat): real
    requires ValidBPM(bpm)
  {
    start + k as real * BeatPeriod(bpm)
  }

  class AudioEngine {
    var currentBeat: int
    var currentBPM: int
    var currentBeatsPerMeasure: int
    var nextClickTime: real
    var isPlaying: bool
    var probeActive: bool
    var resumeWorkItem: Option<PendingResume>
    const hasHighClick: bool
    const hasLowClick: bool

    var triangleFrequency: real
    var toneSampleRate: real
    var tonePhase: real
    var toneVolume: real
    var toneAttached: bool

    /** Every click handed to the player, oldest first. */
    ghost var clicks: seq<Click>
    /** Start time, tempo and number of passed deadlines of the running probe. */
    ghost var startTime: real
    ghost var startedBPM: int
    ghost var ticksFired: nat

    ghost predicate Valid()
      reads this
    {
      && 1 <= currentBeat
      && 1 <= currentBeatsPerMeasure
      && ValidBPM(currentBPM)
      && (probeActive ==>
            && isPlaying
            && currentBPM == startedBPM
            && nextClickTime == Deadline(startTime, currentBPM, ticksFired))
      && (resumeWorkItem.Some? && resumeWorkItem.value.ResumeWith? ==>
            ValidBPM(resumeWorkItem.value.bpm) && 1 <= resumeWorkItem.value.beatsPerMeasure)
      && toneSampleRate > 0.0
    }

    /** Whether the sample for `c` loaded. */
    predicate Loaded(c: Click)
      reads this
    {
      match c
      case Accent => hasHighClick
      case Normal => hasLowClick
    }

    /**
     * One call of `playClick` happened between the old and the new state: the
     * sample for the current beat was played and the beat advanced, or, if that
     * sample is missing, nothing at all happened.
     */
    twostate predicate ClickStep()
      reads this
    {
      var c := SelectedClick(old(currentBeat));
      if Loaded(c) then
        clicks == old(clicks) + [c] && currentBeat == NextBeat(old(currentBeat), currentBeatsPerMeasure)
      else
        clicks == old(clicks) && currentBeat == old(currentBeat)
    }

    /**
     * A fresh engine: beat 1, 120 bpm in 4/4, stopped, with the given samples loaded.
     * `sampleRate` has no counterpart in the source's initializer: it only seeds
     * `toneSampleRate` so that `Valid()` holds before the first `StartTuningFork`,
     * which reads the mixer's rate anew on every start.
     */
    constructor (highClickLoaded: bool, lowClickLoaded: bool, sampleRate: real)
      requires sampleRate > 0.0
      ensures Valid()
      ensures hasHighClick == highClickLoaded && hasLowClick == lowClickLoaded
      ensures currentBeat == 1 && currentBPM == 120 && currentBeatsPerMeasure == 4
      ensures !isPlaying && !probeActive && resumeWorkItem == None && !toneAttached
      ensures clicks == []
    {
      currentBeat, currentBPM, currentBeatsPerMeasure := 1, 120, 4;
      nextClickTime := 0.0;
      isPlaying, probeActive := false, false;
      resumeWorkItem := None;
      hasHighClick, hasLowClick := highClickLoaded, lowClickLoaded;
      triangleFrequency, toneSampleRate := 440.0, sampleRate;
      tonePhase, toneVolume, toneAttached := 0.0, 0.0, false;
      clicks := [];
      startTime, startedBPM, ticksFired := 0.0, 120, 0;
    }

    /** Play the sample for the current beat, if it loaded, and advance the beat. */
    method PlayClick()
      requires Valid()
      modifies this`currentBeat, this`clicks
      ensures Valid()
      ensures ClickStep()
    {
      var c := SelectedClick(currentBeat);
      var loaded := if c == Accent then hasHighClick else hasLowClick;
      if !loaded {
        return;
      }
      clicks := clicks + [c];
      currentBeat := currentBeat + 1;
      if currentBeat > currentBeatsPerMeasure {
        currentBeat := 1;
      }
    }

    /**
     * Start playback: adopt the tempo, re-register the probe, play the first
     * click at once and set the next deadline to `now`. The subdivision is read
     * but affects no deadline; the beat is not reset; a pending resume stays.
     */
    method PlayMetronomeClick(bpm: int, beatsPerMeasure: int, subdivision: Subdivision, now: real)
      requires Valid()
      requires ValidBPM(bpm) && 1 <= beatsPerMeasure
      modifies this`currentBPM, this`currentBeatsPerMeasure, this`probeActive, this`nextClickTime,
        this`currentBeat, this`clicks, this`isPlaying, this`startTime, this`startedBPM, this`ticksFired
      ensures Valid()
      ensures currentBPM == bpm && currentBeatsPerMeasure == beatsPerMeasure
      ensures nextClickTime == now
      ensures isPlaying && probeActive
      ensures startedBPM == bpm && startTime == now && ticksFired == 0
      ensures ClickStep()
    {
      currentBPM := bpm;
      currentBeatsPerMeasure := beatsPerMeasure;
      probeActive := false;
      var interval := BeatPeriod(bpm) * SubdivisionMultiplier(subdivision);
      nextClickTime := now;
      PlayClick();
      probeActive := true;
      startTime, startedBPM, ticksFired := now, bpm, 0;
      isPlaying := true;
    }

    /**
     * The probe's callback: once `now` reaches the deadline, play one click and
     * move the deadline on by exactly one beat at the current tempo.
     */
    method HandleTick(now: real)
      requires Valid() && probeActive
      modifies this`currentBeat, this`clicks, this`nextClickTime, this`ticksFired
      ensures Valid()
      ensures now >= old(nextClickTime) ==>
        && ClickStep()
        && nextClickTime == old(nextClickTime) + BeatPeriod(currentBPM)
        && ticksFired == old(ticksFired) + 1
      ensures now < old(nextClickTime) ==>
        clicks == old(clicks) && currentBeat == old(currentBeat) && nextClickTime == old(nextClickTime)
        && ticksFired == old(ticksFired)
      ensures nextClickTime == Deadline(startTime, currentBPM, ticksFired)
      ensures |clicks| <= |old(clicks)| + 1
    {
      if now >= nextClickTime {
        PlayClick();
        nextClickTime := nextClickTime + 60.0 / currentBPM as real;
        ticksFired := ticksFired + 1;
      }
    }

    /** Stop: cancel any pending resume, deregister the probe, back to beat 1. */
    method Stop()
      requires Valid()
      modifies this`resumeWorkItem, this`probeActive, this`currentBeat, this`isPlaying
      ensures Valid()
      ensures resumeWorkItem == None && !probeActive && currentBeat == 1 && !isPlaying
    {
      resumeWorkItem := None;
      probeActive := false;
      currentBeat := 1;
      isPlaying := false;
    }

    /**
     * Debounced tempo change: cancel the pending resume; if playing, silence the
     * probe and install a resume carrying these arguments. The tempo is adopted
     * at once either way; `isPlaying` and the beat stay as they are.
     */
    method UpdateBPMWithPause(newBPM: int, beatsPerMeasure: int, subdivision: Subdivision)
      requires Valid()
      requires ValidBPM(newBPM) && 1 <= beatsPerMeasure
      modifies this`resumeWorkItem, this`probeActive, this`currentBPM
      ensures Valid()
      ensures currentBPM == newBPM
      ensures isPlaying ==> !probeActive && resumeWorkItem == Some(ResumeWith(newBPM, beatsPerMeasure, subdivision))
      ensures !isPlaying ==> !probeActive && resumeWorkItem == None
    {
      resumeWorkItem := None;
      if isPlaying {
        probeActive := false;
        resumeWorkItem := Some(ResumeWith(newBPM, beatsPerMeasure, subdivision));
      }
      currentBPM := newBPM;
    }

    /** An immediate restart with a new time signature: `Stop` then `PlayMetronomeClick`. */
    method UpdateTimeSignature(bpm: int, beatsPerMeasure: int, subdivision: Subdivision, now: real)
      requires Valid()
      requires ValidBPM(bpm) && 1 <= beatsPerMeasure
      modifies this
      ensures Valid()
      ensures resumeWorkItem == None && isPlaying && probeActive
      ensures currentBPM == bpm && currentBeatsPerMeasure == beatsPerMeasure && nextClickTime == now
      ensures hasHighClick ==> clicks == old(clicks) + [Accent] && currentBeat == NextBeat(1, beatsPerMeasure)
      ensures !hasHighClick ==> clicks == old(clicks) && currentBeat == 1
      ensures unchanged(this`triangleFrequency, this`toneSampleRate, this`tonePhase, this`toneVolume, this`toneAttached)
    {
      Stop();
      PlayMetronomeClick(bpm, beatsPerMeasure, subdivision, now);
    }

    /**
     * Silence the probe and schedule a resume at whatever tempo and bar length
     * are current when it fires, in quarter notes. `isPlaying` is left as it is.
     */
    method PauseTemporarily()
      requires Valid()
      modifies this`resumeWorkItem, this`probeActive
      ensures Valid()
      ensures resumeWorkItem == Some(ResumeCurrent) && !probeActive
    {
      resumeWorkItem := None;
      probeActive := false;
      resumeWorkItem := Some(ResumeCurrent);
    }

    /** The deferred resume runs at `now`, if one is still pending. */
    method FireResume(now: real)
      requires Valid()
      modifies this
      ensures Valid()
      ensures resumeWorkItem == None
      ensures old(resumeWorkItem) == None ==> unchanged(this)
      ensures old(resumeWorkItem).Some? ==> isPlaying && probeActive && nextClickTime == now && ClickStep()
      ensures old(resumeWorkItem).Some? && old(resumeWorkItem).value.ResumeWith? ==>
        currentBPM == old(resumeWorkItem).value.bpm
        && currentBeatsPerMeasure == old(resumeWorkItem).value.beatsPerMeasure
      ensures old(resumeWorkItem) == Some(ResumeCurrent) ==>
        currentBPM == old(currentBPM) && currentBeatsPerMeasure == old(currentBeatsPerMeasure)
      ensures unchanged(this`triangleFrequency, this`toneSampleRate, this`tonePhase, this`toneVolume, this`toneAttached)
    {
      match resumeWorkItem
      case None =>
      case Some(ResumeWith(bpm, beatsPerMeasure, subdivision)) =>
        resumeWorkItem := None;
        PlayMetronomeClick(bpm, beatsPerMeasure, subdivision, now);
      case Some(ResumeCurrent) =>
        resumeWorkItem := None;
        PlayMetronomeClick(currentBPM, currentBeatsPerMeasure, Quarter, now);
    }

    /**
     * Start the tuning fork at `frequency`: a fresh oscillator with phase 0 whose
     * volume is ramped from 0 up to 0.3. Returns the volumes applied, in order.
     */
    method StartTuningFork(frequency: real, sampleRate: real) returns (gains: seq<real>)
      requires Valid()
      requires sampleRate > 0.0
      modifies this`triangleFrequency, this`toneSampleRate, this`tonePhase, this`toneVolume, this`toneAttached
      ensures Valid()
      ensures triangleFrequency == frequency && toneSampleRate == sampleRate && tonePhase == 0.0
      ensures toneAttached && toneVolume == Oscillator.ToneVolume
      ensures |gains| == Oscillator.FadeSteps + 1 && gains[0] == 0.0 && gains[|gains| - 1] == toneVolume
      ensures forall i :: 0 <= i < |gains| - 1 ==> gains[i + 1] == gains[i] + Oscillator.ToneVolume / Oscillator.FadeSteps as real
      ensures forall i :: 0 <= i < |gains| - 1 ==> gains[i] < gains[i + 1]
    {
      triangleFrequency := frequency;
      toneSampleRate := sampleRate;
      tonePhase := 0.0;
      toneAttached := true;
      gains := Oscillator.FadeInSchedule();
      toneVolume := gains[|gains| - 1];
    }

    /**
     * Stop the tuning fork, if one is attached: ramp its volume from the current
     * value down to 0, then detach it. Returns the volumes applied, in order.
     */
    method StopTuningFork() returns (gains: seq<real>)
      requires Valid()
      modifies this`toneVolume, this`toneAttached
      ensures Valid()
      ensures !old(toneAttached) ==> gains == [] && toneVolume == old(toneVolume)
      ensures old(toneAttached) ==>
        && |gains| == Oscillator.FadeSteps + 1
        && gains[0] == old(toneVolume) && gains[|gains| - 1] == 0.0
        && toneVolume == 0.0
        && (forall i :: 0 <= i < |gains| - 1 ==> gains[i + 1] == gains[i] - old(toneVolume) / Oscillator.FadeSteps as real)
        && (old(toneVolume) >= 0.0 ==> forall i :: 0 <= i < |gains| ==> 0.0 <= gains[i] <= old(toneVolume))
      ensures !toneAttached
    {
      if !toneAttached {
        return [];
      }
      gains := Oscillator.FadeOutSchedule(toneVolume);
      toneVolume := gains[|gains| - 1];
      toneAttached := false;
    }

    /**
     * The oscillator's render callback: write `frameCount` samples into `buffer`
     * (when the host supplies one), advancing the phase once per sample.
     */
    method Render(buffer: array?<real>, frameCount: nat)
      requires Valid()
      requires buffer != null ==> frameCount <= buffer.Length
      modifies this`tonePhase, buffer
      ensures Valid()
      ensures tonePhase == Oscillator.PhaseAfter(old(tonePhase), triangleFrequency / toneSampleRate, frameCount)
      ensures buffer != null ==> forall k :: 0 <= k < frameCount ==>
        buffer[k] == Oscillator.TriangleSample(Oscillator.PhaseAfter(old(tonePhase), triangleFrequency / toneSampleRate, k))
      ensures buffer != null ==> forall k :: frameCount <= k < buffer.Length ==> buffer[k] == old(buffer[k])
    {
      var increment := triangleFrequency / toneSampleRate;
      for frame := 0 to frameCount
        invariant tonePhase == Oscillator.PhaseAfter(old(tonePhase), increment, frame)
        invariant buffer != null ==> forall k :: 0 <= k < frame ==>
          buffer[k] == Oscillator.TriangleSample(Oscillator.PhaseAfter(old(tonePhase), increment, k))
        invariant buffer != null ==> forall k :: frame <= k < buffer.Length ==> buffer[k] == old(buffer[k])
      {
        if buffer != null {
          buffer[frame] := Oscillator.TriangleSample(tonePhase);
        }
        tonePhase := Oscillator.Advance(tonePhase, increment);
      }
    }
  }

  /**
   * Starting playback at `now` plays the first click, and because the deadline
   * is `now` rather than one beat later, the probe's first callback plays a
   * second click straight away; only then is the deadline one beat ahead.
   */
  method FirstTickRepeatsStartClick(engine: AudioEngine, bpm: int, beatsPerMeasure: int, subdivision: Subdivision,
                                    now: real, firstTick: real)
    requires engine.Valid() && engine.hasHighClick && engine.hasLowClick
    requires engine.currentBeat == 1 && 2 <= beatsPerMeasure && ValidBPM(bpm)
    requires now <= firstTick
    modifies engine
    ensures engine.Valid()
    ensures engine.clicks == old(engine.clicks) + [Accent, Normal]
    ensures engine.nextClickTime == now + BeatPeriod(bpm)
  {
    engine.PlayMetronomeClick(bpm, beatsPerMeasure, subdivision, now);
    engine.HandleTick(firstTick);
  }

  /**
   * Two tempo changes inside the debounce window while playing: only the
   * second resume survives, it restarts playback at the second tempo with a
   * single click, and nothing is left pending afterwards.
   */
  method DebouncedUpdates(engine: AudioEngine, first: int, second: int, beatsPerMeasure: int, now: real)
    requires engine.Valid() && engine.isPlaying
    requires ValidBPM(first) && ValidBPM(second) && 1 <= beatsPerMeasure
    modifies engine
    ensures engine.Valid()
    ensures engine.currentBPM == second && engine.startedBPM == second
    ensures engine.probeActive && engine.resumeWorkItem == None
    ensures engine.currentBeatsPerMeasure == beatsPerMeasure
    ensures |engine.clicks| <= |old(engine.clicks)| + 1
    ensures engine.hasHighClick && engine.hasLowClick ==>
      engine.clicks == old(engine.clicks) + [SelectedClick(old(engine.currentBeat))]
  {
    engine.UpdateBPMWithPause(first, beatsPerMeasure, Quarter);
    engine.UpdateBPMWithPause(second, beatsPerMeasure, Quarter);
    assert engine.resumeWorkItem == Some(ResumeWith(second, beatsPerMeasure, Quarter));
    engine.FireResume(now);
    engine.FireResume(now);
  }

  /**
   * After `Stop` the probe is gone and nothing is pending, so a later firing
   * of the dispatch queue plays nothing.
   */
  method StopSilences(engine: AudioEngine, now: real)
    requires engine.Valid()
    modifies engine
    ensures engine.Valid()
    ensures !engine.probeActive && !engine.isPlaying && engine.currentBeat == 1
    ensures engine.clicks == old(engine.clicks)
  {
    engine.Stop();
    engine.FireResume(now);
  }
}
