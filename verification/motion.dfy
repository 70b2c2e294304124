/**
 Unwanted-tracking motion detection: three timers, a sound counter and the
 callbacks of the application. Handlers are atomic steps.
 */
module Motion {
  const MAX_SOUND_COUNT: nat := 10

  /** A kernel timer keeps its period when it is stopped. */
  datatype Period = NoPeriod | SamplingRate1 | SamplingRate2

  /** What the module asks of the application and of the sound service. */
  datatype Action = StartDetection | StopDetection | PlaySound

  datatype Detector = Detector(
    enabled: bool, playSoundRequested: bool, soundCount: nat,
    enableTimer: bool, pollTimer: bool, pollPeriod: Period, durationTimer: bool,
    log: seq<Action>)

  const INITIAL: Detector := Detector(false, false, 0, false, false, NoPeriod, false, [])

  datatype Event =
    | EnableTimeout
    | PollTimeout(motionDetected: bool)
    | DurationTimeout
    | SoundCompleted
    | OwnerConnected
    | Separated
    | Unpaired
    | Disabled

  // ----- Handlers -----------------------------------------------------------------

  function Did(d: Detector, a: Action): Detector {
    d.(log := d.log + [a])
  }

  /** `state_reset`. */
  function Reset(d: Detector): Detector {
    d.(enabled := false, playSoundRequested := false, soundCount := 0,
       enableTimer := false, pollTimer := false, durationTimer := false)
  }

  /** `backoff_setup`, then the stop callback. */
  function BackOff(d: Detector): Detector {
    Did(Reset(d).(enableTimer := true), StopDetection)
  }

  /** `motion_poll_handle` after motion was detected. */
  function RequestSound(d: Detector): Detector {
    var d1 := Did(d.(pollTimer := false, playSoundRequested := true, soundCount := d.soundCount + 1), PlaySound);
    if d1.soundCount >= MAX_SOUND_COUNT then BackOff(d1) else d1
  }

  /** Timeouts are handled only while their timer runs; one-shot timers have then stopped. */
  function Step(d: Detector, e: Event): Detector {
    match e
    case EnableTimeout =>
      if d.enableTimer then
        Did(d.(enableTimer := false, enabled := true, pollTimer := true, pollPeriod := SamplingRate1), StartDetection)
      else d
    case PollTimeout(motion) =>
      if d.pollTimer && motion && d.pollPeriod != NoPeriod then RequestSound(d) else d
    case DurationTimeout => if d.durationTimer then BackOff(d.(durationTimer := false)) else d
    case SoundCompleted =>
      if d.playSoundRequested then
        d.(playSoundRequested := false, pollTimer := true, pollPeriod := SamplingRate2,
           durationTimer := d.durationTimer || d.pollPeriod == SamplingRate1)
      else d
    case OwnerConnected => if d.enabled then Did(Reset(d), StopDetection) else Reset(d)
    case Separated => d.(enableTimer := true)
    case Unpaired => d
    // the stop callback is not called: the session with the application is over
    case Disabled => Reset(d).(log := [])
  }

  function Run(events: seq<Event>): Detector {
    if events == [] then INITIAL else Step(Run(events[..|events| - 1]), events[|events| - 1])
  }

  /** The separated state is entered only while detection is off, as after an owner connection. */
  predicate Fair(d: Detector, e: Event) {
    e.Separated? ==> !d.enabled
  }

  ghost predicate FairRun(events: seq<Event>) {
    forall k :: 0 <= k < |events| ==> Fair(Run(events[..k]), events[k])
  }

  // ----- Logs ---------------------------------------------------------------------

  /** Detection after the log: on or off, and the sounds requested since it was started. */
  datatype Phase = Off | On(sounds: nat) | Broken

  /** Starts and stops alternate, and sounds are requested only in between, at most ten. */
  function After(phase: Phase, a: Action): Phase {
    match (phase, a)
    case (Off, StartDetection) => On(0)
    case (On(_), StopDetection) => Off
    case (On(n), PlaySound) => if n < MAX_SOUND_COUNT then On(n + 1) else Broken
    case _ => Broken
  }

  function PhaseOf(log: seq<Action>): Phase {
    if log == [] then Off else After(PhaseOf(log[..|log| - 1]), log[|log| - 1])
  }

  lemma PhaseAppend(log: seq<Action>, a: Action)
    ensures PhaseOf(log + [a]) == After(PhaseOf(log), a)
  {
    assert (log + [a])[..|log|] == log;
  }

  // ----- Invariant ------------------------------------------------------------------

  predicate Inv(d: Detector) {
    // the log is well formed, and the fields agree with it
    && PhaseOf(d.log) == (if d.enabled then On(d.soundCount) else Off)
    && d.soundCount < MAX_SOUND_COUNT && (!d.enabled ==> d.soundCount == 0)
    // polling and sounds only while detection is enabled
    && (d.pollTimer || d.durationTimer || d.playSoundRequested ==> d.enabled)
    && (d.enabled ==> !d.enableTimer)
    // enabled detection goes on: a poll is due or a sound is being played, not both
    && (d.enabled ==> (d.pollTimer <==> !d.playSoundRequested))
    && (d.enabled ==> d.pollPeriod != NoPeriod)
    // active polling is bounded by the duration timer
    && (d.enabled ==> (d.durationTimer <==> d.pollPeriod == SamplingRate2))
  }

  lemma StepKeepsInv(d: Detector, e: Event)
    requires Inv(d) && Fair(d, e)
    ensures Inv(Step(d, e))
  {
    hide PhaseOf;
    PhaseAppend(d.log, StartDetection);
    PhaseAppend(d.log, StopDetection);
    PhaseAppend(d.log, PlaySound);
    PhaseAppend(d.log + [PlaySound], StopDetection);
    EmptyLog();
  }

  lemma EmptyLog()
    ensures PhaseOf([]) == Off
  {
  }

  lemma FairPrefix(events: seq<Event>)
    requires FairRun(events) && events != []
    ensures FairRun(events[..|events| - 1]) && Fair(Run(events[..|events| - 1]), events[|events| - 1])
  {
    hide Run, Fair;
    var past := events[..|events| - 1];
    forall k | 0 <= k < |past| ensures Fair(Run(past[..k]), past[k]) {
      assert past[..k] == events[..k];
    }
  }

  lemma {:induction false} RunKeepsInv(events: seq<Event>)
    requires FairRun(events)
    ensures Inv(Run(events))
  {
    hide Inv, Step, Fair, FairRun;
    if events == [] {
      InitialInv();
    } else {
      FairPrefix(events);
      RunKeepsInv(events[..|events| - 1]);
      StepKeepsInv(Run(events[..|events| - 1]), events[|events| - 1]);
    }
  }

  lemma InitialInv()
    ensures Inv(INITIAL)
  {
  }

  // ----- Theorems --------------------------------------------------------------------

  predicate IsSwitch(a: Action) {
    !a.PlaySound?
  }

  /** In a well-formed log no two starts, and no two stops, follow each other. */
  lemma {:induction false} SwitchesAlternate(log: seq<Action>, i: nat, j: nat)
    requires PhaseOf(log) != Broken && i < j < |log|
    requires IsSwitch(log[i]) && IsSwitch(log[j]) && forall k :: i < k < j ==> log[k] == PlaySound
    ensures log[i] != log[j] && (log[i] == StartDetection ==> j - i - 1 <= MAX_SOUND_COUNT)
  {
    PrefixesWellFormed(log, j);
    PrefixesWellFormed(log, j + 1);
    PrefixesWellFormed(log, i + 1);
    assert log[..j + 1][..j] == log[..j];
    assert log[..i + 1][..i] == log[..i];
    SoundsBetween(log, i, j);
  }

  lemma {:induction false} PrefixesWellFormed(log: seq<Action>, n: nat)
    requires PhaseOf(log) != Broken && n <= |log|
    ensures PhaseOf(log[..n]) != Broken
  {
    if n == |log| {
      assert log[..n] == log;
    } else {
      PrefixesWellFormed(log[..|log| - 1], n);
      assert log[..|log| - 1][..n] == log[..n];
    }
  }

  /** The phase after the sounds that follow a switch. */
  lemma {:induction false} SoundsBetween(log: seq<Action>, i: nat, j: nat)
    requires i < j <= |log| && PhaseOf(log[..j]) != Broken
    requires forall k :: i < k < j ==> log[k] == PlaySound
    requires IsSwitch(log[i])
    ensures if log[i] == StartDetection then PhaseOf(log[..j]) == On(j - i - 1) && j - i - 1 <= MAX_SOUND_COUNT
            else PhaseOf(log[..j]) == Off && j == i + 1
    decreases j
  {
    assert log[..j][..j - 1] == log[..j - 1];
    if j > i + 1 {
      SoundsBetween(log, i, j - 1);
    }
  }

  /**
   In every fair run: start and stop callbacks strictly alternate, at most ten sounds
   are requested between a start and its stop, none outside, and the poll and duration
   timers run only while detection is enabled.
   */
  lemma UnwantedTrackingSafe(events: seq<Event>)
    requires FairRun(events)
    ensures var d := Run(events);
            && PhaseOf(d.log) == (if d.enabled then On(d.soundCount) else Off)
            && (d.pollTimer || d.durationTimer ==> d.enabled)
            && (d.pollTimer ==> d.pollPeriod != NoPeriod)
            && forall i, j :: 0 <= i < j < |d.log| && IsSwitch(d.log[i]) && IsSwitch(d.log[j])
                              && (forall k :: i < k < j ==> d.log[k] == PlaySound) ==>
                 d.log[i] != d.log[j] && (d.log[i] == StartDetection ==> j - i - 1 <= MAX_SOUND_COUNT)
  {
    RunKeepsInv(events);
    var d := Run(events);
    hide Run, PhaseOf, FairRun;
    forall i, j | 0 <= i < j < |d.log| && IsSwitch(d.log[i]) && IsSwitch(d.log[j])
                  && (forall k :: i < k < j ==> d.log[k] == PlaySound)
      ensures d.log[i] != d.log[j] && (d.log[i] == StartDetection ==> j - i - 1 <= MAX_SOUND_COUNT)
    {
      SwitchesAlternate(d.log, i, j);
    }
  }

  /** Detection that is enabled never stalls: a poll is due, or the sound it asked for is not completed. */
  lemma NeverStalls(events: seq<Event>)
    requires FairRun(events) && Run(events).enabled
    ensures Run(events).pollTimer || Step(Run(events), SoundCompleted).pollTimer
  {
    hide FairRun, PhaseOf;
    RunKeepsInv(events);
  }

  /**
   The hypothesis is needed, and is the exact one: if the separated state is entered
   while detection is on, the next timeout starts it a second time.
   */
  lemma StartedTwiceIff(d: Detector)
    requires Inv(d)
    ensures PhaseOf(Step(Step(d, Separated), EnableTimeout).log) == Broken <==> !Fair(d, Separated)
  {
    PhaseAppend(d.log, StartDetection);
    hide PhaseOf;
  }

  // ----- The module ---------------------------------------------------------------------

  /** The static state of the module; the callbacks are recorded in `log`. */
  class MotionDetection {
    var motionDetectionEnabled: bool
    var playSoundRequested: bool
    var soundCount: nat
    var enableTimer: bool
    var pollTimer: bool
    var pollPeriod: Period
    var durationTimer: bool
    ghost var log: seq<Action>

    ghost function D(): Detector
      reads this
    {
      Detector(motionDetectionEnabled, playSoundRequested, soundCount, enableTimer, pollTimer, pollPeriod,
               durationTimer, log)
    }

    constructor ()
      ensures D() == INITIAL
    {
      motionDetectionEnabled, playSoundRequested, soundCount := false, false, 0;
      enableTimer, pollTimer, pollPeriod, durationTimer := false, false, NoPeriod, false;
      log := [];
    }

    method StateReset()
      modifies this
      ensures D() == Reset(old(D()))
    {
      motionDetectionEnabled := false;
      playSoundRequested := false;
      soundCount := 0;
      enableTimer := false;
      pollTimer := false;
      durationTimer := false;
    }

    /** `backoff_setup` and `motion_detection_stop`. */
    method BackoffAndStop()
      modifies this
      ensures D() == BackOff(old(D()))
    {
      StateReset();
      enableTimer := true;
      log := log + [StopDetection];
    }

    method MotionEnableTimeoutHandle()
      requires enableTimer
      modifies this
      ensures D() == Step(old(D()), EnableTimeout)
    {
      enableTimer := false;
      log := log + [StartDetection];
      motionDetectionEnabled := true;
      pollTimer := true;
      pollPeriod := SamplingRate1;
    }

    method MotionPollHandle(motionDetected: bool)
      modifies this
      ensures D() == if motionDetected then RequestSound(old(D())) else old(D())
    {
      if motionDetected {
        pollTimer := false;
        log := log + [PlaySound];
        playSoundRequested := true;
        soundCount := soundCount + 1;
        if soundCount >= MAX_SOUND_COUNT {
          BackoffAndStop();
        }
      }
    }

    /** The period is always one of the two rates: the assertion behind them cannot fail. */
    method MotionPollTimeoutHandle(motionDetected: bool)
      requires pollTimer && Inv(D())
      modifies this
      ensures D() == Step(old(D()), PollTimeout(motionDetected)) && Inv(D())
    {
      StepKeepsInv(D(), PollTimeout(motionDetected));
      if pollPeriod == SamplingRate1 {
        MotionPollHandle(motionDetected);
      } else if pollPeriod == SamplingRate2 {
        MotionPollHandle(motionDetected);
      } else {
        assert false;
      }
    }

    method MotionPollDurationTimeoutHandle()
      requires durationTimer
      modifies this
      ensures D() == Step(old(D()), DurationTimeout)
    {
      durationTimer := false;
      BackoffAndStop();
    }

    method SoundCompletedHandle()
      modifies this
      ensures D() == Step(old(D()), SoundCompleted)
    {
      if playSoundRequested {
        playSoundRequested := false;
        if pollPeriod == SamplingRate1 {
          durationTimer := true;
        }
        pollTimer := true;
        pollPeriod := SamplingRate2;
      }
    }

    method ConnectedOwnerHandle()
      modifies this
      ensures D() == Step(old(D()), OwnerConnected)
    {
      var isEnabled := motionDetectionEnabled;
      StateReset();
      if isEnabled {
        log := log + [StopDetection];
      }
    }

    method SeparatedStateTransitionHandle()
      modifies this
      ensures D() == Step(old(D()), Separated)
    {
      enableTimer := true;
    }

    method DisabledStateTransitionHandle()
      modifies this
      ensures D() == Step(old(D()), Disabled)
    {
      StateReset();
      log := [];
    }
  }
}
