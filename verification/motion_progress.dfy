/** What the unwanted-tracking automaton must do: answer motion with sounds, and come back after a pause. */
module MotionProgress {
  import opened Motion

  // ----- Answers -----------------------------------------------------------------------

  /** What an event makes the module ask for, by the log and the timers that run. */
  function Reply(phase: Phase, d: Detector, e: Event): seq<Action> {
    match e
    case EnableTimeout => if d.enableTimer then [StartDetection] else []
    case PollTimeout(motion) =>
      if d.pollTimer && motion && phase.On? then
        if phase.sounds + 1 >= 10 then [PlaySound, StopDetection] else [PlaySound]
      else []
    case DurationTimeout => if d.durationTimer then [StopDetection] else []
    case OwnerConnected => if phase.On? then [StopDetection] else []
    case _ => []
  }

  /**
   In every fair run: motion that is detected asks for a sound, the tenth one and the
   end of active polling also stop detection, and so does an owner that connects; a
   delay that is over starts it. Nothing else is ever asked for.
   */
  lemma EventsAnswered(events: seq<Event>, e: Event)
    requires FairRun(events) && !e.Disabled?
    ensures Step(Run(events), e).log == Run(events).log + Reply(PhaseOf(Run(events).log), Run(events), e)
  {
    RunKeepsInv(events);
    hide Run, PhaseOf, FairRun;
  }

  // ----- Timers ------------------------------------------------------------------------

  /** The tag was separated from its owner, and no owner connected since. */
  predicate IsSeparated(events: seq<Event>) {
    events != []
    && match events[|events| - 1]
       case Separated => true
       case OwnerConnected => false
       case Disabled => false
       case _ => IsSeparated(events[..|events| - 1])
  }

  /** In every fair run detection is on, or will be after a delay, exactly while the tag is separated. */
  lemma {:induction false} ArmedIff(events: seq<Event>)
    requires FairRun(events)
    ensures Run(events).enabled || Run(events).enableTimer <==> IsSeparated(events)
  {
    if events != [] {
      FairPrefix(events);
      ArmedIff(events[..|events| - 1]);
      RunKeepsInv(events[..|events| - 1]);
      hide PhaseOf, FairRun, Fair;
    }
  }

  /**
   Which timers an event leaves running, in every fair run: polling starts at the slow
   rate; while a sound is played there is no polling; then it goes on at the fast rate,
   and its time is limited; and whatever stops detection starts the delay before it
   begins again, unless an owner connected.
   */
  lemma TimersAfter(events: seq<Event>)
    requires FairRun(events)
    ensures var d := Run(events);
            && (d.enableTimer ==>
                  var d1 := Step(d, EnableTimeout);
                  d1.enabled && d1.pollTimer && d1.pollPeriod == SamplingRate1 && !d1.durationTimer && !d1.enableTimer)
            && (d.pollTimer ==>
                  var d1 := Step(d, PollTimeout(true));
                  && !d1.pollTimer && d1.enabled == d1.playSoundRequested == (d.soundCount + 1 < 10)
                  && d1.enableTimer == !d1.enabled && (d1.enabled ==> d1.durationTimer == d.durationTimer))
            && Step(d, PollTimeout(false)) == d
            && (d.playSoundRequested ==>
                  var d1 := Step(d, SoundCompleted);
                  d1.enabled && d1.pollTimer && d1.pollPeriod == SamplingRate2 && d1.durationTimer)
            && (!d.playSoundRequested ==> Step(d, SoundCompleted) == d)
            && (d.durationTimer ==>
                  var d1 := Step(d, DurationTimeout);
                  d1.enableTimer && !d1.enabled && !d1.pollTimer && !d1.durationTimer && !d1.playSoundRequested)
            && (var d1 := Step(d, OwnerConnected);
                !d1.enabled && !d1.enableTimer && !d1.pollTimer && !d1.durationTimer && !d1.playSoundRequested)
  {
    RunKeepsInv(events);
    hide Run, PhaseOf, FairRun;
  }

  // ----- A tag that moves all the time ------------------------------------------------------

  /** `k` times motion is detected and the sound played to its end. */
  function Rounds(k: nat): seq<Event> {
    if k == 0 then [] else Rounds(k - 1) + [PollTimeout(true), SoundCompleted]
  }

  lemma RunTwo(events: seq<Event>, a: Event, b: Event)
    ensures Run(events + [a, b]) == Step(Step(Run(events), a), b)
  {
    assert events + [a, b] == (events + [a]) + [b];
    assert (events + [a] + [b])[..|events| + 1] == events + [a] && (events + [a])[..|events|] == events;
  }

  lemma FairMore(events: seq<Event>, e: Event)
    requires FairRun(events) && !e.Separated?
    ensures FairRun(events + [e])
  {
    hide Run;
    var all := events + [e];
    forall k | 0 <= k < |all| ensures Fair(Run(all[..k]), all[k]) {
      if k < |events| {
        assert all[..k] == events[..k];
      }
    }
  }

  /** One sound more, and polling goes on; or the tenth, and detection stops. */
  lemma OneRound(d: Detector)
    requires Inv(d) && d.pollTimer
    ensures var d1 := Step(Step(d, PollTimeout(true)), SoundCompleted);
            if d.soundCount < 9 then PhaseOf(d1.log) == On(d.soundCount + 1) && d1.pollTimer
            else PhaseOf(d1.log) == Off && d1.enableTimer && !d1.pollTimer
  {
    PhaseAppend(d.log, PlaySound);
    PhaseAppend(d.log + [PlaySound], StopDetection);
    hide PhaseOf;
  }

  lemma Sounding(d: Detector)
    requires Inv(d) && PhaseOf(d.log).On?
    ensures d.soundCount == PhaseOf(d.log).sounds
  {
    hide PhaseOf;
  }

  lemma RoundsNext(events: seq<Event>, k: nat)
    requires k > 0
    ensures events + Rounds(k) == ((events + Rounds(k - 1)) + [PollTimeout(true)]) + [SoundCompleted]
  {
  }

  lemma OneMoreRound(past: seq<Event>)
    requires FairRun(past) && Run(past).pollTimer && PhaseOf(Run(past).log).On?
    ensures FairRun((past + [PollTimeout(true)]) + [SoundCompleted])
    ensures var d := Run((past + [PollTimeout(true)]) + [SoundCompleted]);
            var n := PhaseOf(Run(past).log).sounds;
            if n < 9 then PhaseOf(d.log) == On(n + 1) && d.pollTimer
            else PhaseOf(d.log) == Off && d.enableTimer && !d.pollTimer
  {
    hide PhaseOf, FairRun, Run, Step, Inv;
    assert (past + [PollTimeout(true)]) + [SoundCompleted] == past + [PollTimeout(true), SoundCompleted];
    RunTwo(past, PollTimeout(true), SoundCompleted);
    FairMore(past, PollTimeout(true));
    FairMore(past + [PollTimeout(true)], SoundCompleted);
    RunKeepsInv(past);
    Sounding(Run(past));
    OneRound(Run(past));
  }

  /** After `k` sounds polling goes on, and after the tenth detection has stopped and will begin again. */
  predicate Sounded(events: seq<Event>, k: nat) {
    var d := Run(events);
    if k < 10 then PhaseOf(d.log) == On(k) && d.pollTimer
    else PhaseOf(d.log) == Off && d.enableTimer && !d.pollTimer
  }

  lemma NextRound(events: seq<Event>, k: nat)
    requires k < 10 && FairRun(events + Rounds(k)) && Sounded(events + Rounds(k), k)
    ensures FairRun(events + Rounds(k + 1)) && Sounded(events + Rounds(k + 1), k + 1)
  {
    hide PhaseOf, FairRun, Run, Rounds;
    RoundsNext(events, k + 1);
    OneMoreRound(events + Rounds(k));
  }

  /**
   A tag that is separated and moves all the time sounds ten times: after `k` rounds
   the log says `k` sounds and polling goes on, until the tenth stops detection and
   starts the delay before it begins again.
   */
  lemma {:induction false} TenSounds(events: seq<Event>, k: nat)
    requires FairRun(events) && Sounded(events, 0) && k <= 10
    ensures FairRun(events + Rounds(k)) && Sounded(events + Rounds(k), k)
  {
    if k == 0 {
      assert events + Rounds(0) == events;
    } else {
      hide *;
      TenSounds(events, k - 1);
      NextRound(events, k - 1);
    }
  }
}
