/**
 * The audio-ldt plugin's trial as the object its callbacks mutate.
 *
 * The constructor is the body of the trial function up to arming the
 * fixation timer; the three public methods are the callbacks the host runs
 * (the timer, the audio's natural end, a keypress from the listener). Each
 * one keeps `Valid()` and is tied to `LdtSpec.Step`.
 */
module LdtTrial {
  import opened LdtSpec
  import LdtProperties

  class AudioLdtTrial {
    const trial: Config

    var phase: Phase
    var rt: seq<nat>
    var key: seq<Key>
    var correct: seq<bool>
    var validity: seq<string>
    var category: seq<string>
    var timerArmed: bool
    var listenerArmed: bool
    var endCallbackLive: bool
    var audioPlaying: bool
    var display: string
    /** Every record passed to the host's finishTrial, in order. */
    var delivered: seq<TrialResult>

    function State(): TrialState
      reads this
    {
      TrialState(phase, rt, key, correct, validity, category,
                 timerArmed, listenerArmed, endCallbackLive, audioPlaying, display, delivered)
    }

    ghost predicate Valid()
      reads this
    {
      Inv(trial, State())
    }

    /** Starts the trial: empty data, audio end hooked up iff the trial ends after audio, fixation shown, audio started, timer armed. */
    constructor (trial: Config)
      ensures this.trial == trial
      ensures Valid() && State() == Start(trial)
      ensures rt == [] && key == [] && correct == [] && validity == [] && category == []
      ensures phase == Fixation && timerArmed && !listenerArmed && display == FixationMarkup
      ensures endCallbackLive == trial.endsAfterAudio
    {
      this.trial := trial;
      rt, key, correct, validity, category := [], [], [], [], [];
      endCallbackLive := trial.endsAfterAudio;
      display := FixationMarkup;
      audioPlaying := true;
      timerArmed := true;
      phase := Fixation;
      listenerArmed := false;
      delivered := [];
    }

    /** The fixation timeout elapses and runs the word presentation. */
    method TimerFires()
      requires Valid()
      modifies this
      ensures Valid() && State() == Step(trial, old(State()), Event.TimerFires)
      ensures old(timerArmed) && |trial.words| > 0 ==> phase == Word(0) && display == trial.words[0].word && listenerArmed
    {
      if timerArmed {
        timerArmed := false;
        NextLdt();
      }
    }

    /** The audio prime reaches its natural end; the trial ends only if the end callback is live. */
    method AudioEnds()
      requires Valid()
      modifies this
      ensures Valid() && State() == Step(trial, old(State()), Event.AudioEnds)
      ensures old(audioPlaying) && trial.endsAfterAudio ==> phase == Finished && delivered == [Results(old(State()))]
      ensures !trial.endsAfterAudio ==> phase == old(phase) && rt == old(rt)
    {
      if audioPlaying {
        audioPlaying := false;
        if endCallbackLive {
          EndTrial();
        }
      }
    }

    /** The keyboard listener sees a keydown; only a fresh press of a bound key is a response. */
    method KeyPress(k: Key, t: nat, held: bool)
      requires Valid()
      modifies this
      ensures Valid() && State() == Step(trial, old(State()), Event.KeyPress(k, t, held))
      ensures !Accepts(trial, k, held) ==> State() == old(State())
      ensures old(phase).Word? && Accepts(trial, k, held) ==>
        var i := old(phase).index;
        rt == old(rt) + [t] && key == old(key) + [k] &&
        validity == old(validity) + [trial.words[i].validity] &&
        category == old(category) + [trial.words[i].category] &&
        correct == old(correct) + [IsCorrect(trial, trial.words[i].validity, k)] &&
        phase == (if i == |trial.words| - 1 then Finished else Word(i + 1))
    {
      ghost var s0 := State();
      if listenerArmed && Accepts(trial, k, held) {
        listenerArmed := false;
        AfterResponse(k, t);
      }
      if s0.phase.Word? && Accepts(trial, k, held) {
        LdtProperties.KeyPressRecords(trial, s0, k, t, held);
      }
    }

    /** Shows word number |rt| and arms a non-persistent listener for the two bound keys. */
    method NextLdt()
      modifies this
      ensures State() == LdtSpec.NextLdt(trial, old(State()))
    {
      var current := |rt|;
      if current < |trial.words| {
        display := trial.words[current].word;
        phase := Word(current);
        listenerArmed := true;
      }
      // With no word at index current the source's property read throws:
      // the callback aborts and leaves everything as it was.
    }

    /** Writes the response at index |rt| of the five sequences, then ends the trial or shows the next word. */
    method AfterResponse(k: Key, t: nat)
      requires |rt| < |trial.words|
      modifies this
      ensures State() == LdtSpec.AfterResponse(trial, old(State()), k, t)
    {
      var current := |rt|;
      var w := trial.words[current];
      rt := rt + [t];
      key := key + [k];
      validity := validity + [w.validity];
      category := category + [w.category];
      correct := correct + [IsCorrect(trial, w.validity, k)];
      if current == |trial.words| - 1 {
        EndTrial();
      } else {
        NextLdt();
      }
    }

    /** Tears the trial down and hands the record to the host. */
    method EndTrial()
      modifies this
      ensures State() == LdtSpec.EndTrial(old(State()))
    {
      timerArmed := false;
      audioPlaying := false;
      endCallbackLive := false;
      listenerArmed := false;
      display := "";
      delivered := delivered + [TrialResult(rt, key, correct, validity, category)];
      phase := Finished;
    }
  }
}
