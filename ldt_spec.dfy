/**
 * The audio-primed lexical decision trial, as values.
 *
 * A trial is a small sequential state machine driven by three kinds of
 * callback: the one-shot fixation timer, the natural end of the audio
 * prime, and a keypress delivered by the keyboard listener. `Step` gives the
 * effect of one callback on a `TrialState`; `Inv` is the invariant every
 * reachable state keeps. The class in ldt_trial.dfy is specified by these
 * functions.
 */
module LdtSpec {

  /** A key identifier; key comparison is plain equality. */
  type Key = string

  /** The markup shown while the fixation cross is on screen. */
  const FixationMarkup: string := "<p style=\"font-size: 32px;\">+</p>"

  /** The validity label that marks a real word; every other label counts as a non-word. */
  const ValidLabel: string := "valid"

  datatype WordItem = WordItem(word: string, validity: string, category: string)

  /** The trial parameters the trial reads; the audio clip and the fixation duration only drive timing. */
  datatype Config = Config(words: seq<WordItem>, validKey: Key, invalidKey: Key, endsAfterAudio: bool)

  /** Fixation cross shown, word `index` shown and awaiting a response, or torn down. */
  datatype Phase = Fixation | Word(index: nat) | Finished

  /** What the trial hands to the host: the five parallel response sequences. */
  datatype TrialResult = TrialResult(rt: seq<nat>, key: seq<Key>, correct: seq<bool>,
                                     validity: seq<string>, category: seq<string>)

  /**
   * The trial's closure state: the five response sequences, which callbacks
   * are live, what the display shows, and every record delivered to the host.
   */
  datatype TrialState = TrialState(
    phase: Phase,
    rt: seq<nat>, key: seq<Key>, correct: seq<bool>, validity: seq<string>, category: seq<string>,
    timerArmed: bool,       // the fixation timeout is pending
    listenerArmed: bool,    // a keyboard response listener is registered
    endCallbackLive: bool,  // the audio's natural end would call the teardown
    audioPlaying: bool,     // the audio prime has neither ended nor been stopped
    display: string,
    delivered: seq<TrialResult>)

  /** The callbacks the host can run; a keypress carries the key, its reaction time and whether it is a held-key repeat. */
  datatype Event = TimerFires | AudioEnds | KeyPress(key: Key, rt: nat, held: bool)

  /**
   * The correctness of a response: the valid key is right for a word labelled
   * valid, the invalid key for anything else.
   */
  function IsCorrect(cfg: Config, validity: string, key: Key): (r: bool)
    ensures key == cfg.validKey && key != cfg.invalidKey ==> (r <==> validity == ValidLabel)
    ensures key == cfg.invalidKey && key != cfg.validKey ==> (r <==> validity != ValidLabel)
    ensures key != cfg.validKey && key != cfg.invalidKey ==> !r
    ensures cfg.validKey == cfg.invalidKey ==> (r <==> key == cfg.validKey)
  {
    if validity == ValidLabel then key == cfg.validKey else key == cfg.invalidKey
  }

  /** The listener reacts only to a fresh press of one of the two bound keys. */
  predicate Accepts(cfg: Config, key: Key, held: bool)
  {
    !held && (key == cfg.validKey || key == cfg.invalidKey)
  }

  /** The record the teardown serialises. */
  function Results(s: TrialState): TrialResult
  {
    TrialResult(s.rt, s.key, s.correct, s.validity, s.category)
  }

  /** Empty sequences, fixation marker on screen, audio playing and the fixation timer armed. */
  function Start(cfg: Config): (s: TrialState)
    ensures Inv(cfg, s)
    ensures s.phase == Fixation && s.timerArmed
    ensures Results(s) == TrialResult([], [], [], [], [])
  {
    TrialState(Fixation, [], [], [], [], [],
               true, false, cfg.endsAfterAudio, true, FixationMarkup, [])
  }

  /**
   * Shows the word at the index given by the number of responses so far and
   * arms the listener. With no word at that index, reading it throws, so the
   * callback aborts and nothing changes.
   */
  function NextLdt(cfg: Config, s: TrialState): TrialState
  {
    var current := |s.rt|;
    if current < |cfg.words| then
      s.(phase := Word(current), display := cfg.words[current].word, listenerArmed := true)
    else
      s
  }

  /** Writes one entry at index |rt| of each of the five sequences. */
  function RecordResponse(cfg: Config, s: TrialState, key: Key, rt: nat): TrialState
    requires |s.rt| < |cfg.words|
  {
    var w := cfg.words[|s.rt|];
    s.(rt := s.rt + [rt], key := s.key + [key],
       validity := s.validity + [w.validity], category := s.category + [w.category],
       correct := s.correct + [IsCorrect(cfg, w.validity, key)])
  }

  /** Cancels the timer, stops the audio and detaches its end callback, cancels the listener, clears the display and delivers the record. */
  function EndTrial(s: TrialState): TrialState
  {
    s.(phase := Finished, timerArmed := false, audioPlaying := false, endCallbackLive := false,
       listenerArmed := false, display := "", delivered := s.delivered + [Results(s)])
  }

  /** Records a response, then ends the trial after the last word or shows the next one. */
  function AfterResponse(cfg: Config, s: TrialState, key: Key, rt: nat): TrialState
    requires |s.rt| < |cfg.words|
  {
    var current := |s.rt|;
    var s1 := RecordResponse(cfg, s, key, rt);
    if current == |cfg.words| - 1 then EndTrial(s1) else NextLdt(cfg, s1)
  }

  /** The five sequences are parallel, and entry i describes the response to word i. */
  ghost predicate Aligned(cfg: Config, s: TrialState)
  {
    |s.key| == |s.rt| && |s.correct| == |s.rt| && |s.validity| == |s.rt| && |s.category| == |s.rt| &&
    |s.rt| <= |cfg.words| &&
    forall i :: 0 <= i < |s.rt| ==>
      s.validity[i] == cfg.words[i].validity &&
      s.category[i] == cfg.words[i].category &&
      (s.key[i] == cfg.validKey || s.key[i] == cfg.invalidKey) &&
      s.correct[i] == IsCorrect(cfg, cfg.words[i].validity, s.key[i])
  }

  /** Before teardown: nothing delivered, and the audio end callback is live exactly when the trial ends after audio. */
  ghost predicate Running(cfg: Config, s: TrialState)
  {
    s.delivered == [] &&
    s.endCallbackLive == cfg.endsAfterAudio &&
    (cfg.endsAfterAudio ==> s.audioPlaying)
  }

  /** The invariant of every state a trial can reach. */
  ghost predicate Inv(cfg: Config, s: TrialState)
  {
    Aligned(cfg, s) &&
    match s.phase
    case Fixation =>
      s.rt == [] && !s.listenerArmed && s.display == FixationMarkup &&
      (s.timerArmed || cfg.words == []) && Running(cfg, s)
    case Word(i) =>
      i == |s.rt| < |cfg.words| && s.listenerArmed && !s.timerArmed &&
      s.display == cfg.words[i].word && Running(cfg, s)
    case Finished =>
      !s.timerArmed && !s.listenerArmed && !s.endCallbackLive && !s.audioPlaying &&
      s.display == "" && s.delivered == [Results(s)] &&
      (cfg.endsAfterAudio || 0 < |s.rt| == |cfg.words|)
  }

  /**
   * The effect of one callback. A callback that is no longer live (a cleared
   * timer, a detached audio handler, a cancelled listener) does nothing.
   */
  function Step(cfg: Config, s: TrialState, e: Event): (r: TrialState)
    requires Inv(cfg, s)
    ensures Inv(cfg, r)
    ensures s.rt <= r.rt && s.key <= r.key && s.correct <= r.correct
    ensures s.validity <= r.validity && s.category <= r.category
    ensures s.phase == Finished ==> r == s
  {
    match e
    case TimerFires =>
      if s.timerArmed then NextLdt(cfg, s.(timerArmed := false)) else s
    case AudioEnds =>
      if !s.audioPlaying then s
      else if s.endCallbackLive then EndTrial(s.(audioPlaying := false))
      else s.(audioPlaying := false)
    case KeyPress(k, t, held) =>
      if s.listenerArmed && Accepts(cfg, k, held) then AfterResponse(cfg, s.(listenerArmed := false), k, t)
      else s
  }

  /**
   * The effect of callbacks run one after another, in any order the host
   * schedules them. Responses are only ever appended, and once the trial is
   * torn down no callback changes anything.
   */
  function Run(cfg: Config, s: TrialState, es: seq<Event>): (r: TrialState)
    requires Inv(cfg, s)
    ensures Inv(cfg, r)
    ensures s.rt <= r.rt && s.key <= r.key && s.correct <= r.correct
    ensures s.validity <= r.validity && s.category <= r.category
    ensures s.phase == Finished ==> r == s
    decreases |es|
  {
    if es == [] then s else Run(cfg, Step(cfg, s, es[0]), es[1..])
  }
}
