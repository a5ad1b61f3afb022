/**
 * What the trial's state machine guarantees, stated over `LdtSpec.Step` and
 * `LdtSpec.Run`.
 */
module LdtProperties {
  import opened LdtSpec

  /** The state reached from the start by the callbacks `es`. */
  function Reached(cfg: Config, es: seq<Event>): (r: TrialState)
    ensures Inv(cfg, r)
  {
    Run(cfg, Start(cfg), es)
  }

  /** The rt values carried by a sequence of keypress events. */
  function RtsOf(es: seq<Event>): (rts: seq<nat>)
    requires forall j :: 0 <= j < |es| ==> es[j].KeyPress?
    ensures |rts| == |es|
    ensures forall j :: 0 <= j < |es| ==> rts[j] == es[j].rt
  {
    if es == [] then [] else [es[0].rt] + RtsOf(es[1..])
  }

  /** The keys carried by a sequence of keypress events. */
  function KeysOf(es: seq<Event>): (keys: seq<Key>)
    requires forall j :: 0 <= j < |es| ==> es[j].KeyPress?
    ensures |keys| == |es|
    ensures forall j :: 0 <= j < |es| ==> keys[j] == es[j].key
  {
    if es == [] then [] else [es[0].key] + KeysOf(es[1..])
  }

  lemma AppendAssoc<T>(a: seq<T>, b: seq<T>, c: seq<T>)
    ensures (a + b) + c == a + (b + c)
  {
  }

  /** The fixation timer leads into the word loop at index 0 with nothing recorded. */
  lemma TimerStartsWordLoop(cfg: Config)
    requires |cfg.words| > 0
    ensures var r := Step(cfg, Start(cfg), TimerFires);
      r.phase == Word(0) && r.display == cfg.words[0].word && r.listenerArmed && !r.timerArmed &&
      Results(r) == TrialResult([], [], [], [], [])
  {
  }

  /**
   * With an empty word list, the timer callback fails to read word 0: the
   * fixation stays on screen, no listener is armed and no timer is left.
   */
  lemma EmptyWordListStalls(cfg: Config)
    requires cfg.words == []
    ensures var r := Step(cfg, Start(cfg), TimerFires);
      r.phase == Fixation && r.display == FixationMarkup && !r.listenerArmed && !r.timerArmed
  {
  }

  /** Without the audio exit, an empty word list never reaches the teardown. */
  lemma EmptyWordListNeverFinishes(cfg: Config, es: seq<Event>)
    requires cfg.words == [] && !cfg.endsAfterAudio
    ensures Reached(cfg, es).phase != Finished
    ensures Reached(cfg, es).delivered == []
  {
  }

  /**
   * The race between the audio's end and the fixation timer: if the audio
   * ends first, the trial ends with no responses when it ends after audio,
   * and otherwise nothing but the audio changes.
   */
  lemma AudioBeforeTimer(cfg: Config)
    ensures var r := Step(cfg, Start(cfg), AudioEnds);
      (cfg.endsAfterAudio ==> r.phase == Finished && r.delivered == [TrialResult([], [], [], [], [])]) &&
      (!cfg.endsAfterAudio ==> r == Start(cfg).(audioPlaying := false))
  {
  }

  /**
   * When the audio ends during the word loop and the trial ends after audio,
   * the record delivered holds exactly the responses given so far.
   */
  lemma AudioEndsDuringWordLoop(cfg: Config, s: TrialState)
    requires Inv(cfg, s) && s.phase.Word? && cfg.endsAfterAudio
    ensures var r := Step(cfg, s, AudioEnds);
      r.phase == Finished && r.delivered == [Results(s)] && |r.rt| == s.phase.index < |cfg.words|
  {
  }

  /**
   * An accepted keypress on word i writes one entry at index i of each of the
   * five sequences, taken from word i and the key, and then ends the trial
   * after the last word or presents word i + 1.
   */
  lemma KeyPressRecords(cfg: Config, s: TrialState, k: Key, t: nat, held: bool)
    requires Inv(cfg, s) && s.phase.Word? && Accepts(cfg, k, held)
    ensures var r := Step(cfg, s, KeyPress(k, t, held));
      var i := s.phase.index;
      var w := cfg.words[i];
      i == |s.rt| &&
      r.rt == s.rt + [t] && r.key == s.key + [k] &&
      r.validity == s.validity + [w.validity] && r.category == s.category + [w.category] &&
      r.correct == s.correct + [IsCorrect(cfg, w.validity, k)] &&
      (i == |cfg.words| - 1 ==> r.phase == Finished && r.display == "" && r.delivered == [Results(r)]) &&
      (i < |cfg.words| - 1 ==> r.phase == Word(i + 1) && r.display == cfg.words[i + 1].word && r.listenerArmed)
  {
  }

  /** A held-key repeat or a key other than the two bound ones changes nothing; the listener stays armed. */
  lemma UnacceptedKeyIgnored(cfg: Config, s: TrialState, k: Key, t: nat, held: bool)
    requires Inv(cfg, s) && !Accepts(cfg, k, held)
    ensures Step(cfg, s, KeyPress(k, t, held)) == s
  {
  }

  /**
   * From word i, one accepted keypress per remaining word runs the loop to
   * the end: all |words| responses are recorded, in order, and delivered.
   */
  lemma {:induction false} AnswerEveryWord(cfg: Config, s: TrialState, es: seq<Event>)
    requires Inv(cfg, s) && s.phase.Word?
    requires |es| == |cfg.words| - |s.rt|
    requires forall j :: 0 <= j < |es| ==> es[j].KeyPress? && Accepts(cfg, es[j].key, es[j].held)
    ensures var r := Run(cfg, s, es);
      r.phase == Finished && |r.rt| == |cfg.words| &&
      r.rt == s.rt + RtsOf(es) && r.key == s.key + KeysOf(es) &&
      r.delivered == [Results(r)]
    decreases |es|
  {
    var s1 := Step(cfg, s, es[0]);
    KeyPressRecords(cfg, s, es[0].key, es[0].rt, es[0].held);
    assert Run(cfg, s, es) == Run(cfg, s1, es[1..]);
    if |es| == 1 {
      assert s1.phase == Finished;
      assert Run(cfg, s1, es[1..]) == s1 by { assert es[1..] == []; }
      assert RtsOf(es) == [es[0].rt];
      assert KeysOf(es) == [es[0].key];
    } else {
      assert s1.phase == Word(|s1.rt|);
      AnswerEveryWord(cfg, s1, es[1..]);
      var r := Run(cfg, s1, es[1..]);
      calc {
        r.rt;
        s1.rt + RtsOf(es[1..]);
        (s.rt + [es[0].rt]) + RtsOf(es[1..]);
        { AppendAssoc(s.rt, [es[0].rt], RtsOf(es[1..])); }
        s.rt + RtsOf(es);
      }
      calc {
        r.key;
        s1.key + KeysOf(es[1..]);
        (s.key + [es[0].key]) + KeysOf(es[1..]);
        { AppendAssoc(s.key, [es[0].key], KeysOf(es[1..])); }
        s.key + KeysOf(es);
      }
    }
  }

  /** A trial with at least one word finishes with every word answered when the timer fires and each word gets an accepted key. */
  lemma CompleteTrial(cfg: Config, presses: seq<Event>)
    requires |cfg.words| > 0 && |presses| == |cfg.words|
    requires forall j :: 0 <= j < |presses| ==> presses[j].KeyPress? && Accepts(cfg, presses[j].key, presses[j].held)
    ensures var r := Reached(cfg, [TimerFires] + presses);
      r.phase == Finished && r.delivered == [Results(r)] &&
      r.rt == RtsOf(presses) && r.key == KeysOf(presses)
  {
    var s1 := Step(cfg, Start(cfg), TimerFires);
    assert ([TimerFires] + presses)[1..] == presses;
    AnswerEveryWord(cfg, s1, presses);
  }

  /** The record reaches the host exactly once, at the teardown, and nothing is delivered before it. */
  lemma DeliveredAtMostOnce(cfg: Config, es: seq<Event>)
    ensures var r := Reached(cfg, es);
      |r.delivered| <= 1 && (|r.delivered| == 1 <==> r.phase == Finished) &&
      (r.phase == Finished ==> r.delivered[0] == Results(r))
  {
  }

  /** Once torn down, no later callback (timer, audio end or keypress) changes anything. */
  lemma NoCallbackAfterTeardown(cfg: Config, es: seq<Event>, more: seq<Event>)
    requires Reached(cfg, es).phase == Finished
    ensures Run(cfg, Reached(cfg, es), more) == Reached(cfg, es)
  {
  }

  /**
   * In the delivered record, entry i describes word i: its validity and
   * category are copied from it, the key is one of the bound keys and
   * correctness follows the rule of `IsCorrect`.
   */
  lemma DeliveredRecordAligned(cfg: Config, es: seq<Event>)
    requires Reached(cfg, es).phase == Finished
    ensures var d := Reached(cfg, es).delivered[0];
      |d.key| == |d.rt| && |d.correct| == |d.rt| && |d.validity| == |d.rt| && |d.category| == |d.rt| &&
      |d.rt| <= |cfg.words| &&
      forall i :: 0 <= i < |d.rt| ==>
        d.validity[i] == cfg.words[i].validity && d.category[i] == cfg.words[i].category &&
        (d.key[i] == cfg.validKey || d.key[i] == cfg.invalidKey) &&
        d.correct[i] == IsCorrect(cfg, cfg.words[i].validity, d.key[i])
  {
  }

  /** When the audio's end cannot end the trial, a delivered record holds a response for every word. */
  lemma WithoutAudioExitEveryWordAnswered(cfg: Config, es: seq<Event>)
    requires !cfg.endsAfterAudio && Reached(cfg, es).phase == Finished
    ensures |Reached(cfg, es).delivered[0].rt| == |cfg.words| > 0
  {
  }

  /** One valid word, y/n keys, the subject presses y after 250 time units. */
  lemma OneWordScenario(endsAfterAudio: bool)
    ensures var cfg := Config([WordItem("word", ValidLabel, "prime")], "y", "n", endsAfterAudio);
      Reached(cfg, [TimerFires, KeyPress("y", 250, false)]).delivered ==
        [TrialResult([250], ["y"], [true], [ValidLabel], ["prime"])]
  {
    var cfg := Config([WordItem("word", ValidLabel, "prime")], "y", "n", endsAfterAudio);
    var presses := [KeyPress("y", 250, false)];
    assert [TimerFires, KeyPress("y", 250, false)] == [TimerFires] + presses;
    CompleteTrial(cfg, presses);
    var r := Reached(cfg, [TimerFires] + presses);
    assert r.rt == [250] && r.key == ["y"];
    assert r.correct[0] == IsCorrect(cfg, ValidLabel, "y");
    assert r.correct == [true] && r.validity == [ValidLabel] && r.category == ["prime"];
  }
}
