# audio-ldt trial state machine

This project models the `audio-ldt` jsPsych plugin. Its trial plays an audio prime under a fixation cross. When the fixation timeout elapses it presents a list of words one at a time. For each word it waits for one of two response keys. At the end it hands five parallel response arrays (`rt`, `key`, `correct`, `validity`, `category`) to the host's `finishTrial`.

The model has three modules:

- `LdtSpec` (ldt_spec.dfy) holds the trial's state as a value (`TrialState`) and the effect of each callback (`Step`). `Run` is the effect of any schedule of callbacks. `Inv` is the invariant every reachable state keeps.
- `LdtTrial` (ldt_trial.dfy) holds the class `AudioLdtTrial`. Its fields are the closure state the plugin's callbacks mutate: the phase, the five sequences, four flags (timer armed, listener armed, audio end callback live, audio playing), the displayed text and the records delivered to the host. The constructor is the body of `plugin.trial` up to arming the timer. `TimerFires`, `AudioEnds` and `KeyPress` are the callbacks the host can run. `NextLdt`, `AfterResponse` and `EndTrial` are the inner functions of the same names. The three callbacks `TimerFires`, `AudioEnds` and `KeyPress` keep `Valid()` and are tied to `LdtSpec.Step`. The three inner functions carry only their `LdtSpec` equation and are meant to be called from those callbacks. Like `end_trial` in the plugin, `EndTrial` called directly on a finished trial would deliver a second record.
- `LdtProperties` (ldt_properties.dfy) holds the properties of the state machine, proved over `Step` and `Run`.

Scheduling is nondeterministic. The model does not fix which callback comes next: the host may run any `Event` in any order, and `Run` accepts every schedule. A callback that is no longer live changes nothing. That covers a cleared timeout, an audio handler replaced by a no-op and a cancelled keyboard listener. Key comparison is plain equality. A reaction time is a natural number. The serialised record is the five sequences (`TrialResult`).

A reader might expect otherwise in four places; the model follows the code:

- Validity is a free string. A word counts as valid only when its label is exactly `"valid"`. Every other label is treated as a non-word.
- The audio's natural end can end the trial at any point before teardown, including in the middle of the word loop, when `trial_ends_after_audio` is set. The record then holds only the responses given so far (`AudioEndsDuringWordLoop`). Nothing in the code makes the audio end before the word loop starts.
- An empty word list is not rejected when the trial starts. Reading word 0 in `next_ldt` throws inside the timer callback. The fixation cross stays on screen and no listener is armed. Without the audio exit, the trial then never finishes (`EmptyWordListStalls`, `EmptyWordListNeverFinishes`).
- `end_trial` itself is not idempotent: a second call would deliver a second record. The record reaches the host at most once because teardown clears the timer, detaches the audio callback and cancels the listener, so nothing can call `end_trial` again (`DeliveredAtMostOnce`, `NoCallbackAfterTeardown`).

## Model

| member | source | states |
|---|---|---|
| LdtSpec.IsCorrect | jspsych-audio-ldt.js:112 | a response is correct exactly when the valid key is pressed for a word labelled valid, or the invalid key for any other label; an unbound key is never correct |
| LdtSpec.Start | jspsych-audio-ldt.js:53-91 | the trial starts with all five sequences empty, in the fixation phase with the timer armed, in a state satisfying the invariant |
| LdtSpec.Step | jspsych-audio-ldt.js:60-150 | every callback keeps the invariant (parallel sequences aligned with the words, at most the word count of them, phase, flags and display consistent, a record delivered exactly when torn down); it only appends to the five sequences; nothing changes after teardown |
| LdtSpec.Run | jspsych-audio-ldt.js:51-152 | any schedule of callbacks keeps the invariant, only appends responses, and changes nothing once the trial is torn down |
| LdtProperties.TimerStartsWordLoop | jspsych-audio-ldt.js:91-103 | the fixation timer firing first shows word 0 and arms the listener with nothing recorded |
| LdtProperties.EmptyWordListStalls | jspsych-audio-ldt.js:93-95 | with no words, the timer callback leaves the fixation on screen with no listener and no timer |
| LdtProperties.EmptyWordListNeverFinishes | jspsych-audio-ldt.js:67-95 | with no words and no audio exit, no schedule reaches teardown or delivers anything |
| LdtProperties.AudioBeforeTimer | jspsych-audio-ldt.js:67-91 | if the audio ends before the timer, the trial ends with an empty record when it ends after audio, and otherwise only the audio state changes |
| LdtProperties.AudioEndsDuringWordLoop | jspsych-audio-ldt.js:67-77 | the audio ending during the word loop, with the audio exit on, delivers exactly the responses recorded so far, fewer than the word count |
| LdtProperties.KeyPressRecords | jspsych-audio-ldt.js:106-118 | an accepted key on word i appends rt, key, word i's validity and category and the derived correctness at index i, then ends the trial after the last word or shows word i + 1 |
| LdtProperties.UnacceptedKeyIgnored | jspsych-audio-ldt.js:96-102 | a held-key repeat or an unbound key leaves the whole state unchanged |
| LdtProperties.AnswerEveryWord | jspsych-audio-ldt.js:106-118 | from word i, one accepted key per remaining word ends the trial with every word answered and the rts and keys recorded in order |
| LdtProperties.CompleteTrial | jspsych-audio-ldt.js:91-118 | timer then one accepted key per word finishes the trial, delivering rts and keys in press order |
| LdtProperties.DeliveredAtMostOnce | jspsych-audio-ldt.js:121-149 | under any schedule at most one record is delivered, it is delivered exactly when the trial is torn down, and it equals the recorded sequences |
| LdtProperties.NoCallbackAfterTeardown | jspsych-audio-ldt.js:121-137 | after teardown no further timer, audio or keyboard callback changes anything |
| LdtProperties.DeliveredRecordAligned | jspsych-audio-ldt.js:106-112 | in the delivered record the five sequences have equal length, at most the word count, and entry i holds word i's validity and category, a bound key and the correctness rule's verdict |
| LdtProperties.WithoutAudioExitEveryWordAnswered | jspsych-audio-ldt.js:113-117 | without the audio exit, a delivered record holds exactly one response per word, and there is at least one word |
| LdtProperties.OneWordScenario | jspsych-audio-ldt.js:106-149 | one valid word, keys y/n, y pressed at 250 delivers rt [250], key [y], correct [true], validity [valid] and the word's category |
| LdtTrial.AudioLdtTrial.constructor | jspsych-audio-ldt.js:53-91 | fields equal the start state: empty sequences, fixation shown, timer armed, audio end callback live iff the trial ends after audio |
| LdtTrial.AudioLdtTrial.TimerFires | jspsych-audio-ldt.js:91-103 | keeps the invariant and performs the timer step; the first firing with words present shows word 0 and arms the listener |
| LdtTrial.AudioLdtTrial.AudioEnds | jspsych-audio-ldt.js:67-77 | keeps the invariant and performs the audio end step; it tears down iff the trial ends after audio, and otherwise phase and responses stay |
| LdtTrial.AudioLdtTrial.KeyPress | jspsych-audio-ldt.js:96-118 | keeps the invariant; an unaccepted key changes nothing; an accepted key appends one entry to each sequence from word i and advances to word i + 1 or ends the trial |
| LdtTrial.AudioLdtTrial.NextLdt | jspsych-audio-ldt.js:93-103 | shows the word at index rt.length and arms the listener, or changes nothing when no word is there |
| LdtTrial.AudioLdtTrial.AfterResponse | jspsych-audio-ldt.js:106-118 | writes the response at index rt.length, then ends the trial after the last word or shows the next |
| LdtTrial.AudioLdtTrial.EndTrial | jspsych-audio-ldt.js:121-150 | clears the timer, the audio and its end callback, the listener and the display, and appends the record to what the host received |

## Left out

- The audio backends: the WebAudio buffer source and the HTML audio element, with `start`, `stop`, `pause`, `currentTime` and backend selection. Both come down to "playing" and "end callback live" flags. Which backend runs does not change the trial's behaviour.
- Real time. The fixation duration, the audio clip's length and the timing of the race between them are not modelled. Every order of callbacks is allowed instead, so "fixation longer than the clip" is the schedule where `AudioEnds` comes first.
- Reaction-time measurement with the performance clock. A reaction time is an opaque natural number.
- The byte-level output of `JSON.stringify`. The serialised record is the five sequences. The plugin also reassigns its own fields to the serialised strings at teardown; the model keeps the sequences and records the delivery.
- The DOM. The display is a string holding the markup last written to `innerHTML`.
- The internals of the keyboard API and `compareKeys`. The listener is modelled as accepting a non-held press of either bound key; comparison is plain equality and ignores case settings.
- Preload registration and `plugin.info` are host declarations. The host applies the declared defaults (`valid_key` 'y', `invalid_key` 'n', `trial_ends_after_audio` true) before the trial runs, and `Config` holds the parameters after those defaults are applied. `fixation_duration` is read by the trial but is not declared there.
- Uncaught exceptions: an exception in the timer callback is modelled as the callback changing nothing. The browser's error reporting is not modelled.
