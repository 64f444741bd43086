/** `CommandPanel`: the React console where the user types or dictates a command. Its state
    hooks and refs are the fields of `Panel`; each handler, browser callback and effect is a
    method that the surrounding page (or the browser) calls. The browser's speech services
    are abstract: whether the native `start()` throws is a parameter, and every call made on
    the recognizer, on `speechSynthesis` and on the parent's `onSubmit` is appended to a log
    field. The 200 ms clear-timer is a set of pending timer handles plus `FireTimer`. */
module CommandPanel {
  import opened Wrappers
  import opened Text

  /** The placeholder examples, shown one at a time. */
  const SampleCommands: seq<string> := [
    "Vendí 3 unidades del SKU AZUL-01",
    "Registra que Ana llegó a las 9:05",
    "Crea un recordatorio para llamar a Carla mañana a las 10am"
  ]

  const StartFailed := "No se pudo iniciar el reconocimiento de voz. Intenta nuevamente."
  const RecognitionFailed := "Hubo un error con el reconocimiento de voz."
  const SpeechLang := "es-ES"

  /** The configured recognizer that `recognitionRef` holds. */
  datatype Recognizer = Recognizer(lang: string, interimResults: bool, maxAlternatives: nat)

  /** A call on the native recognizer. */
  datatype RecognizerCall = Start | Stop

  /** A call on `window.speechSynthesis`. */
  datatype SpeechCall = Cancel | Speak(text: string, lang: string)

  class Panel {
    var command: string
    var placeholderIndex: nat
    var isListening: bool
    var isSpeechSupported: bool
    var voiceFeedbackEnabled: bool
    var voiceError: string
    /** `recognitionRef` */
    var recognition: Option<Recognizer>
    /** `spokenMessageRef` */
    var spokenMessage: string
    /** `resetCommandTimeoutRef`: the handle of the last clear-timer set; it is not reset
        when that timer fires or is cleared. */
    var resetTimer: Option<nat>
    /** Clear-timers set and neither fired nor cleared. */
    var pendingTimers: set<nat>
    /** The next handle `setTimeout` gives out; handles are positive. */
    var nextTimer: nat
    /** Every text passed to `onSubmit`, in order. This and the two logs below record the
        component's calls out for the contracts; the component keeps no such state. */
    ghost var submitted: seq<string>
    /** Every `start`/`stop` call on the recognizer, in order. */
    ghost var recognizerCalls: seq<RecognizerCall>
    /** Every `cancel`/`speak` call on `speechSynthesis`, in order. */
    ghost var speechCalls: seq<SpeechCall>

    /** The placeholder index names a sample, and at most one clear-timer is pending: the
        one the ref holds. */
    ghost predicate Valid()
      reads this
    {
      && placeholderIndex < |SampleCommands|
      && nextTimer >= 1
      && (resetTimer.Some? ==> 1 <= resetTimer.value < nextTimer)
      && pendingTimers <= (if resetTimer.Some? then {resetTimer.value} else {})
    }

    constructor ()
      ensures Valid()
      ensures command == "" && placeholderIndex == 0 && !isListening && !isSpeechSupported
      ensures voiceFeedbackEnabled && voiceError == "" && recognition.None? && spokenMessage == ""
      ensures resetTimer.None? && pendingTimers == {}
      ensures submitted == [] && recognizerCalls == [] && speechCalls == []
    {
      command := "";
      placeholderIndex := 0;
      isListening := false;
      isSpeechSupported := false;
      voiceFeedbackEnabled := true;
      voiceError := "";
      recognition := None;
      spokenMessage := "";
      resetTimer := None;
      pendingTimers := {};
      nextTimer := 1;
      submitted := [];
      recognizerCalls := [];
      speechCalls := [];
    }

    /** The textarea's placeholder. */
    function Placeholder(): (r: string)
      requires Valid()
      reads this
      ensures r in SampleCommands
    {
      SampleCommands[placeholderIndex]
    }

    /** The textarea's `onChange`. */
    method Edit(text: string)
      modifies this`command
      ensures command == text
    {
      command := text;
    }

    /** `handleSubmit`: text that trims to nothing is ignored; otherwise the trimmed text is
        submitted once and the box is emptied. */
    method HandleSubmit()
      requires Valid()
      modifies this`command, this`submitted
      ensures Valid()
      ensures Strip(old(command), IsJsSpace) == [] ==> command == old(command) && submitted == old(submitted)
      ensures Strip(old(command), IsJsSpace) != [] ==>
        command == "" && submitted == old(submitted) + [Strip(old(command), IsJsSpace)]
    {
      var trimmed := Strip(command, IsJsSpace);
      if trimmed == [] {
        return;
      }
      submitted := submitted + [trimmed];
      command := "";
    }

    /** "Ver ejemplo": the next sample, wrapping round. */
    method CyclePlaceholder()
      requires Valid()
      modifies this`placeholderIndex
      ensures Valid()
      ensures placeholderIndex == (old(placeholderIndex) + 1) % |SampleCommands|
    {
      placeholderIndex := (placeholderIndex + 1) % |SampleCommands|;
    }

    method ToggleVoiceFeedback()
      modifies this`voiceFeedbackEnabled
      ensures voiceFeedbackEnabled == !old(voiceFeedbackEnabled)
    {
      voiceFeedbackEnabled := !voiceFeedbackEnabled;
    }

    /** `stopRecognition`: stops the recognizer if there is one (an exception from the native
        `stop()` is swallowed, so it changes nothing), and clears `isListening` unless told
        not to. */
    method StopRecognition(skipStateUpdate: bool)
      modifies this`recognizerCalls, this`isListening
      ensures recognizerCalls == old(recognizerCalls) + (if old(recognition).Some? then [Stop] else [])
      ensures isListening == (if skipStateUpdate then old(isListening) else false)
    {
      if recognition.Some? {
        recognizerCalls := recognizerCalls + [Stop];
      }
      if !skipStateUpdate {
        isListening := false;
      }
    }

    /** `startRecognition`: without a recognizer, nothing; otherwise the error is cleared and
        the native `start()` is called. It does not look at `isListening`. `startThrows` says
        whether the native call throws, as it does when the session is already running. */
    method StartRecognition(startThrows: bool)
      modifies this`recognizerCalls, this`isListening, this`voiceError
      ensures old(recognition).None? ==> unchanged(this)
      ensures old(recognition).Some? ==>
        && recognizerCalls == old(recognizerCalls) + [Start]
        && isListening == !startThrows
        && voiceError == (if startThrows then StartFailed else "")
    {
      if recognition.None? {
        return;
      }
      voiceError := "";
      recognizerCalls := recognizerCalls + [Start];
      if !startThrows {
        isListening := true;
      } else {
        voiceError := StartFailed;
        isListening := false;
      }
    }

    /** The microphone button: nothing without speech support; otherwise stop when
        listening and start when not. */
    method ToggleListening(startThrows: bool)
      modifies this`recognizerCalls, this`isListening, this`voiceError
      ensures !old(isSpeechSupported) ==> unchanged(this)
      ensures old(isSpeechSupported) && old(isListening) ==>
        && recognizerCalls == old(recognizerCalls) + (if old(recognition).Some? then [Stop] else [])
        && !isListening && voiceError == old(voiceError)
      ensures old(isSpeechSupported) && !old(isListening) && old(recognition).None? ==> unchanged(this)
      ensures old(isSpeechSupported) && !old(isListening) && old(recognition).Some? ==>
        && recognizerCalls == old(recognizerCalls) + [Start]
        && isListening == !startThrows
        && voiceError == (if startThrows then StartFailed else "")
    {
      if !isSpeechSupported {
        return;
      }
      if isListening {
        StopRecognition(false);
      } else {
        StartRecognition(startThrows);
      }
    }

    /** The recognition effect's set-up: without a recognition service speech is marked
        unsupported; otherwise a Spanish, final-results-only, single-alternative recognizer
        is stored and speech is marked supported. Its callbacks are `OnResult`, `OnError`
        and `OnEnd`. */
    method SetUpRecognition(serviceAvailable: bool)
      modifies this`recognition, this`isSpeechSupported
      ensures !serviceAvailable ==> !isSpeechSupported && recognition == old(recognition)
      ensures serviceAvailable ==> isSpeechSupported && recognition == Some(Recognizer(SpeechLang, false, 1))
    {
      if !serviceAvailable {
        isSpeechSupported := false;
        return;
      }
      recognition := Some(Recognizer(SpeechLang, false, 1));
      isSpeechSupported := true;
    }

    /** The recognition effect's clean-up: stop without touching `isListening`, then drop the
        recognizer. */
    method TearDownRecognition()
      modifies this`recognizerCalls, this`recognition, this`isListening
      ensures recognizerCalls == old(recognizerCalls) + (if old(recognition).Some? then [Stop] else [])
      ensures recognition.None? && isListening == old(isListening)
    {
      StopRecognition(true);
      recognition := None;
    }

    /** The unmount effect's clean-up: the clear-timer the ref holds is cancelled. */
    method TearDownTimer()
      requires Valid()
      modifies this`pendingTimers
      ensures Valid()
      ensures pendingTimers == {}
    {
      if resetTimer.Some? {
        pendingTimers := pendingTimers - {resetTimer.value};
      }
    }

    /** `onresult`: a missing or empty transcript changes nothing. Otherwise the transcript
        goes into the box and is submitted as it is, not trimmed, and a new clear-timer
        replaces the pending one. */
    method OnResult(transcript: Option<string>)
      requires Valid()
      modifies this`command, this`submitted, this`resetTimer, this`pendingTimers, this`nextTimer
      ensures Valid()
      ensures transcript.None? || transcript.value == "" ==> unchanged(this)
      ensures transcript.Some? && transcript.value != "" ==>
        && command == transcript.value
        && submitted == old(submitted) + [transcript.value]
        && resetTimer.Some? && resetTimer.value !in old(pendingTimers)
        && pendingTimers == {resetTimer.value}
    {
      if transcript.None? || transcript.value == "" {
        return;
      }
      command := transcript.value;
      submitted := submitted + [transcript.value];
      if resetTimer.Some? {
        pendingTimers := pendingTimers - {resetTimer.value};
      }
      var handle := nextTimer;
      nextTimer := nextTimer + 1;
      resetTimer := Some(handle);
      pendingTimers := pendingTimers + {handle};
    }

    /** A pending clear-timer fires: the box is emptied. */
    method FireTimer(handle: nat)
      requires Valid() && handle in pendingTimers
      modifies this`command, this`pendingTimers
      ensures Valid()
      ensures command == "" && pendingTimers == old(pendingTimers) - {handle}
    {
      pendingTimers := pendingTimers - {handle};
      command := "";
    }

    /** `onerror` */
    method OnError()
      modifies this`voiceError, this`isListening
      ensures voiceError == RecognitionFailed && !isListening
    {
      voiceError := RecognitionFailed;
      isListening := false;
    }

    /** `onend` */
    method OnEnd()
      modifies this`isListening
      ensures !isListening
    {
      isListening := false;
    }

    /** The voice-feedback effect, run with the current result's `message` (absent when
        there is no result or it has none). Disabled: cancel any speech (when the service
        exists) and forget the last message. Enabled: a message that is empty or was the
        last one spoken is not spoken again; a new one interrupts whatever is being said,
        is spoken once in Spanish, and is remembered. */
    method FeedbackEffect(message: Option<string>, synthesisAvailable: bool)
      modifies this`speechCalls, this`spokenMessage
      ensures !voiceFeedbackEnabled ==>
        && speechCalls == old(speechCalls) + (if synthesisAvailable then [Cancel] else [])
        && spokenMessage == ""
      ensures voiceFeedbackEnabled && (message.None? || message.value == "" || message.value == old(spokenMessage) || !synthesisAvailable) ==>
        unchanged(this)
      ensures voiceFeedbackEnabled && message.Some? && message.value != "" && message.value != old(spokenMessage) && synthesisAvailable ==>
        && speechCalls == old(speechCalls) + [Cancel, Speak(message.value, SpeechLang)]
        && spokenMessage == message.value
    {
      if !voiceFeedbackEnabled {
        if synthesisAvailable {
          speechCalls := speechCalls + [Cancel];
        }
        spokenMessage := "";
        return;
      }
      if message.None? || message.value == "" || message.value == spokenMessage {
        return;
      }
      if !synthesisAvailable {
        return;
      }
      speechCalls := speechCalls + [Cancel, Speak(message.value, SpeechLang)];
      spokenMessage := message.value;
    }
  }

  /** The same result seen twice by the feedback effect is spoken once. */
  method SameResultSpokenOnce(p: Panel, message: string)
    requires p.voiceFeedbackEnabled && message != "" && message != p.spokenMessage
    modifies p
    ensures p.speechCalls == old(p.speechCalls) + [Cancel, Speak(message, SpeechLang)]
  {
    p.FeedbackEffect(Some(message), true);
    p.FeedbackEffect(Some(message), true);
  }

  /** Turning voice feedback off and on again makes the current result be spoken again. */
  method DisableThenEnableSpeaksAgain(p: Panel, message: string)
    requires p.voiceFeedbackEnabled && message != "" && p.spokenMessage == message
    modifies p
    ensures p.voiceFeedbackEnabled
    ensures p.speechCalls == old(p.speechCalls) + [Cancel, Cancel, Speak(message, SpeechLang)]
  {
    p.ToggleVoiceFeedback();
    p.FeedbackEffect(Some(message), true);
    p.ToggleVoiceFeedback();
    p.FeedbackEffect(Some(message), true);
  }

  /** Two transcripts in quick succession: the first clear-timer is replaced, so only the
      second can fire, and once it has the box is empty and both transcripts were submitted
      as they were heard. */
  method TwoTranscripts(p: Panel, first: string, second: string)
    requires p.Valid() && first != "" && second != ""
    modifies p
    ensures p.Valid()
    ensures p.submitted == old(p.submitted) + [first, second]
    ensures p.command == "" && p.pendingTimers == {}
  {
    p.OnResult(Some(first));
    p.OnResult(Some(second));
    assert |p.pendingTimers| == 1;
    p.FireTimer(p.resetTimer.value);
  }
}
