/**
 The root controller of the page: the five pieces of state it owns and the
 four handlers that change them — choosing a file, editing the prompt text,
 submitting the form, and the deferred callback that stands in for a voice
 synthesis backend — together with the derived "submit disabled" condition.
 Each handler is one atomic transition on an immutable state record.
 */
module Controller {
  import opened Js
  import opened Uploader
  import Results

  datatype State = State(
    audioFile: Option<File>,
    text: string,
    isLoading: bool,
    error: Option<string>,
    generatedAudioUrl: Option<string>)

  datatype Event = SelectFile(file: File) | EditText(text: string) | Submit | TimerFires

  /** The state on first render: nothing chosen, nothing typed, nothing shown. */
  const Initial: State := State(None, "", false, None, None)

  /** The one error the controller ever reports. */
  const ValidationMessage: string := "Please provide both an audio file and a text prompt."

  /** The fixed audio location the simulated generation always yields. */
  const SampleUrl: string := "https://www.soundhelix.com/examples/mp3/SoundHelix-Song-1.mp3"

  /** The submit handler's guard `!audioFile || !text`, negated: a file is held
      and the text is not the empty string. The text is not trimmed here, so
      this is the weaker of the two checks: an enabled button implies it. */
  function PassesValidation(s: State): (ok: bool)
    ensures ok <==> s.audioFile.Some? && |s.text| > 0
    ensures !IsButtonDisabled(s) ==> ok
  {
    s.audioFile.Some? && s.text != ""
  }

  /** `!audioFile || !text.trim() || isLoading`, the disabled state of the submit
      button: no file, a text of whitespace only (or empty), or a generation running. */
  function IsButtonDisabled(s: State): (disabled: bool)
    ensures disabled <==> s.audioFile.None? || AllWhitespace(s.text) || s.isLoading
  {
    s.audioFile.None? || Trim(s.text) == "" || s.isLoading
  }

  /** A new sample replaces the old one and invalidates any earlier result or error. */
  function OnSelectFile(s: State, f: File): (t: State)
    ensures t.audioFile == Some(f)
    ensures t.generatedAudioUrl == None && t.error == None
    ensures t.text == s.text && t.isLoading == s.isLoading
  {
    s.(audioFile := Some(f), generatedAudioUrl := None, error := None)
  }

  /** Typing replaces the text and nothing else; nothing is validated yet. */
  function OnEditText(s: State, text: string): (t: State)
    ensures t.text == text
    ensures t.audioFile == s.audioFile && t.isLoading == s.isLoading
    ensures t.error == s.error && t.generatedAudioUrl == s.generatedAudioUrl
  {
    s.(text := text)
  }

  /**
   Submitting: when a file or the text is missing only the validation error is
   set — loading is not entered and an earlier result URL is left in place.
   Otherwise the error and the URL are cleared and loading starts (the
   deferred callback is scheduled at this point; see `TimerFires`).
   */
  function OnSubmit(s: State): (t: State)
    ensures !PassesValidation(s) ==> t == s.(error := Some(ValidationMessage))
    ensures PassesValidation(s) ==>
      && t.isLoading && t.error == None && t.generatedAudioUrl == None
      && t.audioFile == s.audioFile && t.text == s.text
  {
    if s.audioFile.None? || s.text == "" then
      s.(error := Some(ValidationMessage))
    else
      s.(error := None, generatedAudioUrl := None, isLoading := true)
  }

  /** The deferred callback: the fixed result URL appears and loading ends;
      the file, the text and the error are left as they are. */
  function OnTimerFires(s: State): (t: State)
    ensures t.generatedAudioUrl == Some(SampleUrl) && !t.isLoading
    ensures t.audioFile == s.audioFile && t.text == s.text && t.error == s.error
  {
    s.(generatedAudioUrl := Some(SampleUrl), isLoading := false)
  }

  /** Dispatches one event to its handler. */
  function Step(s: State, e: Event): State {
    match e
    case SelectFile(f) => OnSelectFile(s, f)
    case EditText(text) => OnEditText(s, text)
    case Submit => OnSubmit(s)
    case TimerFires => OnTimerFires(s)
  }

  /** Runs the handlers over a sequence of events, in order, with no UI guard in between. */
  function Steps(s: State, events: seq<Event>): State
    decreases |events|
  {
    if events == [] then s else Steps(Step(s, events[0]), events[1..])
  }

  /** An enabled button always leads into the valid branch of the submit
      handler: a non-empty trim implies a non-empty text. */
  lemma EnabledButtonPassesValidation(s: State)
    requires !IsButtonDisabled(s)
    ensures PassesValidation(s)
    ensures OnSubmit(s).isLoading && OnSubmit(s).error == None
  {
  }

  /** The submit handler is weaker than the button: with a file, any non-empty
      text made only of whitespace passes validation although the button is
      disabled. Such text exists: see `WhitespaceOnlyTrimsToEmpty`. */
  lemma WhitespaceOnlyTextPassesValidation(s: State)
    requires s.audioFile.Some? && s.text != "" && AllWhitespace(s.text)
    ensures PassesValidation(s) && IsButtonDisabled(s)
    ensures OnSubmit(s).isLoading
  {
  }

  /** A valid submission followed by its callback leaves exactly the result URL
      set: no error, no loading, file and text kept, and the player shown. */
  lemma SubmitThenTimer(s: State)
    requires PassesValidation(s)
    ensures Steps(s, [Submit, TimerFires]) == s.(error := None, isLoading := false, generatedAudioUrl := Some(SampleUrl))
    ensures Results.Render(Steps(s, [Submit, TimerFires]).isLoading, Steps(s, [Submit, TimerFires]).error,
                           Steps(s, [Submit, TimerFires]).generatedAudioUrl) == Results.Player(SampleUrl)
  {
    assert Steps(s, [Submit, TimerFires]) == OnTimerFires(OnSubmit(s));
  }

  /** Choosing the same file twice is choosing it once; a rejected submission
      repeated is rejected once. */
  lemma RepeatIsIdempotent(s: State, f: File)
    ensures OnSelectFile(OnSelectFile(s, f), f) == OnSelectFile(s, f)
    ensures !PassesValidation(s) ==> OnSubmit(OnSubmit(s)) == OnSubmit(s)
  {
  }

  /** The handlers on their own do not keep an error and a result URL apart:
      after a successful generation, clearing the text and submitting leaves both set. */
  lemma HandlersAloneAllowErrorWithUrl(f: File)
    ensures var s := Steps(Initial, [SelectFile(f), EditText("hi"), Submit, TimerFires, EditText(""), Submit]);
            s.error == Some(ValidationMessage) && s.generatedAudioUrl == Some(SampleUrl)
  {
    var events := [SelectFile(f), EditText("hi"), Submit, TimerFires, EditText(""), Submit];
    var s1 := OnSelectFile(Initial, f);
    var s2 := OnEditText(s1, "hi");
    var s3 := OnSubmit(s2);
    var s4 := OnTimerFires(s3);
    var s5 := OnEditText(s4, "");
    assert Steps(s5, events[5..]) == OnSubmit(s5);
    assert Steps(s4, events[4..]) == Steps(s5, events[5..]);
    assert Steps(s3, events[3..]) == Steps(s4, events[4..]);
    assert Steps(s2, events[2..]) == Steps(s3, events[3..]);
    assert Steps(s1, events[1..]) == Steps(s2, events[2..]);
    assert Steps(Initial, events) == Steps(s1, events[1..]);
  }
}
