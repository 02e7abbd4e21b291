/**
 The page as a user drives it: the uploader wired to the controller's file
 handler, the textarea and submit button with their `disabled` conditions,
 the one pending generation timer, and the loader that is mounted while a
 generation runs. Inputs a disabled control would swallow leave the page as
 it is; the form has no other submit control, so the submit handler only
 ever runs from an enabled button.
 */
module Page {
  import opened Js
  import opened Uploader
  import opened Controller
  import Results

  /** What can happen to the page: the two uploader gestures, typing, a click
      on the submit button, and the two timers firing. */
  datatype Input =
    | Browse(files: Option<seq<File>>)
    | Drop(files: Option<seq<File>>)
    | Type(text: string)
    | ClickSubmit
    | GenerationTimer
    | LoaderTimer

  /** The controller's state, the number of generation timers still pending,
      and the loader's message index while the loader is mounted. */
  datatype PageState = PageState(app: State, pendingTimers: nat, loader: Option<nat>)

  const Start: PageState := PageState(Initial, 0, None)

  /**
   Runs one controller event and keeps the rest of the page in step: a valid
   submission schedules a timer, a firing consumes one, and the loader is
   mounted afresh at its first message when loading starts and unmounted when
   it ends.
   */
  function Dispatch(p: PageState, e: Event): (r: PageState)
    ensures r.app == Step(p.app, e)
    ensures e.Submit? && PassesValidation(p.app) ==> r.pendingTimers == p.pendingTimers + 1
    ensures e.TimerFires? && p.pendingTimers > 0 ==> r.pendingTimers == p.pendingTimers - 1
    ensures !(e.Submit? && PassesValidation(p.app)) && !e.TimerFires? ==> r.pendingTimers == p.pendingTimers
    ensures !r.app.isLoading ==> r.loader == None
    ensures !p.app.isLoading && r.app.isLoading ==> r.loader == Some(Results.LoaderStart)
    ensures p.app.isLoading && r.app.isLoading ==> r.loader == p.loader
  {
    var app := Step(p.app, e);
    var pending :=
      if e.Submit? && PassesValidation(p.app) then p.pendingTimers + 1
      else if e.TimerFires? && p.pendingTimers > 0 then p.pendingTimers - 1
      else p.pendingTimers;
    var loader :=
      if !app.isLoading then None
      else if !p.app.isLoading then Some(Results.LoaderStart)
      else p.loader;
    PageState(app, pending, loader)
  }

  /** A file the uploader hands up goes to the file handler; nothing else happens otherwise. */
  function Deliver(p: PageState, picked: Option<File>): PageState {
    match picked
    case None => p
    case Some(f) => Dispatch(p, SelectFile(f))
  }

  /**
   One input, with the page's guards: the textarea is disabled while loading,
   the button while `IsButtonDisabled`, and a timer fires only when armed. The
   uploader is never disabled: a file it hands up always reaches the file
   handler, even while loading.
   */
  function Next(p: PageState, i: Input): (r: PageState)
    ensures i.Browse? && OnBrowse(i.files).Some? ==> r.app == OnSelectFile(p.app, OnBrowse(i.files).value)
    ensures i.Browse? && OnBrowse(i.files).None? ==> r == p
    ensures i.Drop? && OnDrop(i.files).Some? ==> r.app == OnSelectFile(p.app, OnDrop(i.files).value)
    ensures i.Drop? && OnDrop(i.files).None? ==> r == p
    ensures i.Type? && p.app.isLoading ==> r == p
    ensures i.Type? && !p.app.isLoading ==> r.app == OnEditText(p.app, i.text)
    ensures i.ClickSubmit? && IsButtonDisabled(p.app) ==> r == p
    ensures i.ClickSubmit? && !IsButtonDisabled(p.app) ==> r.app == OnSubmit(p.app)
    ensures i.GenerationTimer? && p.pendingTimers == 0 ==> r == p
    ensures i.GenerationTimer? && p.pendingTimers > 0 ==> r.app == OnTimerFires(p.app)
    ensures i.LoaderTimer? ==> r.app == p.app && r.pendingTimers == p.pendingTimers
  {
    match i
    case Browse(files) => Deliver(p, OnBrowse(files))
    case Drop(files) => Deliver(p, OnDrop(files))
    case Type(text) => if p.app.isLoading then p else Dispatch(p, EditText(text))
    case ClickSubmit => if IsButtonDisabled(p.app) then p else Dispatch(p, Submit)
    case GenerationTimer => if p.pendingTimers == 0 then p else Dispatch(p, TimerFires)
    case LoaderTimer =>
      match p.loader
      case Some(k) => if k < Results.LastIndex then p.(loader := Some(Results.Advance(k))) else p
      case None => p
  }

  function Run(p: PageState, inputs: seq<Input>): PageState
    decreases |inputs|
  {
    if inputs == [] then p else Run(Next(p, inputs[0]), inputs[1..])
  }

  /** What the result area shows for a page. */
  function Shown(p: PageState): Results.View {
    Results.Render(p.app.isLoading, p.app.error, p.app.generatedAudioUrl)
  }

  /**
   What every page reachable through the controls satisfies: at most one
   generation timer is pending and exactly while loading; no error is ever
   set; while loading no result URL is held, and any URL held is the sample
   URL; the loader is mounted exactly while loading, at an index inside the
   message list.
   */
  ghost predicate Invariant(p: PageState) {
    && p.pendingTimers <= 1
    && (p.app.isLoading <==> p.pendingTimers == 1)
    && p.app.error == None
    && (p.app.isLoading ==> p.app.generatedAudioUrl == None)
    && (p.app.generatedAudioUrl == None || p.app.generatedAudioUrl == Some(SampleUrl))
    && (p.loader.Some? <==> p.app.isLoading)
    && (p.loader.Some? ==> p.loader.value <= Results.LastIndex)
  }

  /** Every input keeps the invariant. */
  lemma NextKeepsInvariant(p: PageState, i: Input)
    requires Invariant(p)
    ensures Invariant(Next(p, i))
  {
    if i.ClickSubmit? && !IsButtonDisabled(p.app) {
      EnabledButtonPassesValidation(p.app);
    }
  }

  /** The invariant holds after any sequence of inputs from any page that satisfies it. */
  lemma {:induction false} RunKeepsInvariant(p: PageState, inputs: seq<Input>)
    requires Invariant(p)
    ensures Invariant(Run(p, inputs))
    decreases |inputs|
  {
    if inputs != [] {
      NextKeepsInvariant(p, inputs[0]);
      RunKeepsInvariant(Next(p, inputs[0]), inputs[1..]);
    }
  }

  /** Through the controls, an error and a result URL are never both set, and
      while loading neither is; the result area shows the loader, the player
      on the sample URL, or nothing — never the error banner — and the loader's
      message is always in range. */
  lemma ReachableOutcomesExclusive(inputs: seq<Input>)
    ensures var p := Run(Start, inputs);
            && !(p.app.error.Some? && p.app.generatedAudioUrl.Some?)
            && (p.app.isLoading ==> p.app.error == None && p.app.generatedAudioUrl == None)
            && (Shown(p) == Results.Loader || Shown(p) == Results.Player(SampleUrl) || Shown(p) == Results.Nothing)
            && (p.loader.Some? ==> p.loader.value < |Results.LoadingMessages|)
  {
    RunKeepsInvariant(Start, inputs);
  }

  /** Dropping a file that is not audio, or an empty list, changes nothing on the page. */
  lemma RejectedDropChangesNothing(p: PageState, files: Option<seq<File>>)
    requires files.None? || |files.value| == 0 || !IsAudio(files.value[0])
    ensures Next(p, Drop(files)) == p
  {
  }

  /** Dropping an audio file has exactly the effect of browsing to it. */
  lemma AudioDropActsAsBrowse(p: PageState, files: Option<seq<File>>)
    requires files.Some? && |files.value| > 0 && IsAudio(files.value[0])
    ensures Next(p, Drop(files)) == Next(p, Browse(files))
  {
  }

  /** Choosing a new file clears a shown result or error and keeps the text;
      a drop of an audio file does the same as the browse. */
  lemma NewFileClearsOutcome(p: PageState, files: Option<seq<File>>)
    requires files.Some? && |files.value| > 0
    ensures IsAudio(files.value[0]) ==> Next(p, Drop(files)) == Next(p, Browse(files))
    ensures Next(p, Browse(files)).app.audioFile == Some(files.value[0])
    ensures Next(p, Browse(files)).app.error == None && Next(p, Browse(files)).app.generatedAudioUrl == None
    ensures Next(p, Browse(files)).app.text == p.app.text
  {
  }

  /** `n` loader ticks in a row. */
  function LoaderTicks(n: nat): (ticks: seq<Input>)
    ensures |ticks| == n
    ensures forall k :: 0 <= k < n ==> ticks[k] == LoaderTimer
  {
    if n == 0 then [] else [LoaderTimer] + LoaderTicks(n - 1)
  }

  /** While the loader is mounted, `n` ticks move it `n` messages on, stopping
      at the last; the rest of the page is untouched. */
  lemma {:induction false} LoaderTicksAdvance(p: PageState, n: nat)
    requires p.loader.Some?
    ensures Run(p, LoaderTicks(n)) == p.(loader := Some(Results.AdvanceTimes(p.loader.value, n)))
    decreases n
  {
    if n > 0 {
      var k := p.loader.value;
      var q := p.(loader := Some(Results.Advance(k)));
      assert Next(p, LoaderTimer) == q;
      assert LoaderTicks(n)[1..] == LoaderTicks(n - 1);
      LoaderTicksAdvance(q, n - 1);
    }
  }

  /** A click on an enabled button starts loading, arms the one generation
      timer and mounts the loader at its first message. */
  lemma ClickStartsGeneration(p: PageState)
    requires Invariant(p) && !IsButtonDisabled(p.app)
    ensures Next(p, ClickSubmit)
         == PageState(p.app.(error := None, generatedAudioUrl := None, isLoading := true), 1, Some(Results.LoaderStart))
  {
    EnabledButtonPassesValidation(p.app);
  }

  /** The generation timer firing while loading ends the generation: the
      loader is unmounted and the player plays the sample URL; file and text stay. */
  lemma TimerEndsGeneration(q: PageState)
    requires q.app.isLoading && q.pendingTimers == 1 && q.app.error == None
    ensures Shown(Next(q, GenerationTimer)) == Results.Player(SampleUrl)
    ensures Next(q, GenerationTimer).loader == None && Next(q, GenerationTimer).pendingTimers == 0
    ensures Next(q, GenerationTimer).app.audioFile == q.app.audioFile
    ensures Next(q, GenerationTimer).app.text == q.app.text
  {
    assert Next(q, GenerationTimer).app == q.app.(generatedAudioUrl := Some(SampleUrl), isLoading := false);
  }

  /**
   A click on an enabled button starts a fresh loader at the first message;
   after `n` loader ticks it shows message `min(n, 4)`; when the generation
   timer then fires, the loader is gone and the player plays the sample URL.
   */
  lemma GenerationFlow(p: PageState, n: nat)
    requires Invariant(p) && !IsButtonDisabled(p.app)
    ensures var q := Run(Next(p, ClickSubmit), LoaderTicks(n));
            && q.app.isLoading && Shown(q) == Results.Loader
            && q.loader == Some(if n < Results.LastIndex then n else Results.LastIndex)
            && Shown(Next(q, GenerationTimer)) == Results.Player(SampleUrl)
            && Next(q, GenerationTimer).loader == None
            && Next(q, GenerationTimer).app.audioFile == p.app.audioFile
            && Next(q, GenerationTimer).app.text == p.app.text
  {
    ClickStartsGeneration(p);
    var started := Next(p, ClickSubmit);
    LoaderTicksAdvance(started, n);
    Results.AdvanceFromStart(n);
    TimerEndsGeneration(Run(started, LoaderTicks(n)));
  }
}
