# AI Voice Cloner UI — a Dafny model

The voice cloner UI is a single-page React demo. The user picks a voice sample
(by browsing or by drag-and-drop) and types a prompt. Submitting starts a
simulated generation. A fixed 4-second timer stands in for a voice-synthesis
backend and always yields the same sample audio URL. A result area shows a
loader, an error banner, an audio player, or nothing.

This project models that behaviour as pure functions on immutable records,
one module per component:

- `Js` (`js.dfy`): the JavaScript semantics the components use. This covers
  `null`-able values and their truthiness, `startsWith`, and `trim` with the
  ECMA-262 whitespace and line-terminator set.
- `Uploader` (`uploader.dfy`): the browse and drop filters of the audio
  uploader, and its "file ready" / upload-prompt view.
- `Results` (`results.dfy`): the result area's precedence function, the five
  loader messages, and the loader's saturating message index.
- `Controller` (`controller.dfy`): the root controller's state record, its four
  handlers (choose file, edit text, submit, timer callback), and the button's
  disabled condition.
- `Page` (`page.dfy`): these pieces wired together as a user drives them.
  Disabled controls swallow their input. At most one generation timer is
  pending. The loader is mounted afresh each time loading starts.

Timers are abstract inputs (`GenerationTimer`, `LoaderTimer`) that fire only
while armed. Each handler is one atomic transition.

Two details of the code shape what is proved:

- The submit handler and the button test the text differently. The handler
  rejects only an empty text, `!text` (App.tsx:22). The button is disabled when
  the trimmed text is empty, `!text.trim()` (App.tsx:43). So a whitespace-only
  text passes the handler's check. `Controller.WhitespaceOnlyTextPassesValidation`
  proves this for every such text. `Controller.PassesValidation` shows that the
  button is the stricter of the two.
- A rejected submission sets the error and leaves an earlier result URL in
  place (App.tsx:23-24). So the handlers alone can leave both an error and a
  URL set: `Controller.HandlersAloneAllowErrorWithUrl` gives the event sequence.
  On the page, though, the form can only be submitted through its button
  (App.tsx:79-81), and the button is disabled unless the check would pass. So
  on every page reachable through the controls, at most one of the two is set
  (`Page.ReachableOutcomesExclusive`). The same proof shows that, through the
  controls, the error banner is never shown.

## Model

| member | source | states |
|---|---|---|
| Js.StartsWith | components/AudioUploader.tsx:28 | `startsWith` holds exactly when the prefix fits in the string and agrees with it character by character |
| Js.StartsWithAppend | components/AudioUploader.tsx:28 | any string formed as prefix + rest starts with that prefix |
| Js.SkipLeading | App.tsx:43 | the leading scan stops at the first non-whitespace character (or the end), passing only whitespace |
| Js.SkipTrailing | App.tsx:43 | the trailing scan stops after the last non-whitespace character above its lower bound, passing only whitespace |
| Js.TrimBounds | App.tsx:43 | `trim()` cuts at two points: only whitespace lies outside them, and a non-empty kept part has non-whitespace at both ends |
| Js.Trim | App.tsx:43 | `text.trim()` is empty if and only if every character of the text is whitespace, and a non-empty result has non-whitespace at both ends |
| Js.TrimIdempotent | App.tsx:43 | trimming an already trimmed string changes nothing |
| Js.TrimNonEmptyImpliesNonEmpty | App.tsx:22-43 | a text with a non-empty trim is itself non-empty |
| Js.WhitespaceOnlyTrimsToEmpty | App.tsx:43 | a string of spaces is non-empty but trims to the empty string |
| Uploader.OnBrowse | components/AudioUploader.tsx:13-18 | a browse selection hands up the first file whenever the list has one, with no type check, and nothing otherwise |
| Uploader.OnDrop | components/AudioUploader.tsx:24-31 | a drop hands up the first file if and only if the list has one and its MIME type starts with "audio/" |
| Uploader.Display | components/AudioUploader.tsx:46-60 | the "file ready" view with the file's name is shown if and only if a file is held; otherwise the upload prompt |
| Uploader.DropRefinesBrowse | components/AudioUploader.tsx:13-31 | a drop accepts only what a browse would; the two agree on an audio first file, and a drop rejects a non-audio one |
| Uploader.EmptyListHandsUpNothing | components/AudioUploader.tsx:14-28 | an empty or missing file list hands up nothing, by browse or by drop |
| Uploader.OnlyFirstFileMatters | components/AudioUploader.tsx:14-28 | files after the first never change what either gesture hands up |
| Uploader.AudioSubtypeAccepted | components/AudioUploader.tsx:27-30 | a dropped file whose type is "audio/" followed by any subtype is handed up |
| Results.Render | components/ResultDisplay.tsx:43-69 | loading shows the loader; otherwise a truthy error shows the banner; otherwise a truthy URL shows the player; otherwise nothing is shown |
| Results.RenderInverse | components/ResultDisplay.tsx:43-69 | each view corresponds to exactly one region of the 2×2×2 input space, and a banner or player never carries an empty string |
| Results.UrlHiddenByLoaderOrError | components/ResultDisplay.tsx:44-54 | while loading, or while a truthy error is set, the URL has no effect on what is shown |
| Results.Advance | components/ResultDisplay.tsx:22-29 | a loader tick raises the index by exactly one while it is below the last index, never lowers it, and never leaves the list |
| Results.Message | components/ResultDisplay.tsx:11-37 | the shown message is one of the five loading messages, and it is the last one exactly at the last index |
| Results.AdvanceFromStart | components/ResultDisplay.tsx:20-29 | after n ticks from a fresh mount the index is min(n, 4), with no wrap-around |
| Results.AdvanceTimesSaturates | components/ResultDisplay.tsx:22-29 | from any index in range, n ticks land on min(index + n, 4) |
| Results.AdvanceMonotone | components/ResultDisplay.tsx:20-29 | more ticks never move the index backwards, and it stays at most 4 |
| Results.LastMessageIsFixed | components/ResultDisplay.tsx:23 | once at the last message, the loader stays there |
| Controller.OnSelectFile | App.tsx:14-18 | choosing a file stores it, clears the result URL and the error, and leaves text and loading unchanged |
| Controller.OnEditText | App.tsx:71 | editing replaces the text and leaves everything else unchanged |
| Controller.OnSubmit | App.tsx:20-30 | with no file or empty text, only the error is set to the validation message; otherwise the error and URL are cleared, loading starts, and file and text are kept |
| Controller.OnTimerFires | App.tsx:35-40 | the callback sets the fixed sample URL and ends loading, leaving file, text and error unchanged |
| Controller.PassesValidation | App.tsx:22 | the submit check passes if and only if a file is held and the text is non-empty, and it passes whenever the button is enabled |
| Controller.IsButtonDisabled | App.tsx:43 | the button is disabled if and only if there is no file, the text is all whitespace (or empty), or loading is on |
| Controller.EnabledButtonPassesValidation | App.tsx:22-43 | whenever the button is enabled, submitting takes the valid branch |
| Controller.WhitespaceOnlyTextPassesValidation | App.tsx:22-43 | with a file, every non-empty whitespace-only text passes the submit check and starts loading, although the button is disabled |
| Controller.SubmitThenTimer | App.tsx:27-40 | a valid submit followed by the callback leaves exactly the URL set, with no error, loading off, file and text kept, and the player shown |
| Controller.RepeatIsIdempotent | App.tsx:14-24 | choosing the same file twice equals choosing it once; a rejected submit repeated equals one rejected submit |
| Controller.HandlersAloneAllowErrorWithUrl | App.tsx:14-40 | the handlers alone can reach a state with both the validation error and the result URL set |
| Page.Dispatch | App.tsx:20-40 | a valid submit arms one more generation timer and a firing consumes one; the loader is mounted afresh at the first message when loading starts, kept while loading lasts, and unmounted when it ends |
| Page.Next | App.tsx:64-81 | typing is ignored while loading (the textarea is disabled), a click is ignored while the button is disabled and otherwise runs the submit handler, the uploader is never disabled so any file it hands up reaches the file handler, and a timer acts only when armed |
| Page.NextKeepsInvariant | App.tsx:14-81 | every input through the controls keeps the page invariant: at most one pending timer, exactly while loading; no error; no URL while loading; loader mounted exactly while loading, at an index in range |
| Page.RunKeepsInvariant | App.tsx:14-81 | the invariant survives any sequence of inputs |
| Page.ReachableOutcomesExclusive | App.tsx:20-43 | on every page reachable through the controls, error and URL are never both set, neither is set while loading, the banner is never shown, and the loader index stays in range |
| Page.RejectedDropChangesNothing | components/AudioUploader.tsx:24-31 | dropping an empty list or a non-audio file leaves the page unchanged |
| Page.AudioDropActsAsBrowse | components/AudioUploader.tsx:13-31 | dropping an audio file has exactly the effect of browsing to it |
| Page.NewFileClearsOutcome | App.tsx:14-18 | choosing a new file stores it, clears a shown result or error, and keeps the text; an audio drop has the same effect as the browse |
| Page.LoaderTicksAdvance | components/ResultDisplay.tsx:22-29 | while the loader is mounted, n ticks advance only its index, by the saturating rule |
| Page.ClickStartsGeneration | App.tsx:27-29 | a click on an enabled button starts loading, arms one timer, and mounts the loader at the first message |
| Page.TimerEndsGeneration | App.tsx:35-40 | the generation timer firing while loading unmounts the loader, clears the pending timer, and shows the player on the sample URL with file and text kept |
| Page.GenerationFlow | App.tsx:27-40 | after an enabled click and n loader ticks, the loader shows message min(n, 4); the timer then unmounts it, and the player plays the sample URL with file and text kept |

## Left out

- components/IconComponents.tsx is not part of this model. It holds static SVG glyphs with no logic.
- Markup and styling are not modelled. This covers the header and footer text, the footer's current year, the size and format hint, and the CSS truncation of long file names.
- Real time is not modelled. The 4000 ms and 800 ms delays become the abstract `GenerationTimer` and `LoaderTimer` inputs. So loader ticks and the generation timer may interleave in any order, while in the browser at most four ticks precede the timer.
- React's scheduling and batching of state updates are not modelled. Each handler is one atomic transition.
- A `File` is reduced to its name and MIME type. The picker's `accept="audio/*"` attribute is only a hint and is not modelled.
- The browser plumbing is left out: `inputRef.click()`, the drag-over handler, and `preventDefault`/`stopPropagation`. Each only suppresses default browser behaviour.
- Audio playback is not modelled. The result URL is an opaque constant string.
- Strings are sequences of Unicode scalar values, not UTF-16 code units. Every character `trim` removes is in the Basic Multilingual Plane, so trimming agrees. Strings holding lone surrogates cannot be written.
- Js.Trim: its own contract does not say which slice of the input it keeps. That is stated by `Js.TrimBounds`, whose cut it takes.
