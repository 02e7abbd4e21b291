/**
 The result display: a stateless choice between the loader, the error banner,
 the audio player and nothing, and the loader's own message index, which
 steps forward through a fixed list of status messages and stops at the last.
 */
module Results {
  import opened Js

  /** What the result area renders. */
  datatype View = Loader | ErrorBanner(message: string) | Player(url: string) | Nothing

  /**
   The precedence of the result area: loading outranks an error, an error
   outranks a result URL, and an empty-string error or URL counts as absent.
   */
  function Render(isLoading: bool, error: Option<string>, audioUrl: Option<string>): (v: View)
    ensures isLoading ==> v == Loader
    ensures !isLoading && Truthy(error) ==> v == ErrorBanner(error.value)
    ensures !isLoading && !Truthy(error) && Truthy(audioUrl) ==> v == Player(audioUrl.value)
    ensures !isLoading && !Truthy(error) && !Truthy(audioUrl) ==> v == Nothing
  {
    if isLoading then Loader
    else if Truthy(error) then ErrorBanner(error.value)
    else if Truthy(audioUrl) then Player(audioUrl.value)
    else Nothing
  }

  /** Reading the inputs back from the view: each view is shown for exactly
      one region of the eight loading/error/url combinations, and a banner or
      player never shows an empty string. */
  lemma RenderInverse(isLoading: bool, error: Option<string>, audioUrl: Option<string>)
    ensures Render(isLoading, error, audioUrl) == Loader <==> isLoading
    ensures Render(isLoading, error, audioUrl).ErrorBanner? <==> !isLoading && Truthy(error)
    ensures Render(isLoading, error, audioUrl).Player? <==> !isLoading && !Truthy(error) && Truthy(audioUrl)
    ensures Render(isLoading, error, audioUrl) == Nothing <==> !isLoading && !Truthy(error) && !Truthy(audioUrl)
    ensures Render(isLoading, error, audioUrl).ErrorBanner? ==> Render(isLoading, error, audioUrl).message != ""
    ensures Render(isLoading, error, audioUrl).Player? ==> Render(isLoading, error, audioUrl).url != ""
  {
  }

  /** A URL never changes what is shown while loading or while an error is shown. */
  lemma UrlHiddenByLoaderOrError(isLoading: bool, error: Option<string>, url1: Option<string>, url2: Option<string>)
    requires isLoading || Truthy(error)
    ensures Render(isLoading, error, url1) == Render(isLoading, error, url2)
  {
  }

  /** The status messages the loader steps through, in order. */
  const LoadingMessages: seq<string> := [
    "Analyzing voice characteristics...",
    "Building vocal profile...",
    "Synthesizing speech from text...",
    "Applying intonation and emotion...",
    "Finalizing audio output..."
  ]

  /** The index of the last message, where the loader stops. */
  const LastIndex: nat := |LoadingMessages| - 1

  /** A freshly mounted loader shows the first message. */
  const LoaderStart: nat := 0

  /**
   One firing of the loader's timer: the index moves to the next message, and
   only while it is short of the last one. The timer is not re-armed at the
   last index, so a tick there leaves the index where it is.
   */
  function Advance(i: nat): (j: nat)
    ensures i <= j <= i + 1
    ensures j == i + 1 <==> i < LastIndex
    ensures i <= LastIndex ==> j <= LastIndex
  {
    if i < LastIndex then i + 1 else i
  }

  /** The index after `n` timer firings starting from `i`. */
  function AdvanceTimes(i: nat, n: nat): nat
    decreases n
  {
    if n == 0 then i else AdvanceTimes(Advance(i), n - 1)
  }

  /** The message the loader shows at index `i`. */
  function Message(i: nat): (m: string)
    requires i <= LastIndex
    ensures m in LoadingMessages
    ensures i == LastIndex <==> m == "Finalizing audio output..."
  {
    LoadingMessages[i]
  }

  /** After `n` ticks from a fresh mount the loader is at message `n`, or at
      the last message once `n` reaches it: it never wraps round. */
  lemma {:induction false} AdvanceFromStart(n: nat)
    ensures AdvanceTimes(LoaderStart, n) == if n < LastIndex then n else LastIndex
  {
    AdvanceTimesSaturates(LoaderStart, n);
  }

  /** The general form: from index `i`, `n` ticks land on `min(i + n, LastIndex)`. */
  lemma {:induction false} AdvanceTimesSaturates(i: nat, n: nat)
    requires i <= LastIndex
    decreases n
    ensures AdvanceTimes(i, n) == if i + n < LastIndex then i + n else LastIndex
  {
    if n > 0 {
      AdvanceTimesSaturates(Advance(i), n - 1);
    }
  }

  /** More ticks never move the loader backwards, and it never leaves the list. */
  lemma AdvanceMonotone(m: nat, n: nat)
    requires m <= n
    ensures AdvanceTimes(LoaderStart, m) <= AdvanceTimes(LoaderStart, n) <= LastIndex
  {
    AdvanceFromStart(m);
    AdvanceFromStart(n);
  }

  /** Once at the last message, the loader stays there however many ticks follow. */
  lemma LastMessageIsFixed(n: nat)
    ensures AdvanceTimes(LastIndex, n) == LastIndex
  {
    AdvanceTimesSaturates(LastIndex, n);
  }
}
