/**
 * clearmind/src/services/ttsService.js: the rate gate in front of the remote
 * text-to-speech call, the browser speech fallback, and stopping speech.
 *
 * The module-level `lastTTSCall` and the speaking flag the callers pass a
 * setter for are fields of `TtsGate`; the clock is the `now` parameter, and
 * whether the remote fetch and playback succeed is passed in. The ghost
 * `remoteCalls` keeps the times at which the remote service was used.
 */
module Tts {
  import opened Common

  const RateLimitMs := 3000

  /** `!(now - lastTTSCall < TTS_RATE_LIMIT_MS)`: the gate lets a remote call through. */
  predicate GateOpen(now: int, lastCall: int)
  {
    now - lastCall >= RateLimitMs
  }

  /** Every two consecutive remote calls, and the first one and time 0, are at least the window apart. */
  ghost predicate Spaced(times: seq<int>)
  {
    (times != [] ==> times[0] >= RateLimitMs)
    && forall i :: 0 < i < |times| ==> times[i] - times[i - 1] >= RateLimitMs
  }

  class TtsGate {
    var lastCall: int
    var speaking: bool
    /** `'speechSynthesis' in window`. */
    const synthesisAvailable: bool
    /** The utterance the browser is speaking, if any. */
    var current: Option<string>
    ghost var remoteCalls: seq<int>

    ghost predicate Valid()
      reads this
    {
      Spaced(remoteCalls) && lastCall == (if remoteCalls == [] then 0 else remoteCalls[|remoteCalls| - 1])
    }

    constructor (synthesisAvailable: bool)
      ensures Valid() && lastCall == 0 && !speaking && current.None? && remoteCalls == []
      ensures this.synthesisAvailable == synthesisAvailable
    {
      lastCall := 0;
      speaking := false;
      this.synthesisAvailable := synthesisAvailable;
      current := None;
      remoteCalls := [];
    }

    /** `speakWithBrowserTTS`: without speech synthesis nothing is spoken and speaking is off. */
    method SpeakWithBrowser(text: string)
      modifies this
      ensures synthesisAvailable ==> speaking && current == Some(text)
      ensures !synthesisAvailable ==> !speaking && current == old(current)
      ensures lastCall == old(lastCall) && remoteCalls == old(remoteCalls)
    {
      if !synthesisAvailable {
        speaking := false;
        return;
      }
      speaking := true;
      current := Some(text);   // any ongoing speech is cancelled first
    }

    /**
     * `playTextToSpeech`: inside the window the browser speaks instead and
     * the gate is untouched; otherwise the gate is consumed before the remote
     * call, even when that call then fails and the browser speaks instead.
     */
    method Play(text: string, now: int, remoteSucceeds: bool) returns (usedRemote: bool)
      requires Valid()
      modifies this
      ensures Valid()
      ensures usedRemote <==> GateOpen(now, old(lastCall))
      ensures usedRemote ==> lastCall == now && remoteCalls == old(remoteCalls) + [now]
      ensures !usedRemote ==> lastCall == old(lastCall) && remoteCalls == old(remoteCalls)
      ensures usedRemote && remoteSucceeds ==> speaking && current == old(current)
      ensures !usedRemote || !remoteSucceeds ==>
                if synthesisAvailable then speaking && current == Some(text) else !speaking && current == old(current)
    {
      if !GateOpen(now, lastCall) {
        SpeakWithBrowser(text);
        return false;
      }
      lastCall := now;
      remoteCalls := remoteCalls + [now];
      speaking := true;
      usedRemote := true;
      if !remoteSucceeds {
        SpeakWithBrowser(text);
      }
    }

    /** The remote audio finished playing (`audio.onended`). */
    method PlaybackEnded()
      modifies this
      ensures !speaking
      ensures lastCall == old(lastCall) && current == old(current) && remoteCalls == old(remoteCalls)
    {
      speaking := false;
    }

    /** `stopSpeech`: the browser's speech is cancelled and speaking is always off. */
    method Stop()
      modifies this
      ensures !speaking
      ensures synthesisAvailable ==> current.None?
      ensures !synthesisAvailable ==> current == old(current)
      ensures lastCall == old(lastCall) && remoteCalls == old(remoteCalls)
    {
      if synthesisAvailable {
        current := None;
      }
      speaking := false;
    }
  }

  /** Two remote calls in a row are never less than the window apart, whatever the clock does. */
  lemma {:induction false} RemoteCallsSpaced(times: seq<int>, i: nat, j: nat)
    requires Spaced(times) && i < j < |times|
    ensures times[j] - times[i] >= RateLimitMs * (j - i)
    decreases j - i
  {
    if j > i + 1 {
      RemoteCallsSpaced(times, i, j - 1);
    }
  }
}
