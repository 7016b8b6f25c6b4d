/**
 * The transcript buffer of the microphone component: final speech-recognition results are
 * appended to a buffer, which an interval timer (or stopping) flushes, trimmed and only when
 * non-blank, to the `onTranscript` callback. Interval handles are numbered; `live` holds
 * the handles of the intervals not yet cleared.
 */
module MicCapture {
  import opened Wrappers
  import opened Text

  /** One entry of the recognition event's result list: its finality and its first alternative's transcript. */
  datatype SpeechResult = SpeechResult(isFinal: bool, transcript: string)

  /** The final transcripts of `rs`, in order, each followed by a space. */
  function FinalText(rs: seq<SpeechResult>): string {
    if rs == [] then ""
    else
      var last := rs[|rs| - 1];
      FinalText(rs[..|rs| - 1]) + (if last.isFinal then last.transcript + " " else "")
  }

  /** Interim results contribute nothing. */
  lemma {:induction false} FinalTextSkipsInterim(rs: seq<SpeechResult>)
    requires forall i :: 0 <= i < |rs| ==> !rs[i].isFinal
    ensures FinalText(rs) == ""
  {
    if rs != [] {
      FinalTextSkipsInterim(rs[..|rs| - 1]);
    }
  }

  /** The batch is blank exactly when every final transcript in it is blank. */
  lemma {:induction false} FinalTextBlankIff(rs: seq<SpeechResult>)
    ensures IsBlank(FinalText(rs)) <==> forall i :: 0 <= i < |rs| && rs[i].isFinal ==> IsBlank(rs[i].transcript)
  {
    if rs != [] {
      var init, last := rs[..|rs| - 1], rs[|rs| - 1];
      FinalTextBlankIff(init);
      var piece := if last.isFinal then last.transcript + " " else "";
      var a := FinalText(init);
      assert FinalText(rs) == a + piece;
      assert IsBlank(a + piece) <==> IsBlank(a) && IsBlank(piece) by {
        assert forall i :: 0 <= i < |a| ==> (a + piece)[i] == a[i];
        assert forall i :: 0 <= i < |piece| ==> (a + piece)[|a| + i] == piece[i];
      }
      if last.isFinal {
        assert IsBlank(piece) <==> IsBlank(last.transcript) by {
          assert forall i :: 0 <= i < |last.transcript| ==> piece[i] == last.transcript[i];
          assert piece[|last.transcript|] == ' ';
        }
      }
      assert forall i :: 0 <= i < |init| ==> init[i] == rs[i];
    }
  }

  class Transcriber {
    /** Whether an `onTranscript` callback was passed. */
    const hasCallback: bool
    var buffer: string
    var interval: Option<nat>
    var live: set<nat>
    var nextHandle: nat
    /** The chunks handed to `onTranscript`, oldest first. */
    var delivered: seq<string>

    /** At most one interval runs, and it is the one the handle names; every delivered chunk is trimmed and non-blank. */
    ghost predicate Valid()
      reads this
    {
      && live == (if interval.Some? then {interval.value} else {})
      && (forall h :: h in live ==> h < nextHandle)
      && (forall i :: 0 <= i < |delivered| ==> !IsBlank(delivered[i]) && Trim(delivered[i]) == delivered[i])
    }

    constructor(hasCallback: bool)
      ensures Valid()
      ensures this.hasCallback == hasCallback && buffer == "" && interval == None && delivered == []
    {
      this.hasCallback := hasCallback;
      buffer := "";
      interval := None;
      live := {};
      nextHandle := 1;
      delivered := [];
    }

    /** `rec.onresult`: appends the final results from `resultIndex` on, unless they are only white space. */
    method OnResult(results: seq<SpeechResult>, resultIndex: nat)
      requires Valid()
      modifies this
      ensures Valid()
      ensures var finalText := FinalText(results[if resultIndex < |results| then resultIndex else |results|..]);
        buffer == if IsBlank(finalText) then old(buffer) else old(buffer) + finalText
      ensures interval == old(interval) && live == old(live) && nextHandle == old(nextHandle) && delivered == old(delivered)
    {
      var start := if resultIndex < |results| then resultIndex else |results|;
      var finalText := "";
      var i := start;
      while i < |results|
        invariant start <= i <= |results|
        invariant finalText == FinalText(results[start..i])
      {
        var result := results[i];
        assert results[start..i + 1][..i - start] == results[start..i];
        if result.isFinal {
          finalText := finalText + result.transcript + " ";
        }
        i := i + 1;
      }
      assert results[start..i] == results[start..];
      TrimEmptyIffBlank(finalText);
      if Trim(finalText) != "" {
        buffer := buffer + finalText;
      }
    }

    /** `startTranscriptionInterval`: clears the running interval, if any, and starts a new one. */
    method StartInterval()
      requires Valid()
      modifies this
      ensures Valid()
      ensures interval == Some(old(nextHandle)) && live == {old(nextHandle)}
      ensures buffer == old(buffer) && delivered == old(delivered)
    {
      if interval.Some? {
        live := live - {interval.value};
      }
      var handle := nextHandle;
      nextHandle := nextHandle + 1;
      live := live + {handle};
      interval := Some(handle);
    }

    /** `stopTranscriptionInterval`: clears the running interval; a second call does nothing. */
    method StopInterval()
      requires Valid()
      modifies this
      ensures Valid()
      ensures interval == None && live == {}
      ensures buffer == old(buffer) && delivered == old(delivered) && nextHandle == old(nextHandle)
    {
      if interval.Some? {
        live := live - {interval.value};
        interval := None;
      }
    }

    /** One firing of interval `h`: delivers and clears the trimmed buffer when it is non-blank and there is a callback. */
    method IntervalTick(h: nat)
      requires Valid()
      modifies this
      ensures Valid()
      ensures h in old(live) && !IsBlank(old(buffer)) && hasCallback ==>
        buffer == "" && delivered == old(delivered) + [Trim(old(buffer))]
      ensures !(h in old(live) && !IsBlank(old(buffer)) && hasCallback) ==>
        buffer == old(buffer) && delivered == old(delivered)
      ensures interval == old(interval) && live == old(live) && nextHandle == old(nextHandle)
    {
      if h !in live {
        return;
      }
      var currentTranscript := Trim(buffer);
      TrimEmptyIffBlank(buffer);
      if currentTranscript != "" && hasCallback {
        TrimEmptyIffBlank(currentTranscript);
        TrimIdempotent(buffer);
        delivered := delivered + [currentTranscript];
        buffer := "";
      }
    }

    /** `stopSpeechRecognition`: stops the interval, delivers what is left (trimmed, if non-blank) and always empties the buffer. */
    method StopRecognition()
      requires Valid()
      modifies this
      ensures Valid()
      ensures buffer == "" && interval == None && live == {}
      ensures delivered == if !IsBlank(old(buffer)) && hasCallback then old(delivered) + [Trim(old(buffer))] else old(delivered)
    {
      StopInterval();
      var remainingTranscript := Trim(buffer);
      TrimEmptyIffBlank(buffer);
      if remainingTranscript != "" && hasCallback {
        TrimEmptyIffBlank(remainingTranscript);
        TrimIdempotent(buffer);
        delivered := delivered + [remainingTranscript];
      }
      buffer := "";
    }
  }
}
