/**
 * speak/ollama_speak.py: a second `StreamToSpeech`, speaking through the
 * `TextToSpeechStreamer` of speak/speak.py. It differs from the class there
 * in two places: a chunk is read as a dict, through its `'message'` and
 * then its `'content'` key, and the segmenter has no blank-accumulator guard.
 */
module OllamaSpeak {
  import opened Wrappers
  import opened Text
  import opened Segmentation
  import opened Playback
  import Speak

  /**
   * `process_stream_chunk`: a dict with a `'message'` key gives its
   * `'content'`, or "" when that lookup raises; anything else gives the
   * literal text "none".
   */
  function ProcessStreamChunk(chunk: Speak.Chunk): (content: string)
    ensures !(chunk.Mapping? && chunk.message.Some?) ==> content == "none"
    ensures chunk.Mapping? && chunk.message.Some? && chunk.message.value.content.Some? ==>
      content == chunk.message.value.content.value
    ensures chunk.Mapping? && chunk.message.Some? && chunk.message.value.content.None? ==> content == ""
  {
    if chunk.Mapping? && chunk.message.Some? then chunk.message.value.content.GetOr("") else "none"
  }

  /** Truthy chunks that are not dicts with a message each read as "none". */
  lemma {:induction false} NoneContents(stream: seq<Speak.Chunk>)
    requires forall k :: 0 <= k < |stream| ==> stream[k].Record?
    ensures |Speak.Contents(ProcessStreamChunk, stream)| == |stream|
    ensures forall k :: 0 <= k < |stream| ==> Speak.Contents(ProcessStreamChunk, stream)[k] == "none"
  {
    if stream != [] {
      var n := |stream| - 1;
      assert forall k :: 0 <= k < n ==> stream[..n][k] == stream[k];
      NoneContents(stream[..n]);
    }
  }

  /**
   * A stream of objects, such as chat responses that are not dicts, is heard
   * as the word "none" once per chunk: nothing is segmented on the way, and
   * the flush speaks the concatenated "nonenone...".
   */
  lemma ObjectStreamSpeaksNone(split: Splitter, stream: seq<Speak.Chunk>)
    requires forall k :: 0 <= k < |stream| ==> stream[k].Record?
    ensures Sentences(split, false, Speak.Contents(ProcessStreamChunk, stream)) ==
      Flush(split, Concat(Speak.Contents(ProcessStreamChunk, stream)))
  {
    var cs := Speak.Contents(ProcessStreamChunk, stream);
    NoneContents(stream);
    NoTerminalInNone();
    assert forall k :: 0 <= k < |cs| ==> !HasTerminal(cs[k]);
    RunWithoutTerminals(split, false, cs);
  }

  lemma NoTerminalInNone()
    ensures !HasTerminal("none")
  {
    assert "none" == ['n', 'o', 'n', 'e'];
  }

  class StreamToSpeech {
    const sentTokenize: Splitter
    const ttsStreamer: Speak.TextToSpeechStreamer
    var sentenceQueue: seq<string>
    var isRunning: bool

    /** A speaker with an empty sentence queue and a fresh streamer for the default URL. */
    constructor (sentTokenize: Splitter, disk: set<string>)
      ensures this.sentTokenize == sentTokenize && sentenceQueue == [] && !isRunning
      ensures fresh(ttsStreamer) && ttsStreamer.apiUrl == Speak.DefaultApiUrl && ttsStreamer.synthesisQueue == []
      ensures ttsStreamer.files == disk && ttsStreamer.requests == [] && ttsStreamer.playLog == []
    {
      this.sentTokenize := sentTokenize;
      ttsStreamer := new Speak.TextToSpeechStreamer(disk);
      sentenceQueue := [];
      isRunning := false;
    }

    /** Puts the strip of each segment that is not blank on `sentence_queue`, in order. */
    method PutCleaned(segments: seq<string>)
      modifies this
      ensures sentenceQueue == old(sentenceQueue) + Cleaned(segments)
      ensures isRunning == old(isRunning)
    {
      ghost var queue0, running0 := sentenceQueue, isRunning;
      for i := 0 to |segments|
        invariant sentenceQueue == queue0 + Cleaned(segments[..i])
        invariant isRunning == running0
      {
        CleanedSnoc(segments, i);
        ConcatAssoc(queue0, Cleaned(segments[..i]), Clean(segments[i]));
        if !IsBlank(segments[i]) {
          sentenceQueue := sentenceQueue + [Strip(segments[i])];
        }
      }
      CleanedPrefixAll(segments);
    }

    /** `accumulate_and_process_sentences`, which here splits even a blank accumulator. */
    method AccumulateAndProcessSentences(textAccumulator: string) returns (rest: string)
      modifies this
      ensures var o := Accumulate(sentTokenize, textAccumulator, false);
        sentenceQueue == old(sentenceQueue) + o.queued && rest == o.rest
      ensures isRunning == old(isRunning)
    {
      var sentences := sentTokenize(textAccumulator);
      if |sentences| > 1 {
        PutCleaned(sentences[..|sentences| - 1]);
        return sentences[|sentences| - 1];
      }
      return textAccumulator;
    }

    /** `start_speaking`; the worker thread itself is run by `ProcessStream`. */
    method StartSpeaking()
      modifies this
      ensures isRunning && sentenceQueue == old(sentenceQueue)
    {
      isRunning := true;
    }

    /** `stop_speaking`. */
    method StopSpeaking()
      modifies this
      ensures !isRunning && sentenceQueue == old(sentenceQueue)
    {
      isRunning := false;
    }

    /**
     * `speech_worker`, until the queue is empty: each sentence, first in
     * first out, is synthesised as index 0; on success temp_0.opus is
     * played and removed.
     */
    method SpeechWorker(responses: seq<Response>)
      requires |responses| == |sentenceQueue|
      modifies this, ttsStreamer
      ensures isRunning == old(isRunning)
      ensures !isRunning ==> sentenceQueue == old(sentenceQueue)
      ensures isRunning ==> sentenceQueue == []
      ensures ttsStreamer.requests == old(ttsStreamer.requests) + (if isRunning then Speak.Payloads(old(sentenceQueue)) else [])
      ensures ttsStreamer.playLog == old(ttsStreamer.playLog) + (if isRunning then Speak.Spoken(responses) else [])
      ensures ttsStreamer.files ==
        if isRunning && Speak.Spoken(responses) != [] then old(ttsStreamer.files) - {FileName(0)} else old(ttsStreamer.files)
      ensures ttsStreamer.synthesisQueue == old(ttsStreamer.synthesisQueue)
      ensures ttsStreamer.isRunning == old(ttsStreamer.isRunning) && ttsStreamer.totalSentences == old(ttsStreamer.totalSentences)
    {
      ghost var q0, requests0, log0, files0 := sentenceQueue, ttsStreamer.requests, ttsStreamer.playLog, ttsStreamer.files;
      ghost var running0, synth0 := isRunning, ttsStreamer.synthesisQueue;
      ghost var ttsRunning0, total0 := ttsStreamer.isRunning, ttsStreamer.totalSentences;
      var i := 0;
      while isRunning && sentenceQueue != []
        invariant i <= |responses| && sentenceQueue == q0[i..]
        invariant isRunning == running0 && (!isRunning ==> i == 0)
        invariant ttsStreamer.isRunning == ttsRunning0 && ttsStreamer.totalSentences == total0
        invariant ttsStreamer.requests == requests0 + Speak.Payloads(q0[..i])
        invariant ttsStreamer.playLog == log0 + Speak.Spoken(responses[..i])
        invariant ttsStreamer.files == if Speak.Spoken(responses[..i]) != [] then files0 - {FileName(0)} else files0
        invariant ttsStreamer.synthesisQueue == synth0
        decreases |sentenceQueue|
      {
        var sentence := sentenceQueue[0];
        sentenceQueue := sentenceQueue[1..];
        Speak.SpeakSentence(ttsStreamer, sentence, responses[i]);
        Speak.PayloadsSnoc(q0, i);
        Speak.SpokenSnoc(responses, i);
        ConcatAssoc(requests0, Speak.Payloads(q0[..i]), [Strip(sentence)]);
        ConcatAssoc(log0, Speak.Spoken(responses[..i]), if Succeeded(responses[i]) then [Some(FileName(0))] else []);
        i := i + 1;
      }
      assert responses[..|responses|] == responses;
      assert isRunning ==> q0[..i] == q0;
    }

    /**
     * The chunk loop of `process_stream`: returns the accumulator it ends
     * with and queues what the segmenter found on the way.
     */
    method AccumulateStream(stream: seq<Speak.Chunk>) returns (textAccumulator: string)
      modifies this
      ensures sentenceQueue == old(sentenceQueue) + Run(sentTokenize, false, Speak.Contents(ProcessStreamChunk, stream)).queued
      ensures textAccumulator == Run(sentTokenize, false, Speak.Contents(ProcessStreamChunk, stream)).rest
      ensures isRunning == old(isRunning)
    {
      textAccumulator := "";
      ghost var queue0, running0 := sentenceQueue, isRunning;
      for i := 0 to |stream|
        invariant isRunning == running0
        invariant sentenceQueue == queue0 + Run(sentTokenize, false, Speak.Contents(ProcessStreamChunk, stream[..i])).queued
        invariant textAccumulator == Run(sentTokenize, false, Speak.Contents(ProcessStreamChunk, stream[..i])).rest
      {
        ghost var o := Run(sentTokenize, false, Speak.Contents(ProcessStreamChunk, stream[..i]));
        Speak.RunStreamSnoc(sentTokenize, false, ProcessStreamChunk, stream, i);
        if stream[i].Falsy? {
          continue;
        }
        var content := ProcessStreamChunk(stream[i]);
        textAccumulator := textAccumulator + content;
        if HasTerminal(content) {
          textAccumulator := AccumulateAndProcessSentences(textAccumulator);
          ConcatAssoc(queue0, o.queued, Accumulate(sentTokenize, o.rest + content, false).queued);
        }
      }
      assert stream[..|stream|] == stream;
    }

    /**
     * `process_stream`: accumulates the content of each truthy chunk,
     * segments after each content with '.', '!' or '?', flushes what is
     * left at the end, lets the worker speak the queue, and stops. Everything
     * queued is posted to the TTS service in order, exactly as segmented.
     */
    method ProcessStream(stream: seq<Speak.Chunk>, responses: seq<Response>)
      requires |responses| == |sentenceQueue| + |Sentences(sentTokenize, false, Speak.Contents(ProcessStreamChunk, stream))|
      modifies this, ttsStreamer
      ensures !isRunning && sentenceQueue == []
      ensures ttsStreamer.requests ==
        old(ttsStreamer.requests) + Speak.Payloads(old(sentenceQueue)) + Sentences(sentTokenize, false, Speak.Contents(ProcessStreamChunk, stream))
      ensures ttsStreamer.playLog == old(ttsStreamer.playLog) + Speak.Spoken(responses)
      ensures ttsStreamer.files ==
        if Speak.Spoken(responses) != [] then old(ttsStreamer.files) - {FileName(0)} else old(ttsStreamer.files)
      ensures ttsStreamer.synthesisQueue == old(ttsStreamer.synthesisQueue)
      ensures ttsStreamer.isRunning == old(ttsStreamer.isRunning) && ttsStreamer.totalSentences == old(ttsStreamer.totalSentences)
    {
      ghost var queue0, requests0 := sentenceQueue, ttsStreamer.requests;
      StartSpeaking();
      var textAccumulator := AccumulateStream(stream);
      ghost var o := Run(sentTokenize, false, Speak.Contents(ProcessStreamChunk, stream));
      ghost var sentences := Sentences(sentTokenize, false, Speak.Contents(ProcessStreamChunk, stream));
      assert sentences == o.queued + Flush(sentTokenize, o.rest);
      if !IsBlank(textAccumulator) {
        PutCleaned(sentTokenize(textAccumulator));
      } else {
        assert sentenceQueue == queue0 + o.queued + [];
      }
      ConcatAssoc(queue0, o.queued, Flush(sentTokenize, o.rest));
      ghost var queued := sentenceQueue;
      assert queued == queue0 + sentences;
      SpeechWorker(responses);
      StopSpeaking();
      Speak.PayloadsOfSentences(sentences);
      Speak.PayloadsAppend(queue0, sentences);
      ConcatAssoc(requests0, Speak.Payloads(queue0), sentences);
    }
  }
}
