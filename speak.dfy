/**
 * speak/speak.py: `TextToSpeechStreamer`, which synthesises sentences over
 * HTTP and plays the resulting files in order, and `StreamToSpeech`, which
 * turns a stream of chat chunks into sentences and speaks them one by one.
 *
 * The environment is explicit state of the streamer: `files` is the set of
 * file names on disk, `requests` the payload texts posted to the TTS
 * service, `playLog` the paths handed to `play_audio`, in order. What the
 * service answered is the parameter `responses`, one per request.
 */
module Speak {
  import opened Wrappers
  import opened Text
  import opened Segmentation
  import opened Playback

  /** The default `api_url` of `TextToSpeechStreamer`. */
  const DefaultApiUrl: string := "http://0.0.0.0:8848/api/v1/synthesise"

  /** The `"text"` of each JSON payload posted for `sentences`, in order. */
  function Payloads(sentences: seq<string>): (r: seq<string>)
    ensures |r| == |sentences|
    ensures forall k :: 0 <= k < |r| ==> r[k] == Strip(sentences[k])
  {
    seq(|sentences|, k requires 0 <= k < |sentences| => Strip(sentences[k]))
  }

  /** Segmented sentences are posted exactly as they were queued: their strip changes nothing. */
  lemma PayloadsOfSentences(q: seq<string>)
    requires forall k :: 0 <= k < |q| ==> IsSentence(q[k])
    ensures Payloads(q) == q
  {
    forall k | 0 <= k < |q|
      ensures Payloads(q)[k] == q[k]
    {
      StripStripped(q[k]);
    }
  }

  lemma PayloadsSnoc(q: seq<string>, i: nat)
    requires i < |q|
    ensures Payloads(q[..i + 1]) == Payloads(q[..i]) + [Strip(q[i])]
  {
  }

  lemma PayloadsAppend(a: seq<string>, b: seq<string>)
    ensures Payloads(a + b) == Payloads(a) + Payloads(b)
  {
  }

  /** Python's `s[:k]`: a negative `k` counts from the end. */
  function PrefixSlice<T>(s: seq<T>, k: int): (r: seq<T>)
    ensures r <= s
    ensures 0 <= k ==> |r| == if k < |s| then k else |s|
    ensures k < 0 ==> |r| == if -k < |s| then |s| + k else 0
  {
    if 0 <= k then s[..if k < |s| then k else |s|]
    else s[..if -k < |s| then |s| + k else 0]
  }

  /**
   * The trimming in `generate_continuous_speech`: a count that is given,
   * non-zero and below the number of sentences cuts the list with Python's
   * prefix slice. The result is always a prefix; `None` and `0` keep everything; a positive
   * count below the length keeps that many; a negative one drops that many
   * from the end.
   */
  function TrimSentences(sentences: seq<string>, numSentences: Option<int>): (r: seq<string>)
    ensures r <= sentences
    ensures numSentences.None? || numSentences.value == 0 || numSentences.value >= |sentences| ==> r == sentences
    ensures numSentences.Some? && 0 < numSentences.value < |sentences| ==> |r| == numSentences.value
    ensures numSentences.Some? && numSentences.value < 0 ==>
      |r| == if -numSentences.value < |sentences| then |sentences| + numSentences.value else 0
  {
    if numSentences.Some? && numSentences.value != 0 && numSentences.value < |sentences| then
      PrefixSlice(sentences, numSentences.value)
    else sentences
  }

  /**
   * The paths `speech_worker` hands to `play_audio` when its requests got
   * `responses`: every sentence is synthesised as index 0, so each success
   * plays temp_0.opus and each failure plays nothing.
   */
  function Spoken(responses: seq<Response>): (r: seq<Option<string>>)
    ensures |r| == |Produced(responses)|
    ensures forall k :: 0 <= k < |r| ==> r[k] == Some(FileName(0))
  {
    if responses == [] then []
    else
      var n := |responses| - 1;
      ProducedSnoc(responses, n);
      assert responses[..n + 1] == responses;
      Spoken(responses[..n]) + (if Succeeded(responses[n]) then [Some(FileName(0))] else [])
  }

  lemma SpokenSnoc(responses: seq<Response>, i: nat)
    requires i < |responses|
    ensures Spoken(responses[..i + 1]) == Spoken(responses[..i]) + (if Succeeded(responses[i]) then [Some(FileName(0))] else [])
  {
    assert responses[..i + 1][..i] == responses[..i];
  }

  class TextToSpeechStreamer {
    const apiUrl: string
    var synthesisQueue: seq<Item>
    var isRunning: bool
    var totalSentences: nat
    var files: set<string>
    var requests: seq<string>
    var playLog: seq<Option<string>>

    /**
     * A streamer for the TTS service at `apiUrl`, by default the local
     * service at port 8848, with the disk holding `disk`; the queue starts
     * empty and the streamer is not running.
     */
    constructor (disk: set<string>, apiUrl: string := DefaultApiUrl)
      ensures this.apiUrl == apiUrl && synthesisQueue == [] && !isRunning && totalSentences == 0
      ensures files == disk && requests == [] && playLog == []
    {
      this.apiUrl := apiUrl;
      synthesisQueue := [];
      isRunning := false;
      totalSentences := 0;
      files := disk;
      requests := [];
      playLog := [];
    }

    /**
     * `synthesize_sentence`: posts the stripped sentence; on status 200 writes
     * temp_{index}.opus and returns its name, otherwise (another status, or
     * an exception) returns `None`.
     */
    method SynthesizeSentence(sentence: string, index: nat, response: Response) returns (path: Option<string>)
      modifies this
      ensures path == SynthesisResult(response, index)
      ensures requests == old(requests) + [Strip(sentence)]
      ensures files == old(files) + (if path.Some? then {path.value} else {})
      ensures synthesisQueue == old(synthesisQueue) && playLog == old(playLog)
      ensures isRunning == old(isRunning) && totalSentences == old(totalSentences)
    {
      requests := requests + [Strip(sentence)];
      if response.Status? && response.code == 200 {
        path := Some("temp_" + NatToString(index) + ".opus");
        files := files + {path.value};
      } else {
        path := None;
      }
    }

    /**
     * `play_audio`: hands the path to ffplay. Passing `None` makes
     * `subprocess.run` raise, which is caught and reported as `False`.
     */
    method PlayAudio(path: Option<string>) returns (ok: bool)
      modifies this
      ensures ok <==> path.Some?
      ensures playLog == old(playLog) + [path]
      ensures synthesisQueue == old(synthesisQueue) && files == old(files) && requests == old(requests)
      ensures isRunning == old(isRunning) && totalSentences == old(totalSentences)
    {
      playLog := playLog + [path];
      ok := path.Some?;
    }

    /**
     * `synthesis_worker`: synthesises the sentences in order and queues
     * `(i, temp_i.opus)` for each success, then the sentinel. When the
     * streamer is not running the loop stops at once and only the sentinel
     * is queued.
     */
    method SynthesisWorker(sentences: seq<string>, responses: seq<Response>)
      requires |responses| == |sentences|
      modifies this
      ensures synthesisQueue == old(synthesisQueue) + (if isRunning then Produced(responses) else []) + [Sentinel]
      ensures files == old(files) + (if isRunning then Written(responses) else {})
      ensures requests == old(requests) + (if isRunning then Payloads(sentences) else [])
      ensures isRunning == old(isRunning) && playLog == old(playLog) && totalSentences == old(totalSentences)
    {
      ghost var q0, files0, requests0 := synthesisQueue, files, requests;
      ghost var running0, log0, total0 := isRunning, playLog, totalSentences;
      for i := 0 to |sentences|
        invariant isRunning == running0 && playLog == log0 && totalSentences == total0
        invariant synthesisQueue == q0 + Produced(responses[..i])
        invariant files == files0 + Written(responses[..i])
        invariant requests == requests0 + Payloads(sentences[..i])
        invariant !isRunning ==> i == 0
      {
        if !isRunning {
          break;
        }
        var path := SynthesizeSentence(sentences[i], i, responses[i]);
        if path.Some? {
          synthesisQueue := synthesisQueue + [Item(i, path)];
        }
        ProducedSnoc(responses, i);
        ConcatAssoc(q0, Produced(responses[..i]), if path.Some? then [Item(i, path)] else []);
        WrittenSnoc(responses, i);
        PayloadsSnoc(sentences, i);
        ConcatAssoc(requests0, Payloads(sentences[..i]), [Strip(sentences[i])]);
      }
      assert responses[..|sentences|] == responses && sentences[..|sentences|] == sentences;
      assert responses[..0] == [] && sentences[..0] == [];
      synthesisQueue := synthesisQueue + [Sentinel];
    }

    /** The loop's state as the playback model sees it. */
    ghost function View(queue: seq<Item>, nextIndex: nat, playedFiles: set<Option<string>>): PlayState
      reads this
    {
      PlayState(queue, nextIndex, playedFiles, files, playLog, false)
    }

    /**
     * `playback_worker`: gets items until the sentinel; plays an item in
     * its turn and not played before, then removes its file and advances
     * `next_index`; puts any other item back at the tail. Its effect is the
     * playback model's `Drain` from `next_index = 0` and no file played.
     */
    method PlaybackWorker()
      requires isRunning ==> HasSentinel(synthesisQueue)
      modifies this
      ensures isRunning == old(isRunning) && requests == old(requests) && totalSentences == old(totalSentences)
      ensures !old(isRunning) ==> synthesisQueue == old(synthesisQueue) && files == old(files) && playLog == old(playLog)
      ensures old(isRunning) ==>
        var r := Drain(PlayState(old(synthesisQueue), 0, {}, old(files), old(playLog), false));
        synthesisQueue == r.queue && files == r.files && playLog == r.playLog
    {
      var playedFiles: set<Option<string>> := {};
      var nextIndex: nat := 0;
      var sentinelCount := 0;
      ghost var start := View(synthesisQueue, 0, {});
      ghost var running0, requests0, total0 := isRunning, requests, totalSentences;
      ghost var q0, files0, log0 := synthesisQueue, files, playLog;
      while isRunning
        invariant isRunning == running0 && requests == requests0 && totalSentences == total0
        invariant !isRunning ==> synthesisQueue == q0 && files == files0 && playLog == log0
        invariant isRunning ==> HasSentinel(synthesisQueue)
        invariant isRunning ==> Drain(View(synthesisQueue, nextIndex, playedFiles)) == Drain(start)
        invariant sentinelCount == 0
        decreases SentinelPos(synthesisQueue)
      {
        ghost var s := View(synthesisQueue, nextIndex, playedFiles);
        var item := synthesisQueue[0];
        synthesisQueue := synthesisQueue[1..];
        if item.index == -1 {
          sentinelCount := sentinelCount + 1;
          assert Drain(s) == s.(queue := synthesisQueue, stopped := true);
          break;
        }
        if item.index == nextIndex && item.path !in playedFiles {
          var _ := PlayAudio(item.path);
          playedFiles := playedFiles + {item.path};
          if item.path.Some? && item.path.value in files {
            files := files - {item.path.value};
            nextIndex := nextIndex + 1;
          }
        } else {
          synthesisQueue := synthesisQueue + [item];
        }
        assert View(synthesisQueue, nextIndex, playedFiles) == Step(s);
        StepAdvancesSentinel(s);
      }
    }

    /**
     * `generate_continuous_speech`: splits the phrase, trims it to
     * `num_sentences`, then runs the synthesis worker to its end and the
     * playback worker after it. From an empty queue, ffplay gets
     * temp_0.opus, temp_1.opus, ... up to the first sentence that failed;
     * every later success stays queued, unplayed and in order, and its file
     * stays on disk, while the played files are deleted.
     */
    method GenerateContinuousSpeech(split: Splitter, phrase: string, numSentences: Option<int> := None, responses: seq<Response>)
      requires |responses| == |TrimSentences(split(phrase), numSentences)|
      modifies this
      ensures totalSentences == |TrimSentences(split(phrase), numSentences)| && !isRunning
      ensures requests == old(requests) + Payloads(TrimSentences(split(phrase), numSentences))
      ensures old(synthesisQueue) == [] ==> playLog == old(playLog) + Names(0, FirstFailure(responses))
      ensures old(synthesisQueue) == [] ==>
        FirstFailure(responses) <= |Produced(responses)| && synthesisQueue == Produced(responses)[FirstFailure(responses)..]
      ensures old(synthesisQueue) == [] ==> files == (old(files) + Written(responses)) - FilesIn(0, FirstFailure(responses))
    {
      var sentences := TrimSentences(split(phrase), numSentences);
      totalSentences := |sentences|;
      isRunning := true;
      SynthesisWorker(sentences, responses);
      SentinelInSuffix(old(synthesisQueue) + Produced(responses), [Sentinel]);
      PlaybackWorker();
      isRunning := false;
      if old(synthesisQueue) == [] {
        var s := AfterProducer(responses, old(files), old(playLog));
        assert old(synthesisQueue) + Produced(responses) + [Sentinel] == s.queue;
        FullRunPlaysUntilFirstFailure(responses, old(files), old(playLog));
        FullRunLeavesLaterSuccesses(responses, old(files), old(playLog));
      }
    }
  }

  /**
   * The body of `speech_worker`'s loop, the same in both `StreamToSpeech`
   * classes: the sentence is synthesised as index 0 and, on success,
   * temp_0.opus is played and removed.
   */
  method SpeakSentence(tts: TextToSpeechStreamer, sentence: string, response: Response)
    modifies tts
    ensures tts.requests == old(tts.requests) + [Strip(sentence)]
    ensures tts.playLog == old(tts.playLog) + (if Succeeded(response) then [Some(FileName(0))] else [])
    ensures tts.files == if Succeeded(response) then old(tts.files) - {FileName(0)} else old(tts.files)
    ensures tts.synthesisQueue == old(tts.synthesisQueue)
    ensures tts.isRunning == old(tts.isRunning) && tts.totalSentences == old(tts.totalSentences)
  {
    var path := tts.SynthesizeSentence(sentence, 0, response);
    if path.Some? {
      var _ := tts.PlayAudio(path);
      if path.value in tts.files {
        tts.files := tts.files - {path.value};
      }
    }
  }

  /** A message with or without a `content` attribute. */
  datatype Message = Message(content: Option<string>)

  /**
   * A chunk of a chat stream: a falsy value, a dict (which may have a
   * `'message'` key), or an object (which may have a `message` attribute).
   */
  datatype Chunk = Falsy | Mapping(message: Option<Message>) | Record(message: Option<Message>)

  /**
   * `process_stream_chunk`: an object with a `message` attribute that has a
   * `content` attribute gives that content; anything else, a dict included,
   * gives "".
   */
  function ProcessStreamChunk(chunk: Chunk): (content: string)
    ensures chunk.Record? && chunk.message.Some? && chunk.message.value.content.Some? ==>
      content == chunk.message.value.content.value
    ensures !(chunk.Record? && chunk.message.Some? && chunk.message.value.content.Some?) ==> content == ""
  {
    match chunk
    case Record(Some(Message(Some(c)))) => c
    case _ => ""
  }

  /** The contents `process_stream` accumulates: those of the truthy chunks, in order, as `extract` reads them. */
  function Contents(extract: Chunk -> string, stream: seq<Chunk>): (r: seq<string>)
    ensures |r| <= |stream|
  {
    if stream == [] then []
    else
      var n := |stream| - 1;
      Contents(extract, stream[..n]) + (if stream[n].Falsy? then [] else [extract(stream[n])])
  }

  lemma ContentsSnoc(extract: Chunk -> string, stream: seq<Chunk>, i: nat)
    requires i < |stream|
    ensures Contents(extract, stream[..i + 1]) ==
      Contents(extract, stream[..i]) + (if stream[i].Falsy? then [] else [extract(stream[i])])
  {
    assert stream[..i + 1][..i] == stream[..i];
  }

  /** The segmenter's state after one more chunk: unchanged for a falsy one, one more pass of the loop otherwise. */
  lemma RunStreamSnoc(split: Splitter, guarded: bool, extract: Chunk -> string, stream: seq<Chunk>, i: nat)
    requires i < |stream|
    ensures stream[i].Falsy? ==>
      Run(split, guarded, Contents(extract, stream[..i + 1])) == Run(split, guarded, Contents(extract, stream[..i]))
    ensures !stream[i].Falsy? ==>
      Run(split, guarded, Contents(extract, stream[..i + 1])) ==
      Feed(split, guarded, Run(split, guarded, Contents(extract, stream[..i])), extract(stream[i]))
  {
    ContentsSnoc(extract, stream, i);
    var cs := Contents(extract, stream[..i]);
    if stream[i].Falsy? {
      assert cs + [] == cs;
    } else {
      RunSnoc(split, guarded, cs, extract(stream[i]));
    }
  }

  /** Empty contents concatenate to the empty string. */
  lemma {:induction false} ConcatEmpty(contents: seq<string>)
    requires forall k :: 0 <= k < |contents| ==> contents[k] == ""
    ensures Concat(contents) == ""
  {
    if contents != [] {
      ConcatEmpty(contents[..|contents| - 1]);
    }
  }

  /** Chunks that all read as "" contribute only empty contents. */
  lemma {:induction false} EmptyContents(extract: Chunk -> string, stream: seq<Chunk>)
    requires forall k :: 0 <= k < |stream| ==> extract(stream[k]) == ""
    ensures forall k :: 0 <= k < |Contents(extract, stream)| ==> Contents(extract, stream)[k] == ""
  {
    if stream != [] {
      var n := |stream| - 1;
      assert forall k :: 0 <= k < n ==> stream[..n][k] == stream[k];
      EmptyContents(extract, stream[..n]);
    }
  }

  /** Only objects contribute text: a stream of dicts and falsy values puts no sentence on the queue. */
  lemma DictStreamIsSilent(split: Splitter, stream: seq<Chunk>)
    requires forall k :: 0 <= k < |stream| ==> !stream[k].Record?
    ensures Sentences(split, true, Contents(ProcessStreamChunk, stream)) == []
  {
    var cs := Contents(ProcessStreamChunk, stream);
    EmptyContents(ProcessStreamChunk, stream);
    RunWithoutTerminals(split, true, cs);
    ConcatEmpty(cs);
  }

  class StreamToSpeech {
    const sentTokenize: Splitter
    const ttsStreamer: TextToSpeechStreamer
    var sentenceQueue: seq<string>
    var isRunning: bool

    /** A speaker with an empty sentence queue and a fresh streamer for the default URL. */
    constructor (sentTokenize: Splitter, disk: set<string>)
      ensures this.sentTokenize == sentTokenize && sentenceQueue == [] && !isRunning
      ensures fresh(ttsStreamer) && ttsStreamer.apiUrl == DefaultApiUrl && ttsStreamer.synthesisQueue == []
      ensures ttsStreamer.files == disk && ttsStreamer.requests == [] && ttsStreamer.playLog == []
    {
      this.sentTokenize := sentTokenize;
      ttsStreamer := new TextToSpeechStreamer(disk);
      sentenceQueue := [];
      isRunning := false;
    }

    /** Puts the strip of each segment that is not blank on `sentence_queue`, in order. */
    method PutCleaned(segments: seq<string>)
      modifies this
      ensures sentenceQueue == old(sentenceQueue) + Cleaned(segments)
      ensures isRunning == old(isRunning)
    {
      ghost var queue0, running0 := sentenceQueue, isRunning;
      for i := 0 to |segments|
        invariant sentenceQueue == queue0 + Cleaned(segments[..i])
        invariant isRunning == running0
      {
        CleanedSnoc(segments, i);
        ConcatAssoc(queue0, Cleaned(segments[..i]), Clean(segments[i]));
        if !IsBlank(segments[i]) {
          sentenceQueue := sentenceQueue + [Strip(segments[i])];
        }
      }
      CleanedPrefixAll(segments);
    }

    /** `accumulate_and_process_sentences`, with the blank-accumulator guard. */
    method AccumulateAndProcessSentences(textAccumulator: string) returns (rest: string)
      modifies this
      ensures var o := Accumulate(sentTokenize, textAccumulator, true);
        sentenceQueue == old(sentenceQueue) + o.queued && rest == o.rest
      ensures isRunning == old(isRunning)
    {
      if IsBlank(textAccumulator) {
        return textAccumulator;
      }
      var sentences := sentTokenize(textAccumulator);
      if |sentences| > 1 {
        PutCleaned(sentences[..|sentences| - 1]);
        return sentences[|sentences| - 1];
      }
      return textAccumulator;
    }

    /** `start_speaking`; the worker thread itself is run by `ProcessStream`. */
    method StartSpeaking()
      modifies this
      ensures isRunning && sentenceQueue == old(sentenceQueue)
    {
      isRunning := true;
    }

    /** `stop_speaking`. */
    method StopSpeaking()
      modifies this
      ensures !isRunning && sentenceQueue == old(sentenceQueue)
    {
      isRunning := false;
    }

    /**
     * `speech_worker`, until the queue is empty: each sentence, first in
     * first out, is synthesised as index 0; on success temp_0.opus is
     * played and removed.
     */
    method SpeechWorker(responses: seq<Response>)
      requires |responses| == |sentenceQueue|
      modifies this, ttsStreamer
      ensures isRunning == old(isRunning)
      ensures !isRunning ==> sentenceQueue == old(sentenceQueue)
      ensures isRunning ==> sentenceQueue == []
      ensures ttsStreamer.requests == old(ttsStreamer.requests) + (if isRunning then Payloads(old(sentenceQueue)) else [])
      ensures ttsStreamer.playLog == old(ttsStreamer.playLog) + (if isRunning then Spoken(responses) else [])
      ensures ttsStreamer.files ==
        if isRunning && Spoken(responses) != [] then old(ttsStreamer.files) - {FileName(0)} else old(ttsStreamer.files)
      ensures ttsStreamer.synthesisQueue == old(ttsStreamer.synthesisQueue)
      ensures ttsStreamer.isRunning == old(ttsStreamer.isRunning) && ttsStreamer.totalSentences == old(ttsStreamer.totalSentences)
    {
      ghost var q0, requests0, log0, files0 := sentenceQueue, ttsStreamer.requests, ttsStreamer.playLog, ttsStreamer.files;
      ghost var running0, synth0 := isRunning, ttsStreamer.synthesisQueue;
      ghost var ttsRunning0, total0 := ttsStreamer.isRunning, ttsStreamer.totalSentences;
      var i := 0;
      while isRunning && sentenceQueue != []
        invariant i <= |responses| && sentenceQueue == q0[i..]
        invariant isRunning == running0 && (!isRunning ==> i == 0)
        invariant ttsStreamer.isRunning == ttsRunning0 && ttsStreamer.totalSentences == total0
        invariant ttsStreamer.requests == requests0 + Payloads(q0[..i])
        invariant ttsStreamer.playLog == log0 + Spoken(responses[..i])
        invariant ttsStreamer.files == if Spoken(responses[..i]) != [] then files0 - {FileName(0)} else files0
        invariant ttsStreamer.synthesisQueue == synth0
        decreases |sentenceQueue|
      {
        var sentence := sentenceQueue[0];
        sentenceQueue := sentenceQueue[1..];
        SpeakSentence(ttsStreamer, sentence, responses[i]);
        PayloadsSnoc(q0, i);
        SpokenSnoc(responses, i);
        ConcatAssoc(requests0, Payloads(q0[..i]), [Strip(sentence)]);
        ConcatAssoc(log0, Spoken(responses[..i]), if Succeeded(responses[i]) then [Some(FileName(0))] else []);
        i := i + 1;
      }
      assert responses[..|responses|] == responses;
      assert isRunning ==> q0[..i] == q0;
    }

    /**
     * The chunk loop of `process_stream`: returns the accumulator it ends
     * with and queues what the segmenter found on the way.
     */
    method AccumulateStream(stream: seq<Chunk>) returns (textAccumulator: string)
      modifies this
      ensures sentenceQueue == old(sentenceQueue) + Run(sentTokenize, true, Contents(ProcessStreamChunk, stream)).queued
      ensures textAccumulator == Run(sentTokenize, true, Contents(ProcessStreamChunk, stream)).rest
      ensures isRunning == old(isRunning)
    {
      textAccumulator := "";
      ghost var queue0, running0 := sentenceQueue, isRunning;
      for i := 0 to |stream|
        invariant isRunning == running0
        invariant sentenceQueue == queue0 + Run(sentTokenize, true, Contents(ProcessStreamChunk, stream[..i])).queued
        invariant textAccumulator == Run(sentTokenize, true, Contents(ProcessStreamChunk, stream[..i])).rest
      {
        ghost var o := Run(sentTokenize, true, Contents(ProcessStreamChunk, stream[..i]));
        RunStreamSnoc(sentTokenize, true, ProcessStreamChunk, stream, i);
        if stream[i].Falsy? {
          continue;
        }
        var content := ProcessStreamChunk(stream[i]);
        textAccumulator := textAccumulator + content;
        if HasTerminal(content) {
          textAccumulator := AccumulateAndProcessSentences(textAccumulator);
          ConcatAssoc(queue0, o.queued, Accumulate(sentTokenize, o.rest + content, true).queued);
        }
      }
      assert stream[..|stream|] == stream;
    }

    /**
     * `process_stream`: accumulates the content of each truthy chunk,
     * segments after each content with '.', '!' or '?', flushes what is
     * left at the end, lets the worker speak the queue, and stops. Everything
     * queued is posted to the TTS service in order, exactly as segmented.
     */
    method ProcessStream(stream: seq<Chunk>, responses: seq<Response>)
      requires |responses| == |sentenceQueue| + |Sentences(sentTokenize, true, Contents(ProcessStreamChunk, stream))|
      modifies this, ttsStreamer
      ensures !isRunning && sentenceQueue == []
      ensures ttsStreamer.requests ==
        old(ttsStreamer.requests) + Payloads(old(sentenceQueue)) + Sentences(sentTokenize, true, Contents(ProcessStreamChunk, stream))
      ensures ttsStreamer.playLog == old(ttsStreamer.playLog) + Spoken(responses)
      ensures ttsStreamer.files == if Spoken(responses) != [] then old(ttsStreamer.files) - {FileName(0)} else old(ttsStreamer.files)
      ensures ttsStreamer.synthesisQueue == old(ttsStreamer.synthesisQueue)
      ensures ttsStreamer.isRunning == old(ttsStreamer.isRunning) && ttsStreamer.totalSentences == old(ttsStreamer.totalSentences)
    {
      ghost var queue0, requests0 := sentenceQueue, ttsStreamer.requests;
      StartSpeaking();
      var textAccumulator := AccumulateStream(stream);
      ghost var o := Run(sentTokenize, true, Contents(ProcessStreamChunk, stream));
      ghost var sentences := Sentences(sentTokenize, true, Contents(ProcessStreamChunk, stream));
      assert sentences == o.queued + Flush(sentTokenize, o.rest);
      if !IsBlank(textAccumulator) {
        PutCleaned(sentTokenize(textAccumulator));
      } else {
        assert sentenceQueue == queue0 + o.queued + [];
      }
      ConcatAssoc(queue0, o.queued, Flush(sentTokenize, o.rest));
      ghost var queued := sentenceQueue;
      assert queued == queue0 + sentences;
      SpeechWorker(responses);
      StopSpeaking();
      PayloadsOfSentences(sentences);
      PayloadsAppend(queue0, sentences);
      ConcatAssoc(requests0, Payloads(queue0), sentences);
    }
  }
}
