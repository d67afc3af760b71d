# luna-v0 speech pipeline in Dafny

This project models the speech pipeline of luna-v0 and proves properties of the model.

**speak/speak.py** holds two classes:

- `TextToSpeechStreamer`. One thread synthesises sentences over HTTP into `temp_<i>.opus` files and puts `(i, file)` on a bounded queue holding at most 5 items. A second thread takes items off that queue and plays them with ffplay in index order. An item whose turn has not come is put back at the tail.
- `StreamToSpeech`. It reads a stream of chat chunks and keeps a text accumulator. Each time a chunk carries '.', '!' or '?', it runs NLTK's `sent_tokenize` over the accumulator. Every segment except the last becomes a sentence on a second queue. A worker then synthesises each sentence and speaks it.

**speak/ollama_speak.py** is a second `StreamToSpeech`. It reads chunks as dicts, and when it segments it does not first check for a blank accumulator.

**hear/main.py** does four things:

- picks the first Yeti microphone;
- lists the input devices;
- cleans the transcriber's output and deletes the WAV file;
- chooses what `listen` answers.

## Modules

- `Wrappers`: `Option`, `Result`, and concatenation associativity.
- `Text`: Python's `str.strip()`, `in`, `replace(p, "")`, ASCII `lower()` and `str(n)`.
- `Segmentation`: the segmenter as functions on values. It covers one call of `accumulate_and_process_sentences`, one pass of the stream loop, the whole loop and the end-of-stream flush. The flag `guarded` is true for speak/speak.py and false for speak/ollama_speak.py.
- `Playback`: what `synthesis_worker` queues, as functions. One iteration of `playback_worker` is `Step`, and the loop run alone until the sentinel is `Drain`.
- `Interleaving`: both threads of `generate_continuous_speech` under every schedule, with the 5-slot queue's blocking `put` made explicit.
- `Corrected`: a corrected form of those two threads, in which a failed sentence is queued as `(i, None)` and skipped in its turn. It is proved free of deadlock and complete.
- `Speak`: both classes of speak/speak.py, as Dafny classes. Their fields are the queues and flags. Three more fields stand for the environment:
  - `files` is the set of names on disk;
  - `requests` is the list of payload texts posted;
  - `playLog` is the list of paths handed to `play_audio`.
  
  Each loop is a `while` or `for` loop, proved against the functions of `Segmentation` and `Playback`.
- `OllamaSpeak`: the class of speak/ollama_speak.py, which uses `Speak.TextToSpeechStreamer`.
- `Hear`: hear/main.py.

## Environment

Everything outside the process is a parameter:

- the HTTP status of each synthesis request is a `Response`;
- `sent_tokenize` is an uninterpreted function of type `Splitter`;
- the device list comes from `sd.query_devices()`;
- the recording's outcome is a parameter;
- the transcriber's exit is a parameter.

**Intended and actual playback.** The playback loop is meant to play every synthesised sentence in its turn: it waits "until it's this file's turn to play" (speak/speak.py:91), and it reports progress as sentence `index + 1` of `total_sentences` (speak/speak.py:40, 93). The code as written puts out-of-turn items back on the same bounded queue and never queues anything for a failed sentence.

The model follows the code. `Interleaving` proves two consequences, listed under "## Findings": the threads can deadlock, and a failure silences everything after it. The `Corrected` module queues a failed sentence as `(i, None)` and skips it in its turn, and is proved to play every success in order.

## Model

| member | source | states |
|---|---|---|
| Text.Strip | speak/speak.py:29 | `strip()` removes only whitespace, from both ends. The result has no surrounding whitespace, and it is empty exactly when the input is blank. |
| Text.StripIdempotent | speak/speak.py:174-175 | Stripping twice is stripping once. |
| Text.RemoveAll | hear/main.py:105-107 | `replace(p, "")` never lengthens a string. |
| Text.RemoveAbsent | hear/main.py:105-107 | Removing a pattern that does not occur changes nothing. |
| Text.Lower | hear/main.py:24 | `lower()` maps each character and keeps the length. |
| Text.LowerIdempotent | hear/main.py:24 | Lower-casing twice is lower-casing once. |
| Text.NatToStringInjective | speak/speak.py:37 | Distinct indices print differently. |
| Playback.FileNameInjective | speak/speak.py:37 | Distinct indices give distinct `temp_<i>.opus`, so files never collide. |
| Playback.Produced | speak/speak.py:64-69 | At most one item per sentence, and one for each sentence when all of them succeeded. `ProducedItems` and `ProducedComplete` give the contents. |
| Playback.Written | speak/speak.py:36-39 | No file is written when no sentence succeeded. `WrittenComplete` and `WrittenSound` give the contents. |
| Playback.WrittenSound | speak/speak.py:36-39 | Every file written is `temp_i.opus` for a sentence `i` that succeeded. |
| Playback.SynthesisResult | speak/speak.py:36-47 | The result is a file exactly on status 200, and that file is `temp_<index>.opus`. Any other status or an exception gives `None`. |
| Playback.ProducedItems | speak/speak.py:62-72 | Each item queued before the sentinel is `(i, temp_i.opus)` for a sentence `i` that succeeded. Indices strictly increase. |
| Playback.ProducedComplete | speak/speak.py:67-69 | Every successful sentence has its item queued. |
| Playback.WrittenComplete | speak/speak.py:36-39 | Every successful sentence has its file on disk. |
| Playback.ProducedPrefix | speak/speak.py:64-69 | The items for the first `n` sentences come first. |
| Playback.ProducedAllSucceeded | speak/speak.py:64-69 | With no failure, the queue is exactly 0, 1, 2, ... in order. |
| Playback.FirstFailure | speak/speak.py:36-47 | The first failed index: none before it failed. |
| Playback.NamesDistinct | speak/speak.py:92-95 | No file is played twice in a run of consecutive names. |
| Playback.Take | speak/speak.py:82-100 | A `get` always removes the head. An item is held for the put-back exactly when it is not the sentinel and not (in its turn and unplayed), and then nothing else changes. The sentinel stops the loop and changes nothing else. |
| Playback.PutBack | speak/speak.py:99-100 | The held item goes back at the tail, and nothing else changes. With nothing held, the state is unchanged. |
| Playback.Step | speak/speak.py:82-100 | One iteration never grows the queue or the disk. It adds at most one play, moves `next_index` by at most one, and stops exactly at the sentinel. |
| Playback.StepAdvancesSentinel | speak/speak.py:80-105 | Each iteration that is not the sentinel's moves the first sentinel one place nearer the head, so the loop ends. |
| Playback.Drain | speak/speak.py:80-105 | Run alone on a queue holding a sentinel, the loop stops. |
| Playback.InTurnPlays | speak/speak.py:92-97 | In a well-formed state, an item in its turn is played, its file removed and `next_index` advanced. The `played_files` test and `os.remove` never fail. |
| Playback.StepWellFormed | speak/speak.py:92-100 | One iteration keeps the state well formed. `next_index` moves by at most one, exactly when the head is in turn, and only then is anything played. |
| Playback.DrainPlaysInOrder | speak/speak.py:92-97 | The loop hands ffplay exactly `temp_n.opus`, `temp_{n+1}.opus`, ... from the index it started at. |
| Playback.DrainStopsAtGap | speak/speak.py:92-100 | If no queued item has index `j`, nothing from `j` on is ever played. |
| Playback.DrainPlaysConsecutive | speak/speak.py:92-97 | Items queued in turn ahead of the sentinel are all played. |
| Playback.DrainIsOnePass | speak/speak.py:80-105 | Everything behind the first sentinel is still queued when the loop stops. The queue shrinks by exactly the number played. |
| Playback.AfterProducer | speak/speak.py:62-80 | The loop starts on what the producer queued, then the sentinel, with the written files on disk, `next_index = 0` and nothing played. |
| Playback.AfterProducerWellFormed | speak/speak.py:62-72 | What the producer leaves is a well-formed queue. |
| Playback.AfterProducerShape | speak/speak.py:62-72 | That queue begins with items 0 .. g-1 in turn, with a sentinel behind them. |
| Playback.AfterProducerGap | speak/speak.py:62-72 | No item of that queue has the first failed index. |
| Playback.FullRunPlaysUntilFirstFailure | speak/speak.py:62-105 | Producer then consumer plays `temp_0.opus` ... `temp_{g-1}.opus`, and stops at the first failure `g`. |
| Playback.DrainRotates | speak/speak.py:92-100 | When no queued item is in its turn, one pass puts every item ahead of the sentinel back, in order, behind what followed the sentinel. Nothing else changes. |
| Playback.DrainSkipsConsecutive | speak/speak.py:92-97 | Playing a run of `m` in-turn items removes them from the queue, moves `next_index` by `m` and deletes exactly their files. The loop continues from there. |
| Playback.FirstFailureProduced | speak/speak.py:64-69 | The first `g` items queued are those of sentences 0 .. g-1, where `g` is the first failure. |
| Playback.ProducedAvoidsFailure | speak/speak.py:64-69 | No item before the sentinel is a sentinel or has the first failed index. |
| Playback.RotateToSentinel | speak/speak.py:92-100 | Out-of-turn items ahead of the sentinel are all put back, with the disk unchanged. |
| Playback.AfterProducerPlaysRun | speak/speak.py:62-97 | Producer then consumer: the loop first plays `temp_0.opus` up to the first failure and deletes exactly those files. |
| Playback.FullRunLeavesLaterSuccesses | speak/speak.py:62-105 | Producer then consumer leaves every item after the first failure queued, in order. Only the played files are deleted, so a later success keeps its file on disk. |
| Segmentation.Clean | speak/speak.py:174-175 | A segment is enqueued exactly when it is not blank, and then as its strip. |
| Segmentation.Cleaned | speak/speak.py:173-175 | At most one sentence per segment, each non-blank and stripped. |
| Segmentation.CleanedAppend | speak/speak.py:173-175 | Segments are enqueued in their order: cleaning `a + b` gives the sentences of `a`, then those of `b`, with blank segments anywhere. |
| Segmentation.CleanedAllNonBlank | speak/speak.py:173-175 | With no blank segment, every segment is enqueued, stripped, in order. |
| Segmentation.CleanedFromSegment | speak/speak.py:173-175 | Every enqueued string is the strip of some segment. |
| Segmentation.CleanedKeepsSegment | speak/speak.py:173-175 | Every non-blank segment is enqueued. |
| Segmentation.Accumulate | speak/speak.py:163-178 | Only sentences are enqueued. The returned accumulator is the input or the last segment, and something is enqueued only when the split gave more than one segment. |
| Segmentation.AccumulateKeeps | speak/speak.py:166-167 | A blank accumulator under the guard, or a split into at most one segment, is returned unchanged with nothing enqueued. |
| Segmentation.AccumulateWithholds | speak/speak.py:169-177 | A split into k + 1 segments whose first k are not blank enqueues exactly those k, stripped and in order. Segment k + 1 is kept whatever it holds. |
| Segmentation.GuardOnlyForBlank | speak/ollama_speak.py:30-41 | The guarded and unguarded segmenters differ only on a blank accumulator. |
| Segmentation.HasTerminal | speak/speak.py:234 | A content triggers segmentation exactly when one of its characters is '.', '!' or '?'. |
| Segmentation.Flush | speak/speak.py:238-242 | The flush enqueues only sentences, and nothing for a blank buffer. |
| Segmentation.FlushKeepsLast | speak/speak.py:238-242 | The flush enqueues the last segment even without terminal punctuation. |
| Segmentation.Feed | speak/speak.py:230-235 | A pass of the loop never retracts what is queued. A content without '.', '!' or '?' leaves the queue alone and only extends the buffer. A content with one segments the extended buffer once: its sentences are appended to the queue and its remainder becomes the buffer. The copy at speak/ollama_speak.py:93-98 is the same pass. |
| Segmentation.Run | speak/speak.py:225-235 | The stream loop enqueues only sentences. |
| Segmentation.RunWithoutTerminals | speak/speak.py:234 | With no '.', '!' or '?' in any content, nothing is enqueued and the buffer is the concatenation. |
| Segmentation.Sentences | speak/speak.py:225-242 | Everything queued is a sentence, and the loop's sentences come first. |
| Segmentation.RunAppendOnly | speak/speak.py:225-235 | Feeding more content never retracts an enqueued sentence. |
| Interleaving.ProducerCanMove | speak/speak.py:64-72 | The producer moves until it has put the sentinel. A failed synthesis puts nothing and never waits. A success or the sentinel waits while the queue (5 slots, speak/speak.py:21) is full. |
| Interleaving.ConsumerCanMove | speak/speak.py:82-100 | A stopped consumer never moves. Its put-back waits while the queue is full, and its `get` waits while the queue is empty. |
| Interleaving.Deadlocked | speak/speak.py:21-105 | Both threads blocked: either the queue is full while the consumer holds an item to put back, or the queue is empty after the producer has finished. |
| Interleaving.RunInv | speak/speak.py:62-105 | The two-thread invariant holds after every schedule. |
| Interleaving.ProducerStep | speak/speak.py:64-72 | A producer move only appends to the queue, at most one item, and never beyond the capacity of 5. It leaves the consumer's state alone (`next_index`, the play log, the played files, `stopped` and the held item), and it handles one more sentence or puts the sentinel. |
| Interleaving.ConsumerStep | speak/speak.py:80-100 | A consumer move leaves the producer's state alone and never overfills the queue. It never adds to what is pending, and what was played stays played. |
| Interleaving.WellFormedInsert | speak/speak.py:69 | Queuing a fresh file keeps the shared state well formed. |
| Interleaving.PlaybackOrderUnderAnySchedule | speak/speak.py:21-105 | Under any interleaving, the queue holds at most 5 items. ffplay gets exactly `temp_0.opus` ... `temp_{n-1}.opus`, each once. `n` never passes the first failure. |
| Interleaving.RequeueCanDeadlock | speak/speak.py:21-105 | One schedule ends with both threads blocked on a `put` into a full queue. |
| Interleaving.FillsQueue | speak/speak.py:64-69 | When sentence 0 fails, six producer moves (the failure, then five puts) fill the queue with exactly items 1 to 5, in order. |
| Interleaving.FailureSilencesLater | speak/speak.py:67-100 | After sentence 0 fails, the two later successes are never played. |
| Corrected.ProducerCanMove | speak/speak.py:64-72 | The corrected producer moves only when the queue has room, and it then always moves until it has put the sentinel. A failed sentence waits for room like a success, since it is queued too. |
| Corrected.ProducerStep | speak/speak.py:64-72 | The corrected producer move appends at most one item, respects the capacity and leaves the consumer alone: `next_index`, the play log, the played files, `stopped` and the held item. |
| Corrected.ConsumerStep | speak/speak.py:80-100 | The corrected consumer move leaves the producer alone, never overfills the queue and never adds to what is pending. |
| Corrected.FixedTake | speak/speak.py:82-100 | The corrected `get` still removes the head. |
| Corrected.RunInv | speak/speak.py:62-105 | The corrected invariant holds after every schedule: the queue is exactly the outcomes not yet consumed, and the play log is every success before `next_index`. |
| Corrected.NoDeadlockUnderAnySchedule | speak/speak.py:62-105 | With the correction, some thread can always move until playback stops. |
| Corrected.StepMakesProgress | speak/speak.py:62-105 | Every possible move shrinks the work left. |
| Corrected.Finish | speak/speak.py:62-105 | From any reachable state, some schedule stops playback having played every success in order. |
| Corrected.CompletesFromStart | speak/speak.py:62-105 | From the start, every success is played, in order. |
| Speak.TrimSentences | speak/speak.py:113-114 | Always a prefix. `None`, `0` or a large count keeps everything, a count below the length keeps that many, and a negative count drops that many from the end. |
| Speak.PrefixSlice | speak/speak.py:114 | Python's `s[:k]` for either sign of `k`. |
| Speak.Payloads | speak/speak.py:29 | The `"text"` of each post is the stripped sentence, in order. |
| Speak.PayloadsOfSentences | speak/speak.py:29 | Segmented sentences are posted exactly as queued. |
| Speak.Spoken | speak/speak.py:189-191 | `speech_worker` plays `temp_0.opus` once per success and nothing for a failure. |
| Speak.TextToSpeechStreamer.constructor | speak/speak.py:18-24 | The given `api_url` is kept, defaulting to the local service at port 8848. `is_running` is false, `total_sentences` is 0 and the queue is empty. |
| Speak.TextToSpeechStreamer.SynthesizeSentence | speak/speak.py:26-47 | It posts the stripped sentence. On status 200 it writes `temp_<index>.opus` and returns it; otherwise it returns `None`. |
| Speak.TextToSpeechStreamer.PlayAudio | speak/speak.py:49-60 | ffplay is handed the path. The result is `True` unless the path is `None`. |
| Speak.TextToSpeechStreamer.SynthesisWorker | speak/speak.py:62-72 | When running, it queues `Produced(responses)` then the sentinel, writes `Written(responses)` and posts every sentence. When not running, it queues only the sentinel. |
| Speak.TextToSpeechStreamer.PlaybackWorker | speak/speak.py:74-105 | The loop's effect on the queue, the disk and ffplay is `Drain` from `next_index = 0`. |
| Speak.TextToSpeechStreamer.GenerateContinuousSpeech | speak/speak.py:107-141 | It posts every trimmed sentence. From an empty queue, ffplay plays `temp_0.opus` ... up to the first failure `g`. The items of the later successes stay queued, in order, exactly `Produced(responses)[g..]`. Only the played files are deleted. |
| Speak.SpeakSentence | speak/speak.py:185-196 | One sentence is posted as index 0. On success `temp_0.opus` is played and removed. The streamer's queue, `is_running` and `total_sentences` are unchanged. |
| Speak.ProcessStreamChunk | speak/speak.py:152-161 | An object whose `message` has a `content` gives that content. Anything else gives "": a dict, an object without `message`, and a message without `content`. |
| Speak.Contents | speak/speak.py:225-231 | At most one content per chunk: falsy chunks are skipped. |
| Speak.RunStreamSnoc | speak/speak.py:225-235 | A falsy chunk changes nothing. A truthy one is one more pass of the loop. |
| Speak.DictStreamIsSilent | speak/speak.py:152-161 | A stream of dicts queues no sentence at all. |
| Speak.StreamToSpeech.constructor | speak/speak.py:146-150 | Empty sentence queue, not running, a fresh streamer. |
| Speak.StreamToSpeech.PutCleaned | speak/speak.py:173-175 | The queue grows by exactly `Cleaned(segments)`. |
| Speak.StreamToSpeech.AccumulateAndProcessSentences | speak/speak.py:163-178 | The queue and the result agree with `Accumulate(..., true)`. |
| Speak.StreamToSpeech.StartSpeaking | speak/speak.py:203-207 | Sets `is_running`. |
| Speak.StreamToSpeech.StopSpeaking | speak/speak.py:209-213 | Clears `is_running`. |
| Speak.StreamToSpeech.SpeechWorker | speak/speak.py:180-201 | When running, it empties the queue first in, first out. It posts each sentence and plays `Spoken(responses)`. `temp_0.opus` is gone afterwards if anything played. The streamer's queue, `is_running` and `total_sentences` are unchanged. |
| Speak.StreamToSpeech.AccumulateStream | speak/speak.py:222-235 | The loop enqueues `Run(...).queued` and leaves `Run(...).rest` in the accumulator. |
| Speak.StreamToSpeech.ProcessStream | speak/speak.py:215-249 | Every queued sentence and then the segmented stream is posted, in order and exactly as segmented, and `Spoken(responses)` is played. The worker is stopped at the end. On the streamer, `temp_0.opus` is gone if anything played, and its queue, `is_running` and `total_sentences` are unchanged. |
| OllamaSpeak.ProcessStreamChunk | speak/ollama_speak.py:16-28 | Anything but a dict with `'message'` reads as the text "none". Such a dict gives its message's `'content'`, or "" when that key is missing and the lookup raises. |
| OllamaSpeak.NoneContents | speak/ollama_speak.py:20-23 | A stream of objects gives "none" once per chunk. |
| OllamaSpeak.ObjectStreamSpeaksNone | speak/ollama_speak.py:16-28 | For such a stream nothing is segmented on the way, and the flush speaks the concatenated "nonenone...". |
| OllamaSpeak.NoTerminalInNone | speak/ollama_speak.py:97 | "none" has no terminal punctuation. |
| OllamaSpeak.StreamToSpeech.constructor | speak/ollama_speak.py:10-14 | Empty sentence queue, not running. |
| OllamaSpeak.StreamToSpeech.PutCleaned | speak/ollama_speak.py:36-38 | The queue grows by exactly `Cleaned(segments)`. |
| OllamaSpeak.StreamToSpeech.AccumulateAndProcessSentences | speak/ollama_speak.py:30-41 | The queue and the result agree with the unguarded `Accumulate`. |
| OllamaSpeak.StreamToSpeech.StartSpeaking | speak/ollama_speak.py:66-70 | Sets `is_running`. |
| OllamaSpeak.StreamToSpeech.StopSpeaking | speak/ollama_speak.py:72-76 | Clears `is_running`. |
| OllamaSpeak.StreamToSpeech.SpeechWorker | speak/ollama_speak.py:43-64 | When running, it empties the queue first in, first out. It posts each sentence and plays `Spoken(responses)`. `temp_0.opus` is gone afterwards if anything played. The streamer's queue, `is_running` and `total_sentences` are unchanged. |
| OllamaSpeak.StreamToSpeech.AccumulateStream | speak/ollama_speak.py:85-98 | The loop enqueues `Run(..., false, ...).queued`. |
| OllamaSpeak.StreamToSpeech.ProcessStream | speak/ollama_speak.py:78-112 | Everything queued and then segmented is posted, in order and exactly as segmented, and `Spoken(responses)` is played. The worker is stopped at the end. On the streamer, `temp_0.opus` is gone if anything played, and its queue, `is_running` and `total_sentences` are unchanged. |
| Hear.IsYeti | hear/main.py:24 | A qualifying device has at least one input channel. |
| Hear.YetiIgnoresCase | hear/main.py:24 | The name test ignores case: lower-casing a name never changes whether its device qualifies. |
| Hear.FirstYeti | hear/main.py:22-26 | The lowest index whose device qualifies; none before it qualifies. |
| Hear.FindYeti | hear/main.py:22-29 | It finds a device exactly when some device qualifies, and then the first one. Otherwise it raises "Yeti microphone not found!". |
| Hear.ListAudioDevices | hear/main.py:122-132 | The listed indices are exactly those with input channels, in increasing order. |
| Hear.CleanTranscript | hear/main.py:103-107 | The result has no surrounding whitespace and is never longer than the output. |
| Hear.CleanTranscriptUnmarked | hear/main.py:103-107 | Without any marker, the result is `stdout.strip()`. |
| Hear.StripKeepsAbsent | hear/main.py:105-107 | A marker absent from a string is absent from its strip. |
| Hear.TranscribeAudio | hear/main.py:97-120 | The WAV is gone afterwards on every path. The result is `None` on `CalledProcessError`. A raise happens only when the WAV was missing after a normal exit. |
| Hear.Listen | hear/main.py:134-155 | The result is one of: the message when no Yeti is found; the recording's exception message; the non-empty transcription, or "No transcription found". The WAV never stays on disk. |

## Left out

- Thread timing. `get(timeout=1)`, `queue.Empty`, `time.sleep(2)` and `join()` are not modelled. In `Interleaving`, a synthesis and its `put` are one move, so a producer blocked on a full queue has not yet posted its sentence or written its file. In the source, `synthesize_sentence` writes `temp_i.opus` before the `put` at speak/speak.py:69 blocks.
- `Speak.StreamToSpeech.ProcessStream` and `OllamaSpeak.StreamToSpeech.ProcessStream` run the speech worker after the stream is consumed, and to the end of the queue. In the source the worker runs beside the stream loop, and `stop_speaking` can stop it while sentences are still queued.
- `Speak.TextToSpeechStreamer.GenerateContinuousSpeech` runs the producer to its end and then the consumer. The queue is therefore unbounded there. The bounded queue and every interleaving are the `Interleaving` module.
- `get_long_phrase` is called but not defined in the file, so the phrase is a parameter.
- `sent_tokenize` is uninterpreted. Where it places boundaries is not modelled.
- HTTP, ffplay, file writes and the microphone are parameters or the `files`/`requests`/`playLog` fields. Printed output is not modelled. `headers` is used only by the HTTP call. `current_index` is set to 0 and never used.
- `Speak.TextToSpeechStreamer.PlayAudio`: it assumes ffplay is installed. A missing ffplay also makes `subprocess.run` raise.
- `Speak.TextToSpeechStreamer.PlaybackWorker`: the `continue` after `sentinel_count >= 1` can never run and is not modelled.
- `Text.Lower` and `Hear.IsYeti`: `lower()` is modelled for ASCII letters only.
- `Speak.ProcessStreamChunk` and `OllamaSpeak.ProcessStreamChunk`: content is modelled as a string. A non-string content, and a `'message'` value that is not a dict, are not modelled.
- hear/main.py recording: the input stream and callback queue, numpy concatenation, scipy resampling with its float sample count, the int16 conversion and the timestamped file name are not modelled. `Hear.Listen` takes the recording's outcome as the parameter `record`.
- `Hear.TranscribeAudio`: exceptions from `subprocess.run` other than `CalledProcessError` are not modelled.

## Findings

| source | as written | input that shows it | evidently intended | confidence | as-written member | corrected member |
|---|---|---|---|---|---|---|
| speak/speak.py:21-105 | A failed sentence is never queued, and out-of-turn items are put back into the same 5-slot queue. Both threads can block on `put` forever. | Sentence 0 fails and sentences 1–6 succeed. The producer queues 1–5, the consumer gets 1 and must put it back, and the producer fills the slot with 6. | A failure is consumed in its turn, and playback always progresses to the end. | not executed | Interleaving.RequeueCanDeadlock | Corrected.NoDeadlockUnderAnySchedule |
| speak/speak.py:67-69, 92-100 | `next_index` can never pass a failed sentence, so no later sentence is played. | The responses `[exception, 200, 200]`: ffplay is never called. | Skip the failed sentence and play every later success in order. | not executed | Interleaving.FailureSilencesLater | Corrected.CompletesFromStart |
