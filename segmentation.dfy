/**
 * The incremental sentence segmenter shared by the two `StreamToSpeech`
 * classes (speak/speak.py and speak/ollama_speak.py), as functions on
 * values: one call of `accumulate_and_process_sentences`, one pass of the
 * `process_stream` loop, and the end-of-stream flush. The two copies differ
 * only in the whitespace guard, given here by the flag `guarded`.
 */
module Segmentation {
  import opened Text

  /**
   * NLTK's `sent_tokenize`, left uninterpreted: any total function from a
   * string to its segments. Where it places boundaries is its own concern.
   */
  type Splitter = string -> seq<string>

  /** What the segmenter may put on `sentence_queue`: non-blank and stripped. */
  predicate IsSentence(t: string) {
    !IsBlank(t) && IsStripped(t)
  }

  /** What one segment contributes to the queue: its strip, unless that is empty. */
  function Clean(segment: string): (r: seq<string>)
    ensures r == [] <==> IsBlank(segment)
    ensures forall k :: 0 <= k < |r| ==> IsSentence(r[k])
    ensures r != [] ==> r == [Strip(segment)]
  {
    if Strip(segment) != [] then [Strip(segment)] else []
  }

  /** What a run of segments contributes, in order: the strip of each segment that is not blank. */
  function Cleaned(segments: seq<string>): (r: seq<string>)
    ensures |r| <= |segments|
    ensures forall k :: 0 <= k < |r| ==> IsSentence(r[k])
  {
    if segments == [] then []
    else Cleaned(segments[..|segments| - 1]) + Clean(segments[|segments| - 1])
  }

  /** Cleaning a prefix one segment longer appends that segment's contribution. */
  lemma CleanedSnoc(segments: seq<string>, i: nat)
    requires i < |segments|
    ensures Cleaned(segments[..i + 1]) == Cleaned(segments[..i]) + Clean(segments[i])
  {
    assert segments[..i + 1][..i] == segments[..i];
  }

  /** Cleaning two runs of segments one after the other gives the two contributions in order. */
  lemma {:induction false} CleanedAppend(a: seq<string>, b: seq<string>)
    ensures Cleaned(a + b) == Cleaned(a) + Cleaned(b)
    decreases |b|
  {
    if b != [] {
      var init, last := b[..|b| - 1], b[|b| - 1];
      assert (a + b)[..|a + b| - 1] == a + init;
      CleanedAppend(a, init);
    } else {
      assert a + b == a;
    }
  }

  /** With no blank segment, every segment is kept, stripped, in order. */
  lemma {:induction false} CleanedAllNonBlank(segments: seq<string>)
    requires forall k :: 0 <= k < |segments| ==> !IsBlank(segments[k])
    ensures |Cleaned(segments)| == |segments|
    ensures forall k :: 0 <= k < |segments| ==> Cleaned(segments)[k] == Strip(segments[k])
  {
    if segments != [] {
      var init, last := segments[..|segments| - 1], segments[|segments| - 1];
      assert forall k :: 0 <= k < |init| ==> init[k] == segments[k];
      CleanedAllNonBlank(init);
      assert Clean(last) == [Strip(last)];
      var c, ci := Cleaned(segments), Cleaned(init);
      assert c == ci + [Strip(last)];
      forall k | 0 <= k < |segments|
        ensures c[k] == Strip(segments[k])
      {
        if k < |init| {
          assert c[k] == ci[k];
        }
      }
    }
  }

  /** Every enqueued string is the strip of some non-blank segment. */
  lemma {:induction false} CleanedFromSegment(segments: seq<string>, i: nat)
    requires i < |Cleaned(segments)|
    ensures exists k :: 0 <= k < |segments| && Clean(segments[k]) == [Cleaned(segments)[i]]
  {
    var init, last := segments[..|segments| - 1], segments[|segments| - 1];
    var c := Cleaned(init);
    if i < |c| {
      CleanedFromSegment(init, i);
      var k :| 0 <= k < |init| && Clean(init[k]) == [c[i]];
      assert segments[k] == init[k];
    } else {
      assert Clean(segments[|segments| - 1]) == [Cleaned(segments)[i]];
    }
  }

  /** Every non-blank segment has its strip enqueued. */
  lemma {:induction false} CleanedKeepsSegment(segments: seq<string>, k: nat)
    requires k < |segments| && !IsBlank(segments[k])
    ensures Strip(segments[k]) in Cleaned(segments)
  {
    var init, last := segments[..|segments| - 1], segments[|segments| - 1];
    if k < |init| {
      assert init[k] == segments[k];
      CleanedKeepsSegment(init, k);
    } else {
      assert Clean(last) == [Strip(last)];
    }
  }

  /** Result of one segmentation call: what was enqueued, and the new accumulator. */
  datatype Outcome = Outcome(queued: seq<string>, rest: string)

  /**
   * `accumulate_and_process_sentences(acc)`. With `guarded` (speak/speak.py)
   * a blank accumulator is returned at once; without it (speak/ollama_speak.py)
   * it is split like any other. When the split gives more than one segment,
   * all but the last are enqueued and the last, unstripped, is kept.
   */
  function Accumulate(split: Splitter, acc: string, guarded: bool): (o: Outcome)
    ensures forall k :: 0 <= k < |o.queued| ==> IsSentence(o.queued[k])
    ensures o.rest == acc || (|split(acc)| > 1 && o.rest == split(acc)[|split(acc)| - 1])
    ensures o.queued != [] ==> |o.queued| < |split(acc)|
  {
    if guarded && IsBlank(acc) then Outcome([], acc)
    else
      var segments := split(acc);
      if |segments| > 1 then Outcome(Cleaned(segments[..|segments| - 1]), segments[|segments| - 1])
      else Outcome([], acc)
  }

  /** A blank accumulator under the guard, or a split into at most one segment, changes nothing. */
  lemma AccumulateKeeps(split: Splitter, acc: string, guarded: bool)
    requires (guarded && IsBlank(acc)) || |split(acc)| <= 1
    ensures Accumulate(split, acc, guarded) == Outcome([], acc)
  {
  }

  /**
   * Withholding: when the split gives k + 1 > 1 segments of which the first
   * k are not blank, exactly those k are enqueued, stripped and in order, and
   * the (k + 1)-th is kept whatever it holds.
   */
  lemma AccumulateWithholds(split: Splitter, acc: string, guarded: bool)
    requires !(guarded && IsBlank(acc))
    requires |split(acc)| > 1
    requires forall k :: 0 <= k < |split(acc)| - 1 ==> !IsBlank(split(acc)[k])
    ensures var o := Accumulate(split, acc, guarded);
      && |o.queued| == |split(acc)| - 1
      && (forall k :: 0 <= k < |o.queued| ==> o.queued[k] == Strip(split(acc)[k]))
      && o.rest == split(acc)[|split(acc)| - 1]
  {
    var segments := split(acc);
    var init := segments[..|segments| - 1];
    assert forall k :: 0 <= k < |init| ==> init[k] == segments[k];
    CleanedAllNonBlank(init);
  }

  /** The blank guard matters only for a blank accumulator. */
  lemma GuardOnlyForBlank(split: Splitter, acc: string)
    requires !IsBlank(acc)
    ensures Accumulate(split, acc, true) == Accumulate(split, acc, false)
  {
  }

  /** A content that may end a sentence: it holds a full stop, an exclamation mark or a question mark. */
  predicate HasTerminal(content: string)
    ensures HasTerminal(content) <==> exists i :: 0 <= i < |content| && content[i] in ['.', '!', '?']
  {
    '.' in content || '!' in content || '?' in content
  }

  /** The end-of-stream flush: a non-blank buffer has all its non-blank segments enqueued, stripped. */
  function Flush(split: Splitter, acc: string): (r: seq<string>)
    ensures forall k :: 0 <= k < |r| ==> IsSentence(r[k])
    ensures IsBlank(acc) ==> r == []
  {
    if IsBlank(acc) then [] else Cleaned(split(acc))
  }

  /** The flush emits the last segment too, even with no terminal punctuation. */
  lemma FlushKeepsLast(split: Splitter, acc: string)
    requires !IsBlank(acc) && split(acc) != [] && !IsBlank(split(acc)[|split(acc)| - 1])
    ensures Flush(split, acc) != []
    ensures Flush(split, acc)[|Flush(split, acc)| - 1] == Strip(split(acc)[|split(acc)| - 1])
  {
  }

  /** One pass of the stream loop, for a truthy chunk whose content is `content`. */
  function Feed(split: Splitter, guarded: bool, o: Outcome, content: string): (r: Outcome)
    ensures o.queued <= r.queued
    ensures !HasTerminal(content) ==> r == Outcome(o.queued, o.rest + content)
    ensures HasTerminal(content) ==>
      var a := Accumulate(split, o.rest + content, guarded);
      r.queued == o.queued + a.queued && r.rest == a.rest
  {
    var acc := o.rest + content;
    if HasTerminal(content) then
      var a := Accumulate(split, acc, guarded);
      Outcome(o.queued + a.queued, a.rest)
    else Outcome(o.queued, acc)
  }

  /** The stream loop over the contents of the truthy chunks, from an empty accumulator. */
  function Run(split: Splitter, guarded: bool, contents: seq<string>): (r: Outcome)
    ensures forall k :: 0 <= k < |r.queued| ==> IsSentence(r.queued[k])
  {
    if contents == [] then Outcome([], "")
    else
      var o := Run(split, guarded, contents[..|contents| - 1]);
      var r := Feed(split, guarded, o, contents[|contents| - 1]);
      assert forall k :: |o.queued| <= k < |r.queued| ==>
        r.queued[k] == Accumulate(split, o.rest + contents[|contents| - 1], guarded).queued[k - |o.queued|];
      r
  }

  /** One more content is one more pass of the loop. */
  lemma RunSnoc(split: Splitter, guarded: bool, contents: seq<string>, c: string)
    ensures Run(split, guarded, contents + [c]) == Feed(split, guarded, Run(split, guarded, contents), c)
  {
    assert (contents + [c])[..|contents|] == contents;
  }

  /** The full-length prefix of the segments is the segments themselves. */
  lemma CleanedPrefixAll(segments: seq<string>)
    ensures Cleaned(segments[..|segments|]) == Cleaned(segments)
  {
    assert segments[..|segments|] == segments;
  }

  /** The contents joined end to end, with no separator. */
  function Concat(contents: seq<string>): string {
    if contents == [] then "" else Concat(contents[..|contents| - 1]) + contents[|contents| - 1]
  }

  /**
   * When no content carries '.', '!' or '?', segmentation never runs: nothing
   * is enqueued and the buffer is the concatenation of everything received.
   */
  lemma {:induction false} RunWithoutTerminals(split: Splitter, guarded: bool, contents: seq<string>)
    requires forall k :: 0 <= k < |contents| ==> !HasTerminal(contents[k])
    ensures Run(split, guarded, contents) == Outcome([], Concat(contents))
  {
    if contents != [] {
      RunWithoutTerminals(split, guarded, contents[..|contents| - 1]);
    }
  }

  /** Everything `process_stream` puts on the queue: the loop's sentences, then the flush. */
  function Sentences(split: Splitter, guarded: bool, contents: seq<string>): (r: seq<string>)
    ensures forall k :: 0 <= k < |r| ==> IsSentence(r[k])
    ensures Run(split, guarded, contents).queued <= r
  {
    var o := Run(split, guarded, contents);
    var f := Flush(split, o.rest);
    assert forall k :: |o.queued| <= k < |o.queued + f| ==> (o.queued + f)[k] == f[k - |o.queued|];
    o.queued + f
  }

  /** Feeding more content never retracts a sentence already enqueued. */
  lemma {:induction false} RunAppendOnly(split: Splitter, guarded: bool, contents: seq<string>, n: nat)
    requires n <= |contents|
    ensures Run(split, guarded, contents[..n]).queued <= Run(split, guarded, contents).queued
    decreases |contents| - n
  {
    if n < |contents| {
      RunAppendOnly(split, guarded, contents, n + 1);
      assert contents[..n + 1][..n] == contents[..n];
    } else {
      assert contents[..n] == contents;
    }
  }
}
