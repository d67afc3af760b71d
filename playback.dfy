/**
 * `TextToSpeechStreamer` of speak/speak.py as functions on values: the
 * status-to-file choice of `synthesize_sentence`, what `synthesis_worker`
 * puts on `synthesis_queue`, and one iteration of `playback_worker`'s loop,
 * including the put-back of an item whose turn has not come. `Drain` runs
 * that loop alone on a queue that no longer changes from outside, until the
 * first sentinel is dequeued.
 */
module Playback {
  import opened Wrappers
  import opened Text

  /** An entry of `synthesis_queue`: `(index, file_path)`. */
  datatype Item = Item(index: int, path: Option<string>)

  /** The end marker the producer puts last: index -1 and no file. */
  const Sentinel: Item := Item(-1, None)

  /** `synthesis_queue` holds at most five items. */
  const Capacity: nat := 5

  /** What `requests.post` gave back: an HTTP status, or an exception. */
  datatype Response = Status(code: int) | Raised

  predicate Succeeded(r: Response) {
    r == Status(200)
  }

  /** The file a synthesised sentence is written to: `temp_`, the index in decimal, then `.opus`. */
  function FileName(index: nat): string {
    "temp_" + NatToString(index) + ".opus"
  }

  /** Files are named by index without collisions: distinct indices give distinct names. */
  lemma FileNameInjective(a: nat, b: nat)
    requires FileName(a) == FileName(b)
    ensures a == b
  {
    var s := FileName(a);
    assert NatToString(a) == s[5..|s| - 5];
    assert NatToString(b) == s[5..|s| - 5];
    NatToStringInjective(a, b);
  }

  /** `synthesize_sentence`'s result: the file for `index` on HTTP 200, `None` on any other status or an exception. */
  function SynthesisResult(r: Response, index: nat): (path: Option<string>)
    ensures path.Some? <==> Succeeded(r)
    ensures path.Some? ==> path.value == FileName(index)
  {
    if r.Status? && r.code == 200 then Some(FileName(index)) else None
  }

  /**
   * What `synthesis_worker` puts, before the sentinel, when sentence `i`
   * got response `rs[i]`: `(i, temp_i.opus)` for each success, in order.
   */
  function Produced(rs: seq<Response>): (q: seq<Item>)
    ensures |q| <= |rs|
    ensures (forall i :: 0 <= i < |rs| ==> Succeeded(rs[i])) ==> |q| == |rs|
  {
    if rs == [] then []
    else
      var i := |rs| - 1;
      var path := SynthesisResult(rs[i], i);
      Produced(rs[..i]) + (if path.Some? then [Item(i, path)] else [])
  }

  /**
   * Each produced item is `(i, temp_i.opus)` for a sentence `i` that
   * succeeded, and the indices strictly increase.
   */
  lemma {:induction false} ProducedItems(rs: seq<Response>)
    ensures forall j :: 0 <= j < |Produced(rs)| ==>
      && 0 <= Produced(rs)[j].index < |rs|
      && Succeeded(rs[Produced(rs)[j].index])
      && Produced(rs)[j].path == Some(FileName(Produced(rs)[j].index))
    ensures forall j, k :: 0 <= j < k < |Produced(rs)| ==> Produced(rs)[j].index < Produced(rs)[k].index
  {
    if rs != [] {
      var i := |rs| - 1;
      var init, q := Produced(rs[..i]), Produced(rs);
      ProducedItems(rs[..i]);
      assert forall j :: 0 <= j < |init| ==> q[j] == init[j];
      assert forall j :: 0 <= j < |init| ==> rs[..i][init[j].index] == rs[init[j].index];
    }
  }

  /** The files `synthesis_worker` writes: `temp_i.opus` for each success. */
  function Written(rs: seq<Response>): (w: set<string>)
    ensures (forall i :: 0 <= i < |rs| ==> !Succeeded(rs[i])) ==> w == {}
  {
    if rs == [] then {}
    else
      var i := |rs| - 1;
      Written(rs[..i]) + (if Succeeded(rs[i]) then {FileName(i)} else {})
  }

  /** Every sentence that synthesised has its file written. */
  lemma {:induction false} WrittenComplete(rs: seq<Response>)
    ensures forall i :: 0 <= i < |rs| && Succeeded(rs[i]) ==> FileName(i) in Written(rs)
  {
    if rs != [] {
      var n := |rs| - 1;
      WrittenComplete(rs[..n]);
      assert forall j :: 0 <= j < n ==> rs[..n][j] == rs[j];
    }
  }

  /** Only sentences that synthesised have a file written: it is `temp_i.opus` for one of them. */
  lemma {:induction false} WrittenSound(rs: seq<Response>, x: string)
    requires x in Written(rs)
    ensures exists i :: 0 <= i < |rs| && Succeeded(rs[i]) && x == FileName(i)
  {
    var n := |rs| - 1;
    if x != FileName(n) || !Succeeded(rs[n]) {
      WrittenSound(rs[..n], x);
      var i :| 0 <= i < n && Succeeded(rs[..n][i]) && x == FileName(i);
      assert rs[..n][i] == rs[i];
    }
  }

  /** Every sentence that synthesised has its item queued: nothing successful is lost. */
  lemma {:induction false} ProducedComplete(rs: seq<Response>, i: nat)
    requires i < |rs| && Succeeded(rs[i])
    ensures Item(i, Some(FileName(i))) in Produced(rs)
  {
    var n := |rs| - 1;
    if i < n {
      assert rs[..n][i] == rs[i];
      ProducedComplete(rs[..n], i);
    }
  }

  /** The items produced for the first `n` responses come first. */
  lemma {:induction false} ProducedPrefix(rs: seq<Response>, n: nat)
    requires n <= |rs|
    ensures Produced(rs[..n]) <= Produced(rs)
    decreases |rs| - n
  {
    if n < |rs| {
      ProducedPrefix(rs[..|rs| - 1], n);
      assert rs[..|rs| - 1][..n] == rs[..n];
    } else {
      assert rs[..n] == rs;
    }
  }

  /** Sentence `n` adds its item to what the first `n` produced exactly when it succeeded. */
  lemma ProducedSnoc(rs: seq<Response>, n: nat)
    requires n < |rs|
    ensures Produced(rs[..n + 1]) == Produced(rs[..n]) + (if Succeeded(rs[n]) then [Item(n, Some(FileName(n)))] else [])
  {
    assert rs[..n + 1][..n] == rs[..n];
  }

  /** Sentence `n` adds its file to what the first `n` wrote exactly when it succeeded. */
  lemma WrittenSnoc(rs: seq<Response>, n: nat)
    requires n < |rs|
    ensures Written(rs[..n + 1]) == Written(rs[..n]) + (if Succeeded(rs[n]) then {FileName(n)} else {})
  {
    assert rs[..n + 1][..n] == rs[..n];
  }

  /** The first failed index, or the number of sentences when none failed. */
  function FirstFailure(rs: seq<Response>): (g: nat)
    ensures g <= |rs|
    ensures forall i :: 0 <= i < g ==> Succeeded(rs[i])
    ensures g < |rs| ==> !Succeeded(rs[g])
  {
    if rs == [] || !Succeeded(rs[0]) then 0
    else
      var g := FirstFailure(rs[1..]);
      assert forall i :: 1 <= i < g + 1 ==> rs[i] == rs[1..][i - 1];
      1 + g
  }

  /** `[(a, temp_a.opus), (a+1, temp_{a+1}.opus), ...]`, `m` items. */
  function Consecutive(a: nat, m: nat): (q: seq<Item>)
    ensures |q| == m
  {
    seq(m, k requires 0 <= k < m => Item(a + k, Some(FileName(a + k))))
  }

  /** Before the first failure, the producer's items are exactly 0, 1, ..., in order. */
  lemma {:induction false} ProducedAllSucceeded(rs: seq<Response>)
    requires forall i :: 0 <= i < |rs| ==> Succeeded(rs[i])
    ensures Produced(rs) == Consecutive(0, |rs|)
  {
    if rs != [] {
      var n := |rs| - 1;
      ProducedAllSucceeded(rs[..n]);
      assert Produced(rs) == Consecutive(0, n) + [Item(n, Some(FileName(n)))];
    }
  }

  /** `[temp_a.opus, ..., temp_{b-1}.opus]`: what playback of indices a..b-1 hands to ffplay. */
  function Names(a: nat, b: nat): (r: seq<Option<string>>)
    ensures |r| == if a <= b then b - a else 0
    decreases b - a
  {
    if b <= a then [] else [Some(FileName(a))] + Names(a + 1, b)
  }

  /** Each file appears at most once in a run of names. */
  lemma {:induction false} NamesDistinct(a: nat, b: nat, j: nat, k: nat)
    requires a <= b && j < k < b - a
    ensures Names(a, b)[j] != Names(a, b)[k]
    decreases b - a
  {
    if j == 0 {
      NamesAt(a + 1, b, k - 1);
      if FileName(a) == FileName(a + k) {
        FileNameInjective(a, a + k);
      }
    } else {
      NamesDistinct(a + 1, b, j - 1, k - 1);
    }
  }

  /** A run of names grows at its end. */
  lemma {:induction false} NamesSnoc(a: nat, b: nat)
    requires a <= b
    ensures Names(a, b) + [Some(FileName(b))] == Names(a, b + 1)
    decreases b - a
  {
    if a < b {
      NamesSnoc(a + 1, b);
    }
  }

  /** The k-th name of a run. */
  lemma {:induction false} NamesAt(a: nat, b: nat, k: nat)
    requires a <= b && k < b - a
    ensures Names(a, b)[k] == Some(FileName(a + k))
    decreases b - a
  {
    if k > 0 {
      NamesAt(a + 1, b, k - 1);
    }
  }

  /** The local state of `playback_worker` with the shared queue, the disk and the ffplay calls. */
  datatype PlayState = PlayState(
    queue: seq<Item>,                // synthesis_queue
    nextIndex: nat,                  // next_index
    playedFiles: set<Option<string>>,// played_files
    files: set<string>,              // files on disk
    playLog: seq<Option<string>>,    // the paths handed to play_audio, in order
    stopped: bool)                   // the first sentinel has been dequeued

  /** The result of a `get` and the decision on it; an out-of-turn item is `held` until it is put back. */
  datatype Taken = Taken(state: PlayState, held: Option<Item>)

  /**
   * One `get` from the queue and what the loop does with the item: a
   * sentinel stops the loop; an item whose index is `next_index` and whose
   * path has not been played is played, recorded and removed from disk, and
   * `next_index` moves on, unless `os.remove` raises (the file is missing),
   * which the loop's handler swallows, leaving `next_index` where it was;
   * any other item is held for the put-back.
   */
  function Take(s: PlayState): (t: Taken)
    requires s.queue != []
    ensures t.state.queue == s.queue[1..]
    ensures t.held.Some? <==>
      s.queue[0].index != -1 && !(s.queue[0].index == s.nextIndex && s.queue[0].path !in s.playedFiles)
    ensures t.held.Some? ==> t.held.value == s.queue[0] && t.state == s.(queue := s.queue[1..])
    ensures s.queue[0].index == -1 ==> t.state == s.(queue := s.queue[1..], stopped := true)
  {
    var head, rest := s.queue[0], s.queue[1..];
    if head.index == -1 then Taken(s.(queue := rest, stopped := true), None)
    else if head.index == s.nextIndex && head.path !in s.playedFiles then
      var played := s.(queue := rest, playLog := s.playLog + [head.path],
                       playedFiles := s.playedFiles + {head.path});
      if head.path.Some? && head.path.value in s.files then
        Taken(played.(files := s.files - {head.path.value}, nextIndex := s.nextIndex + 1), None)
      else Taken(played, None)
    else Taken(s.(queue := rest), Some(head))
  }

  /** `put` of a held item back at the tail. */
  function PutBack(t: Taken): (s: PlayState)
    ensures t.held.Some? ==> s == t.state.(queue := t.state.queue + [t.held.value])
    ensures t.held.None? ==> s == t.state
  {
    if t.held.Some? then t.state.(queue := t.state.queue + [t.held.value]) else t.state
  }

  /** One iteration of the loop when nothing else touches the queue: the put-back follows the get at once. */
  function Step(s: PlayState): (r: PlayState)
    requires s.queue != []
    ensures |r.queue| <= |s.queue|
    ensures s.playLog <= r.playLog && |r.playLog| <= |s.playLog| + 1
    ensures r.files <= s.files
    ensures r.nextIndex == s.nextIndex || r.nextIndex == s.nextIndex + 1
    ensures r.stopped <==> s.stopped || s.queue[0].index == -1
  {
    PutBack(Take(s))
  }

  /** Position of the first sentinel (an item with index -1), or the queue length when there is none. */
  function SentinelPos(q: seq<Item>): (p: nat)
    ensures p <= |q|
    ensures p < |q| ==> q[p].index == -1
    ensures forall j :: 0 <= j < p ==> q[j].index != -1
  {
    if q == [] || q[0].index == -1 then 0 else 1 + SentinelPos(q[1..])
  }

  predicate HasSentinel(q: seq<Item>) {
    SentinelPos(q) < |q|
  }

  /** The first sentinel of `a` stays the first sentinel of `a + b`. */
  lemma {:induction false} SentinelPosAppend(a: seq<Item>, b: seq<Item>)
    requires HasSentinel(a)
    ensures SentinelPos(a + b) == SentinelPos(a)
  {
    if a[0].index != -1 {
      assert (a + b)[1..] == a[1..] + b;
      SentinelPosAppend(a[1..], b);
    }
  }

  /** Each non-sentinel step brings the first sentinel one place closer to the head. */
  lemma StepAdvancesSentinel(s: PlayState)
    requires HasSentinel(s.queue) && s.queue[0].index != -1
    ensures HasSentinel(Step(s).queue)
    ensures SentinelPos(Step(s).queue) == SentinelPos(s.queue) - 1
  {
    var rest := s.queue[1..];
    if Take(s).held.Some? {
      SentinelPosAppend(rest, [s.queue[0]]);
    }
  }

  /**
   * `playback_worker` run alone until the first sentinel is dequeued. It
   * terminates on every queue holding a sentinel: each iteration moves the
   * first sentinel one place forward.
   */
  function Drain(s: PlayState): (r: PlayState)
    requires HasSentinel(s.queue)
    ensures r.stopped
    decreases SentinelPos(s.queue)
  {
    if s.queue[0].index == -1 then Step(s)
    else
      StepAdvancesSentinel(s);
      Drain(Step(s))
  }

  /**
   * The state the producer and the loop keep: every queued item other than
   * a sentinel is `(i, temp_i.opus)` with `i` not yet played, its file is on
   * disk and has not been played, and no index is queued twice.
   */
  ghost predicate WellFormed(s: PlayState) {
    && (forall j :: 0 <= j < |s.queue| && s.queue[j].index != -1 ==>
          && s.queue[j].index >= s.nextIndex
          && s.queue[j].path == Some(FileName(s.queue[j].index))
          && FileName(s.queue[j].index) in s.files
          && Some(FileName(s.queue[j].index)) !in s.playedFiles)
    && (forall j, k :: 0 <= j < k < |s.queue| && s.queue[j].index != -1 ==>
          s.queue[j].index != s.queue[k].index)
  }

  /**
   * In a well-formed state an item in its turn is always played, its file
   * removed and the index advanced: the `played_files` test and `os.remove`
   * never fail.
   */
  lemma InTurnPlays(s: PlayState)
    requires WellFormed(s) && s.queue != [] && s.queue[0].index == s.nextIndex
    ensures Step(s) == s.(queue := s.queue[1..],
                          nextIndex := s.nextIndex + 1,
                          playLog := s.playLog + [Some(FileName(s.nextIndex))],
                          playedFiles := s.playedFiles + {Some(FileName(s.nextIndex))},
                          files := s.files - {FileName(s.nextIndex)})
  {
  }

  /** One iteration keeps the state well formed, and plays only in turn. */
  lemma StepWellFormed(s: PlayState)
    requires WellFormed(s) && s.queue != []
    ensures WellFormed(Step(s))
    ensures Step(s).nextIndex == s.nextIndex || Step(s).nextIndex == s.nextIndex + 1
    ensures Step(s).nextIndex == s.nextIndex + 1 <==>
      (s.queue[0].index == s.nextIndex && s.queue[0].index != -1)
    ensures Step(s).playLog == s.playLog + (if Step(s).nextIndex == s.nextIndex then []
                                           else [Some(FileName(s.nextIndex))])
    ensures Step(s).nextIndex == s.nextIndex ==> |Step(s).queue| == |s.queue| || s.queue[0].index == -1
    ensures Step(s).nextIndex == s.nextIndex + 1 ==> |Step(s).queue| == |s.queue| - 1
  {
    var q, head, n := s.queue, s.queue[0], s.nextIndex;
    var r := Step(s);
    if head.index != -1 && head.index == n {
      forall j | 0 <= j < |r.queue| && r.queue[j].index != -1
        ensures FileName(r.queue[j].index) != FileName(n)
      {
        assert r.queue[j] == q[j + 1];
        if FileName(r.queue[j].index) == FileName(n) {
          FileNameInjective(r.queue[j].index, n);
        }
      }
    } else if head.index != -1 {
      assert r.queue == q[1..] + [head];
      forall j, k | 0 <= j < k < |r.queue| && r.queue[j].index != -1
        ensures r.queue[j].index != r.queue[k].index
      {
        assert r.queue[j] == q[j + 1];
        if k < |r.queue| - 1 {
          assert r.queue[k] == q[k + 1];
        }
      }
    }
  }

  /**
   * Played indices run consecutively: the loop hands ffplay exactly
   * temp_n.opus, temp_{n+1}.opus, ... from the index it started at, each once.
   */
  lemma {:induction false} DrainPlaysInOrder(s: PlayState)
    requires WellFormed(s) && HasSentinel(s.queue)
    ensures Drain(s).nextIndex >= s.nextIndex
    ensures Drain(s).playLog == s.playLog + Names(s.nextIndex, Drain(s).nextIndex)
    decreases SentinelPos(s.queue)
  {
    StepWellFormed(s);
    if s.queue[0].index != -1 {
      var r := Step(s);
      StepAdvancesSentinel(s);
      DrainPlaysInOrder(r);
      if r.nextIndex == s.nextIndex + 1 {
        ConcatAssoc(s.playLog, [Some(FileName(s.nextIndex))], Names(r.nextIndex, Drain(r).nextIndex));
      }
    }
  }

  /** A missing index blocks playback: if no queued item has index `j`, nothing from `j` on is ever played. */
  lemma {:induction false} DrainStopsAtGap(s: PlayState, j: nat)
    requires WellFormed(s) && HasSentinel(s.queue) && s.nextIndex <= j
    requires forall k :: 0 <= k < |s.queue| ==> s.queue[k].index != j
    ensures Drain(s).nextIndex <= j
    decreases SentinelPos(s.queue)
  {
    StepWellFormed(s);
    if s.queue[0].index != -1 {
      var r := Step(s);
      StepAdvancesSentinel(s);
      forall k | 0 <= k < |r.queue| ensures r.queue[k].index != j {
        if k < |s.queue| - 1 {
          assert r.queue[k] == s.queue[k + 1];
        } else {
          assert r.queue[k] == s.queue[0];
        }
      }
      DrainStopsAtGap(r, j);
    }
  }

  /** A sentinel in a suffix is a sentinel of the whole queue. */
  lemma {:induction false} SentinelInSuffix(a: seq<Item>, b: seq<Item>)
    requires HasSentinel(b)
    ensures HasSentinel(a + b)
  {
    if a == [] {
      assert a + b == b;
    } else if a[0].index != -1 {
      assert (a + b)[1..] == a[1..] + b;
      SentinelInSuffix(a[1..], b);
    }
  }

  /** Items queued in turn, ahead of the sentinel, are all played. */
  lemma {:induction false} DrainPlaysConsecutive(s: PlayState, m: nat)
    requires WellFormed(s) && m <= |s.queue|
    requires s.queue[..m] == Consecutive(s.nextIndex, m)
    requires HasSentinel(s.queue[m..])
    ensures HasSentinel(s.queue)
    ensures Drain(s).nextIndex >= s.nextIndex + m
    decreases m
  {
    assert s.queue == s.queue[..m] + s.queue[m..];
    SentinelInSuffix(s.queue[..m], s.queue[m..]);
    if m == 0 {
      DrainPlaysInOrder(s);
    } else {
      ConsecutiveStep(s, m);
      DrainPlaysConsecutive(Step(s), m - 1);
    }
  }

  /** Playing the head of a consecutive run leaves the rest of the run, from the next index, ahead of the sentinel. */
  lemma ConsecutiveStep(s: PlayState, m: nat)
    requires WellFormed(s) && 0 < m <= |s.queue|
    requires s.queue[..m] == Consecutive(s.nextIndex, m)
    requires HasSentinel(s.queue[m..]) && HasSentinel(s.queue)
    ensures s.queue[0].index != -1
    ensures WellFormed(Step(s)) && Step(s).nextIndex == s.nextIndex + 1 && m - 1 <= |Step(s).queue|
    ensures Step(s).queue[..m - 1] == Consecutive(Step(s).nextIndex, m - 1)
    ensures HasSentinel(Step(s).queue[m - 1..])
    ensures HasSentinel(Step(s).queue) && Drain(s) == Drain(Step(s))
    ensures Step(s).queue == s.queue[1..] && Step(s).files == s.files - {FileName(s.nextIndex)}
  {
    ConsecutiveSlices(s.queue, s.nextIndex, m);
    InTurnPlays(s);
    StepWellFormed(s);
    StepAdvancesSentinel(s);
  }

  /** A queue that starts with a consecutive run, seen from its second item. */
  lemma ConsecutiveSlices(q: seq<Item>, a: nat, m: nat)
    requires 0 < m <= |q| && q[..m] == Consecutive(a, m)
    ensures q[0] == Item(a, Some(FileName(a)))
    ensures q[1..][..m - 1] == Consecutive(a + 1, m - 1)
    ensures q[1..][m - 1..] == q[m..]
  {
    assert q[0] == q[..m][0];
    ConsecutiveTail(a, m);
    assert q[..m][1..] == q[1..][..m - 1];
  }

  /** Dropping the first of a consecutive run leaves the run from the next index. */
  lemma ConsecutiveTail(a: nat, m: nat)
    requires m > 0
    ensures Consecutive(a, m)[0] == Item(a, Some(FileName(a)))
    ensures Consecutive(a, m)[1..] == Consecutive(a + 1, m - 1)
  {
  }

  /**
   * One pass: when the first sentinel reaches the head, every item that was
   * ahead of it has been played or rotated once. The items that were behind
   * it are now at the front, in order, followed by the rotated ones.
   */
  lemma {:induction false} DrainIsOnePass(s: PlayState)
    requires WellFormed(s) && HasSentinel(s.queue)
    ensures var p, r := SentinelPos(s.queue), Drain(s);
      && s.queue[p + 1..] <= r.queue
      && |r.queue| == |s.queue| - 1 - (r.nextIndex - s.nextIndex)
    decreases SentinelPos(s.queue)
  {
    StepWellFormed(s);
    if s.queue[0].index != -1 {
      var r := Step(s);
      StepAdvancesSentinel(s);
      DrainIsOnePass(r);
      StepKeepsTail(s);
    }
  }

  /** A step that is not the sentinel's leaves what was behind the sentinel one place nearer the head. */
  lemma StepKeepsTail(s: PlayState)
    requires HasSentinel(s.queue) && s.queue[0].index != -1
    ensures SentinelPos(s.queue) > 0
    ensures s.queue[SentinelPos(s.queue) + 1..] <= Step(s).queue[SentinelPos(s.queue)..]
  {
    var p, q := SentinelPos(s.queue), Step(s).queue;
    assert q[..|s.queue| - 1] == s.queue[1..];
    assert s.queue[p + 1..] == s.queue[1..][p..];
  }

  /** `temp_a.opus` ... `temp_{b-1}.opus` as a set of file names. */
  function FilesIn(a: nat, b: nat): (r: set<string>)
    ensures forall k: nat :: a <= k < b ==> FileName(k) in r
  {
    set k: nat | a <= k < b :: FileName(k)
  }

  /** Deleting a range of file names one by one, from its first name. */
  lemma FilesRemoved(f: set<string>, a: nat, b: nat)
    requires a < b
    ensures (f - {FileName(a)}) - FilesIn(a + 1, b) == f - FilesIn(a, b)
  {
    assert FilesIn(a, b) == {FileName(a)} + FilesIn(a + 1, b) by {
      forall x | x in FilesIn(a, b)
        ensures x in {FileName(a)} + FilesIn(a + 1, b)
      {
        var k: nat :| a <= k < b && x == FileName(k);
        if k != a {
          assert a + 1 <= k < b;
        }
      }
    }
  }

  /** An empty range of file names deletes nothing. */
  lemma FilesNone(f: set<string>, a: nat)
    ensures f - FilesIn(a, a) == f
  {
    assert FilesIn(a, a) == {};
  }

  /**
   * When no queued item is in its turn, one pass of the loop puts every
   * item ahead of the first sentinel back in its order: what was behind
   * the sentinel comes first, followed by the rotated items, and nothing
   * else changes.
   */
  lemma {:induction false} DrainRotates(s: PlayState)
    requires HasSentinel(s.queue)
    requires forall k :: 0 <= k < |s.queue| ==> s.queue[k].index != s.nextIndex
    ensures var p := SentinelPos(s.queue);
      Drain(s) == s.(queue := s.queue[p + 1..] + s.queue[..p], stopped := true)
    decreases SentinelPos(s.queue)
  {
    var q, p := s.queue, SentinelPos(s.queue);
    if q[0].index == -1 {
      assert q[1..] + q[..0] == q[1..];
    } else {
      var r := Step(s);
      StepAdvancesSentinel(s);
      assert r == s.(queue := q[1..] + [q[0]]);
      forall k | 0 <= k < |r.queue|
        ensures r.queue[k].index != r.nextIndex
      {
        if k < |q| - 1 {
          assert r.queue[k] == q[k + 1];
        }
      }
      DrainRotates(r);
      assert r.queue[p..] == q[p + 1..] + [q[0]];
      assert r.queue[..p - 1] == q[1..p];
      assert q[..p] == [q[0]] + q[1..p];
      ConcatAssoc(q[p + 1..], [q[0]], q[1..p]);
    }
  }

  /**
   * Playing a consecutive run of `m` in-turn items: the loop reaches a state
   * `t` with the run gone from the queue, `next_index` moved `m` places and
   * their files deleted, and it continues from there as it would from `s`.
   */
  lemma {:induction false} DrainSkipsConsecutive(s: PlayState, m: nat) returns (t: PlayState)
    requires WellFormed(s) && m <= |s.queue|
    requires s.queue[..m] == Consecutive(s.nextIndex, m)
    requires HasSentinel(s.queue[m..])
    ensures HasSentinel(s.queue) && HasSentinel(t.queue)
    ensures t.queue == s.queue[m..] && t.nextIndex == s.nextIndex + m
    ensures t.files == s.files - FilesIn(s.nextIndex, s.nextIndex + m)
    ensures Drain(s) == Drain(t)
    decreases m, 1
  {
    assert s.queue == s.queue[..m] + s.queue[m..];
    SentinelInSuffix(s.queue[..m], s.queue[m..]);
    if m == 0 {
      t := s;
      assert s.queue[0..] == s.queue;
      FilesNone(s.files, s.nextIndex);
    } else {
      t := DrainSkipsHead(s, m);
    }
  }

  /** The step case of `DrainSkipsConsecutive`: the head of the run is played first. */
  lemma {:induction false} DrainSkipsHead(s: PlayState, m: nat) returns (t: PlayState)
    requires WellFormed(s) && 0 < m <= |s.queue|
    requires s.queue[..m] == Consecutive(s.nextIndex, m)
    requires HasSentinel(s.queue[m..]) && HasSentinel(s.queue)
    ensures t.queue == s.queue[m..] && t.nextIndex == s.nextIndex + m
    ensures t.files == s.files - FilesIn(s.nextIndex, s.nextIndex + m)
    ensures Drain(s) == Drain(t)
    decreases m, 0
  {
    var n, r := s.nextIndex, Step(s);
    ConsecutiveStep(s, m);
    ConsecutiveSlices(s.queue, n, m);
    t := DrainSkipsConsecutive(r, m - 1);
    FilesRemoved(s.files, n, n + m);
  }

  /** A sentinel put after items that are not sentinels is the first one. */
  lemma {:induction false} SentinelPosLast(q: seq<Item>)
    requires forall k :: 0 <= k < |q| ==> q[k].index != -1
    ensures SentinelPos(q + [Sentinel]) == |q|
  {
    if q != [] {
      assert (q + [Sentinel])[1..] == q[1..] + [Sentinel];
      SentinelPosLast(q[1..]);
    }
  }

  /** The state `playback_worker` starts in, after `synthesis_worker` has run to its end. */
  function AfterProducer(rs: seq<Response>, files: set<string>, playLog: seq<Option<string>>): (s: PlayState)
    ensures s.queue == Produced(rs) + [Sentinel] && s.files == files + Written(rs)
    ensures s.nextIndex == 0 && s.playedFiles == {} && s.playLog == playLog && !s.stopped
  {
    PlayState(Produced(rs) + [Sentinel], 0, {}, files + Written(rs), playLog, false)
  }

  /** What the producer leaves for the loop is well formed. */
  lemma AfterProducerWellFormed(rs: seq<Response>, files: set<string>, playLog: seq<Option<string>>)
    ensures WellFormed(AfterProducer(rs, files, playLog))
  {
    var s, q := AfterProducer(rs, files, playLog), Produced(rs);
    ProducedItems(rs);
    WrittenComplete(rs);
    forall j | 0 <= j < |s.queue| && s.queue[j].index != -1
      ensures FileName(s.queue[j].index) in s.files
    {
      assert s.queue[j] == q[j];
    }
  }

  /** ... with the in-turn run 0..g-1 at the front and a sentinel behind it ... */
  lemma AfterProducerShape(rs: seq<Response>, files: set<string>, playLog: seq<Option<string>>)
    ensures var s, g := AfterProducer(rs, files, playLog), FirstFailure(rs);
      && g <= |s.queue|
      && s.queue[..g] == Consecutive(0, g)
      && HasSentinel(s.queue[g..])
  {
    var q, g := Produced(rs), FirstFailure(rs);
    var sq := q + [Sentinel];
    ProducedPrefix(rs, g);
    assert forall i :: 0 <= i < g ==> rs[..g][i] == rs[i];
    ProducedAllSucceeded(rs[..g]);
    assert sq[..g] == q[..g];
    assert sq[g..] == q[g..] + [Sentinel];
    SentinelPosAppend([Sentinel], []);
    SentinelInSuffix(q[g..], [Sentinel]);
  }

  /** ... and no item for the first failed sentence g anywhere in the queue. */
  lemma AfterProducerGap(rs: seq<Response>, files: set<string>, playLog: seq<Option<string>>)
    ensures var s, g := AfterProducer(rs, files, playLog), FirstFailure(rs);
      forall k :: 0 <= k < |s.queue| ==> s.queue[k].index != g
  {
    var q, g := Produced(rs), FirstFailure(rs);
    var sq := q + [Sentinel];
    ProducedItems(rs);
    forall k | 0 <= k < |sq| ensures sq[k].index != g {
      if k < |q| {
        assert sq[k] == q[k];
      }
    }
  }

  /** The sentences before the first failure produce the first items, in turn from 0. */
  lemma FirstFailureProduced(rs: seq<Response>)
    ensures FirstFailure(rs) <= |Produced(rs)|
    ensures Produced(rs)[..FirstFailure(rs)] == Consecutive(0, FirstFailure(rs))
  {
    var g := FirstFailure(rs);
    ProducedPrefix(rs, g);
    assert forall i :: 0 <= i < g ==> rs[..g][i] == rs[i];
    ProducedAllSucceeded(rs[..g]);
  }

  /** No produced item is a sentinel or has the first failed index. */
  lemma ProducedAvoidsFailure(rs: seq<Response>)
    ensures forall k :: 0 <= k < |Produced(rs)| ==>
      Produced(rs)[k].index != -1 && Produced(rs)[k].index != FirstFailure(rs)
  {
    ProducedItems(rs);
  }

  /** A queue of out-of-turn items ending in the sentinel is rotated once and left as it was, files included. */
  lemma RotateToSentinel(t: PlayState, rest: seq<Item>)
    requires t.queue == rest + [Sentinel]
    requires forall k :: 0 <= k < |rest| ==> rest[k].index != -1 && rest[k].index != t.nextIndex
    ensures HasSentinel(t.queue)
    ensures Drain(t).queue == rest && Drain(t).files == t.files
  {
    SentinelPosLast(rest);
    forall k | 0 <= k < |t.queue|
      ensures t.queue[k].index != t.nextIndex
    {
      if k < |rest| {
        assert t.queue[k] == rest[k];
      }
    }
    DrainRotates(t);
    assert t.queue[|rest| + 1..] == [];
    assert t.queue[..|rest|] == rest;
  }

  /** Cutting a queue with one more item at its tail. */
  lemma SnocSlices<T>(q: seq<T>, x: T, g: nat)
    requires g <= |q|
    ensures (q + [x])[..g] == q[..g] && (q + [x])[g..] == q[g..] + [x]
  {
  }

  /** Element k of the suffix from g is element g + k. */
  lemma SuffixIndex<T>(q: seq<T>, g: nat, k: nat)
    requires g + k < |q|
    ensures q[g..][k] == q[g + k]
  {
  }

  /** Producer then consumer: the loop first plays temp_0.opus up to the first failure, deleting those files. */
  lemma AfterProducerPlaysRun(rs: seq<Response>, files: set<string>, playLog: seq<Option<string>>) returns (t: PlayState)
    ensures FirstFailure(rs) <= |Produced(rs)|
    ensures HasSentinel(AfterProducer(rs, files, playLog).queue) && HasSentinel(t.queue)
    ensures t.queue == Produced(rs)[FirstFailure(rs)..] + [Sentinel] && t.nextIndex == FirstFailure(rs)
    ensures t.files == (files + Written(rs)) - FilesIn(0, FirstFailure(rs))
    ensures Drain(AfterProducer(rs, files, playLog)) == Drain(t)
  {
    var s, g, q := AfterProducer(rs, files, playLog), FirstFailure(rs), Produced(rs);
    FirstFailureProduced(rs);
    AfterProducerWellFormed(rs, files, playLog);
    SnocSlices(q, Sentinel, g);
    SentinelPosLast([]);
    SentinelInSuffix(q[g..], [Sentinel]);
    t := DrainSkipsConsecutive(s, g);
  }

  /**
   * Producer then consumer on a fresh queue: the items of the sentences
   * after the first failure stay queued, in order, and only the files of the
   * played sentences, temp_0.opus up to the first failure, are deleted.
   */
  lemma FullRunLeavesLaterSuccesses(rs: seq<Response>, files: set<string>, playLog: seq<Option<string>>)
    ensures HasSentinel(AfterProducer(rs, files, playLog).queue)
    ensures var g, r := FirstFailure(rs), Drain(AfterProducer(rs, files, playLog));
      && g <= |Produced(rs)|
      && r.queue == Produced(rs)[g..]
      && r.files == (files + Written(rs)) - FilesIn(0, g)
  {
    var g, q := FirstFailure(rs), Produced(rs);
    var t := AfterProducerPlaysRun(rs, files, playLog);
    var rest := q[g..];
    forall k | 0 <= k < |rest|
      ensures rest[k].index != -1 && rest[k].index != t.nextIndex
    {
      ProducedAvoidsFailure(rs);
      SuffixIndex(q, g, k);
    }
    RotateToSentinel(t, rest);
    assert Drain(AfterProducer(rs, files, playLog)) == Drain(t);
  }

  /**
   * Producer then consumer on a fresh queue: ffplay is handed
   * temp_0.opus, temp_1.opus, ... up to the first sentence whose synthesis
   * failed, and nothing after it, even when later sentences synthesised.
   */
  lemma FullRunPlaysUntilFirstFailure(rs: seq<Response>, files: set<string>, playLog: seq<Option<string>>)
    ensures HasSentinel(AfterProducer(rs, files, playLog).queue)
    ensures var g, r := FirstFailure(rs), Drain(AfterProducer(rs, files, playLog));
      r.nextIndex == g && r.playLog == playLog + Names(0, g)
  {
    var s := AfterProducer(rs, files, playLog);
    AfterProducerWellFormed(rs, files, playLog);
    AfterProducerShape(rs, files, playLog);
    AfterProducerGap(rs, files, playLog);
    DrainPlaysConsecutive(s, FirstFailure(rs));
    DrainStopsAtGap(s, FirstFailure(rs));
    DrainPlaysInOrder(s);
  }
}
