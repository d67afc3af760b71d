/**
 * The evidently intended behaviour of `synthesis_worker` and
 * `playback_worker` (speak/speak.py), with the one change that removes both
 * the deadlock and the silence after a failure: the producer queues a
 * failed sentence as `(i, None)` instead of dropping it, and the consumer,
 * on getting `(next_index, None)`, moves `next_index` past it without
 * playing. Everything else is the code as written, including the put-back,
 * which this change makes unreachable.
 */
module Corrected {
  import opened Wrappers
  import opened Playback
  import opened Interleaving

  /**
   * The corrected producer has a `put` to do and room for it. A failed
   * sentence is queued too, so it waits for a free slot like a success.
   */
  predicate ProducerCanMove(rs: seq<Response>, s: Sys)
    ensures ProducerCanMove(rs, s) ==> |s.play.queue| < Capacity
    ensures s.produced < |rs| && |s.play.queue| < Capacity ==> ProducerCanMove(rs, s)
    ensures s.produced >= |rs| && s.sentinelPut ==> !ProducerCanMove(rs, s)
  {
    (s.produced < |rs| || !s.sentinelPut) && |s.play.queue| < Capacity
  }

  /** One iteration of the corrected `synthesis_worker`: every sentence is queued, failed ones as `(i, None)`. */
  function ProducerStep(rs: seq<Response>, s: Sys): (r: Sys)
    requires ProducerCanMove(rs, s)
    ensures s.play.queue <= r.play.queue && |r.play.queue| <= |s.play.queue| + 1
    ensures |s.play.queue| <= Capacity ==> |r.play.queue| <= Capacity
    ensures r.play.nextIndex == s.play.nextIndex && r.play.playLog == s.play.playLog
    ensures r.play.stopped == s.play.stopped && r.held == s.held
    ensures r.play.playedFiles == s.play.playedFiles
    ensures r.produced == s.produced + 1 || (r.produced == s.produced && r.sentinelPut && !s.sentinelPut)
  {
    if s.produced < |rs| then
      var i := s.produced;
      var path := SynthesisResult(rs[i], i);
      var files := if path.Some? then s.play.files + {path.value} else s.play.files;
      s.(produced := i + 1, play := s.play.(queue := s.play.queue + [Item(i, path)], files := files))
    else s.(sentinelPut := true, play := s.play.(queue := s.play.queue + [Sentinel]))
  }

  /** The corrected `get`: `(next_index, None)` is skipped over; anything else is handled as before. */
  function FixedTake(s: PlayState): (t: Taken)
    requires s.queue != []
    ensures t.state.queue == s.queue[1..]
  {
    var head := s.queue[0];
    if head.index == s.nextIndex && head.path.None? then
      Taken(s.(queue := s.queue[1..], nextIndex := s.nextIndex + 1), None)
    else Take(s)
  }

  function ConsumerStep(s: Sys): (r: Sys)
    requires ConsumerCanMove(s)
    ensures r.produced == s.produced && r.sentinelPut == s.sentinelPut
    ensures |s.play.queue| <= Capacity ==> |r.play.queue| <= Capacity
    ensures |Pending(r)| <= |Pending(s)|
    ensures s.play.playLog <= r.play.playLog
  {
    if s.held.Some? then s.(play := PutBack(Taken(s.play, s.held)), held := None)
    else
      var t := FixedTake(s.play);
      s.(play := t.state, held := t.held)
  }

  function Next(rs: seq<Response>, s: Sys, a: Actor): Sys {
    if a == Producer && ProducerCanMove(rs, s) then ProducerStep(rs, s)
    else if a == Consumer && ConsumerCanMove(s) then ConsumerStep(s)
    else s
  }

  function Run(rs: seq<Response>, s: Sys, schedule: seq<Actor>): Sys
    decreases |schedule|
  {
    if schedule == [] then s else Run(rs, Next(rs, s, schedule[0]), schedule[1..])
  }

  /** What the corrected producer queues for sentences `a` up to `b`, in order. */
  function Outcomes(rs: seq<Response>, a: nat, b: nat): (q: seq<Item>)
    requires a <= b <= |rs|
    ensures |q| == b - a
  {
    seq(b - a, k requires 0 <= k < b - a => Item(a + k, SynthesisResult(rs[a + k], a + k)))
  }

  /** The paths of a run of items. */
  function Paths(q: seq<Item>): (r: seq<Option<string>>)
    ensures |r| == |q|
    ensures forall k :: 0 <= k < |q| ==> r[k] == q[k].path
  {
    seq(|q|, k requires 0 <= k < |q| => q[k].path)
  }

  /**
   * Both threads of the corrected design, in every reachable state: the
   * consumer never holds an item, the queue is exactly the outcomes of
   * sentences `next_index` up to what the producer handled, then the
   * sentinel if it was put and not yet taken; what was played is the paths
   * of the successful sentences before `next_index`.
   */
  ghost predicate Inv(rs: seq<Response>, log0: seq<Option<string>>, s: Sys) {
    var p := s.play;
    && s.produced <= |rs|
    && (s.sentinelPut ==> s.produced == |rs|)
    && s.held.None?
    && p.nextIndex <= s.produced
    && (p.stopped ==> s.sentinelPut && p.nextIndex == |rs|)
    && p.queue == Outcomes(rs, p.nextIndex, s.produced) + (if s.sentinelPut && !p.stopped then [Sentinel] else [])
    && |p.queue| <= Capacity
    && p.playLog == log0 + Paths(Produced(rs[..p.nextIndex]))
    && p.playedFiles <= PlayedSet(p.nextIndex)
    && (forall k :: p.nextIndex <= k < s.produced && Succeeded(rs[k]) ==> FileName(k) in p.files)
  }

  lemma InitInv(rs: seq<Response>, files: set<string>, log0: seq<Option<string>>)
    ensures Inv(rs, log0, Init(files, log0))
  {
    assert rs[..0] == [];
  }

  lemma ProducerStepInv(rs: seq<Response>, log0: seq<Option<string>>, s: Sys)
    requires Inv(rs, log0, s) && ProducerCanMove(rs, s)
    ensures Inv(rs, log0, ProducerStep(rs, s))
  {
    var r, p := ProducerStep(rs, s), s.play;
    if s.produced < |rs| {
      assert !s.sentinelPut;
      assert r.play.queue == Outcomes(rs, p.nextIndex, r.produced);
    } else {
      assert r.play.queue == Outcomes(rs, p.nextIndex, r.produced) + [Sentinel];
    }
  }

  lemma ConsumerStepInv(rs: seq<Response>, log0: seq<Option<string>>, s: Sys)
    requires Inv(rs, log0, s) && ConsumerCanMove(s)
    ensures Inv(rs, log0, ConsumerStep(s))
    ensures |ConsumerStep(s).play.queue| == |s.play.queue| - 1
  {
    if s.play.nextIndex < s.produced {
      OutcomeStepInv(rs, log0, s);
    }
  }

  /** Getting the outcome of sentence `next_index`: a success is played, a failure skipped. */
  lemma OutcomeStepInv(rs: seq<Response>, log0: seq<Option<string>>, s: Sys)
    requires Inv(rs, log0, s) && ConsumerCanMove(s) && s.play.nextIndex < s.produced
    ensures Inv(rs, log0, ConsumerStep(s))
    ensures |ConsumerStep(s).play.queue| == |s.play.queue| - 1
  {
    var n := s.play.nextIndex;
    OutcomesTail(rs, n, s.produced, if s.sentinelPut && !s.play.stopped then [Sentinel] else []);
    ProducedSnoc(rs, n);
    if Succeeded(rs[n]) {
      PlayedStepInv(rs, log0, s);
    } else {
      assert Produced(rs[..n + 1]) == Produced(rs[..n]);
    }
  }

  /** The outcomes from `a` on, seen from their first. */
  lemma OutcomesTail(rs: seq<Response>, a: nat, b: nat, tail: seq<Item>)
    requires a < b <= |rs|
    ensures (Outcomes(rs, a, b) + tail)[0] == Item(a, SynthesisResult(rs[a], a))
    ensures (Outcomes(rs, a, b) + tail)[1..] == Outcomes(rs, a + 1, b) + tail
  {
    var o := Outcomes(rs, a, b);
    assert o[1..] == Outcomes(rs, a + 1, b);
  }

  /** A success in its turn is played, its file removed, and `next_index` moves on. */
  lemma PlayedStepInv(rs: seq<Response>, log0: seq<Option<string>>, s: Sys)
    requires Inv(rs, log0, s) && s.play.nextIndex < s.produced && Succeeded(rs[s.play.nextIndex])
    requires s.play.queue[0] == Item(s.play.nextIndex, Some(FileName(s.play.nextIndex)))
    requires s.play.queue[1..] ==
      Outcomes(rs, s.play.nextIndex + 1, s.produced) + (if s.sentinelPut && !s.play.stopped then [Sentinel] else [])
    requires Produced(rs[..s.play.nextIndex + 1]) == Produced(rs[..s.play.nextIndex]) + [Item(s.play.nextIndex, Some(FileName(s.play.nextIndex)))]
    ensures ConsumerCanMove(s) && Inv(rs, log0, ConsumerStep(s))
  {
    var r, p, n := ConsumerStep(s), s.play, s.play.nextIndex;
    NotYetPlayed(n, n);
    assert r.play.playLog == p.playLog + [Some(FileName(n))];
    ConcatAssoc(log0, Paths(Produced(rs[..n])), [Some(FileName(n))]);
    assert Paths(Produced(rs[..n + 1])) == Paths(Produced(rs[..n])) + [Some(FileName(n))];
    forall k | n + 1 <= k < s.produced && Succeeded(rs[k])
      ensures FileName(k) in r.play.files
    {
      if FileName(k) == FileName(n) {
        FileNameInjective(k, n);
      }
    }
  }

  lemma NextInv(rs: seq<Response>, log0: seq<Option<string>>, s: Sys, a: Actor)
    requires Inv(rs, log0, s)
    ensures Inv(rs, log0, Next(rs, s, a))
  {
    if a == Producer && ProducerCanMove(rs, s) {
      ProducerStepInv(rs, log0, s);
    } else if a == Consumer && ConsumerCanMove(s) {
      ConsumerStepInv(rs, log0, s);
    }
  }

  /** The corrected invariant holds after every schedule from the start. */
  lemma {:induction false} RunInv(rs: seq<Response>, log0: seq<Option<string>>, s: Sys, schedule: seq<Actor>)
    requires Inv(rs, log0, s)
    ensures Inv(rs, log0, Run(rs, s, schedule))
    decreases |schedule|
  {
    if schedule != [] {
      NextInv(rs, log0, s, schedule[0]);
      RunInv(rs, log0, Next(rs, s, schedule[0]), schedule[1..]);
    }
  }

  /** With the correction, some thread can always move until playback has stopped. */
  lemma NeverDeadlocks(rs: seq<Response>, log0: seq<Option<string>>, s: Sys)
    requires Inv(rs, log0, s) && !s.play.stopped
    ensures ProducerCanMove(rs, s) || ConsumerCanMove(s)
  {
  }

  /** Whatever the interleaving, the corrected threads never both wait while playback is still running. */
  lemma NoDeadlockUnderAnySchedule(rs: seq<Response>, files: set<string>, log0: seq<Option<string>>,
                                   schedule: seq<Actor>)
    ensures var r := Run(rs, Init(files, log0), schedule);
      !r.play.stopped ==> ProducerCanMove(rs, r) || ConsumerCanMove(r)
  {
    InitInv(rs, files, log0);
    RunInv(rs, log0, Init(files, log0), schedule);
  }

  /** Work left: puts still to do, items still queued, and the final `get` of the sentinel. */
  function Measure(rs: seq<Response>, s: Sys): nat
    requires s.produced <= |rs|
  {
    2 * (|rs| - s.produced) + (if s.sentinelPut then 0 else 2) + |s.play.queue| + (if s.play.stopped then 0 else 1)
  }

  /** Every move of a thread that can move is progress: the work left shrinks. */
  lemma StepMakesProgress(rs: seq<Response>, log0: seq<Option<string>>, s: Sys, a: Actor)
    requires Inv(rs, log0, s)
    requires (a == Producer && ProducerCanMove(rs, s)) || (a == Consumer && ConsumerCanMove(s))
    ensures Next(rs, s, a).produced <= |rs|
    ensures Measure(rs, Next(rs, s, a)) < Measure(rs, s)
  {
    if a == Consumer {
      ConsumerStepInv(rs, log0, s);
    }
  }

  /** Once playback has stopped, ffplay was handed the file of every sentence that synthesised, in order. */
  lemma StoppedPlayedAll(rs: seq<Response>, log0: seq<Option<string>>, s: Sys)
    requires Inv(rs, log0, s) && s.play.stopped
    ensures s.play.playLog == log0 + Paths(Produced(rs))
  {
    assert rs[..|rs|] == rs;
  }

  /**
   * From any reachable state there is a schedule after which playback has
   * stopped, having played every sentence that synthesised, in order.
   */
  function Finish(rs: seq<Response>, log0: seq<Option<string>>, s: Sys): (schedule: seq<Actor>)
    requires Inv(rs, log0, s)
    ensures Run(rs, s, schedule).play.stopped
    ensures Run(rs, s, schedule).play.playLog == log0 + Paths(Produced(rs))
    decreases Measure(rs, s)
  {
    if s.play.stopped then
      StoppedPlayedAll(rs, log0, s);
      []
    else
      var a := if ConsumerCanMove(s) then Consumer else Producer;
      var t := Next(rs, s, a);
      StepMakesProgress(rs, log0, s, a);
      NextInv(rs, log0, s, a);
      var rest := Finish(rs, log0, t);
      assert ([a] + rest)[1..] == rest;
      [a] + rest
  }

  /** The corrected pair of threads reaches the end of playback from the start, with every success played in order. */
  lemma CompletesFromStart(rs: seq<Response>, files: set<string>, log0: seq<Option<string>>)
    ensures var s := Init(files, log0);
      Inv(rs, log0, s)
      && Run(rs, s, Finish(rs, log0, s)).play.playLog == log0 + Paths(Produced(rs))
  {
    InitInv(rs, files, log0);
  }
}
