/**
 * `generate_continuous_speech` runs `synthesis_worker` and `playback_worker`
 * on two threads that share `synthesis_queue`, a `queue.Queue(maxsize=5)`
 * whose `put` blocks while it is full. This module models every
 * interleaving of the two loops, one loop iteration (or one `put`) at a
 * time, with the blocking made explicit: a thread whose next action is a
 * `put` on a full queue cannot move. The consumer's `get` and its put-back
 * of an out-of-turn item are separate moves, as they are in the source.
 */
module Interleaving {
  import opened Wrappers
  import opened Playback

  /** Both threads: how many sentences the producer has handled, whether its sentinel is in, and the consumer. */
  datatype Sys = Sys(produced: nat, sentinelPut: bool, play: PlayState, held: Option<Item>)

  datatype Actor = Producer | Consumer

  /** Right after both threads started, on an empty queue. */
  function Init(files: set<string>, playLog: seq<Option<string>>): Sys {
    Sys(0, false, PlayState([], 0, {}, files, playLog, false), None)
  }

  /**
   * The producer's next action is not a `put` on a full queue, and it has
   * not finished. A failed synthesis puts nothing, so it never waits; a
   * success or the sentinel waits for a free slot.
   */
  predicate ProducerCanMove(rs: seq<Response>, s: Sys)
    ensures ProducerCanMove(rs, s) ==> s.produced < |rs| || !s.sentinelPut
    ensures s.produced < |rs| && !Succeeded(rs[s.produced]) ==> ProducerCanMove(rs, s)
    ensures |s.play.queue| >= Capacity && (s.produced < |rs| ==> Succeeded(rs[s.produced])) ==> !ProducerCanMove(rs, s)
  {
    if s.produced < |rs| then !Succeeded(rs[s.produced]) || |s.play.queue| < Capacity
    else !s.sentinelPut && |s.play.queue| < Capacity
  }

  /**
   * The consumer has not stopped, and can either put back what it holds or
   * get an item: the put-back waits for a free slot, the `get` for an item.
   */
  predicate ConsumerCanMove(s: Sys)
    ensures ConsumerCanMove(s) ==> !s.play.stopped
    ensures s.held.Some? && |s.play.queue| >= Capacity ==> !ConsumerCanMove(s)
    ensures s.held.None? && s.play.queue == [] ==> !ConsumerCanMove(s)
  {
    && !s.play.stopped
    && (if s.held.Some? then |s.play.queue| < Capacity else s.play.queue != [])
  }

  /** One iteration of `synthesis_worker`'s loop, or its final `put` of the sentinel. */
  function ProducerStep(rs: seq<Response>, s: Sys): (r: Sys)
    requires ProducerCanMove(rs, s)
    ensures s.play.queue <= r.play.queue && |r.play.queue| <= |s.play.queue| + 1
    ensures |s.play.queue| <= Capacity ==> |r.play.queue| <= Capacity
    ensures r.play.nextIndex == s.play.nextIndex && r.play.playLog == s.play.playLog
    ensures r.play.stopped == s.play.stopped && r.held == s.held
    ensures r.play.playedFiles == s.play.playedFiles
    ensures r.produced == s.produced + 1 || (r.produced == s.produced && r.sentinelPut && !s.sentinelPut)
  {
    if s.produced < |rs| then
      var i := s.produced;
      var path := SynthesisResult(rs[i], i);
      var p := if path.Some? then s.play.(queue := s.play.queue + [Item(i, path)],
                                          files := s.play.files + {path.value})
               else s.play;
      s.(produced := i + 1, play := p)
    else s.(sentinelPut := true, play := s.play.(queue := s.play.queue + [Sentinel]))
  }

  /** The consumer's move: put back the held item, or `get` one and act on it. */
  function ConsumerStep(s: Sys): (r: Sys)
    requires ConsumerCanMove(s)
    ensures r.produced == s.produced && r.sentinelPut == s.sentinelPut
    ensures |s.play.queue| <= Capacity ==> |r.play.queue| <= Capacity
    ensures |Pending(r)| <= |Pending(s)|
    ensures s.play.playLog <= r.play.playLog
  {
    if s.held.Some? then s.(play := PutBack(Taken(s.play, s.held)), held := None)
    else
      var t := Take(s.play);
      s.(play := t.state, held := t.held)
  }

  /** The scheduler picks an actor; one that cannot move stays where it is. */
  function Next(rs: seq<Response>, s: Sys, a: Actor): Sys {
    if a == Producer && ProducerCanMove(rs, s) then ProducerStep(rs, s)
    else if a == Consumer && ConsumerCanMove(s) then ConsumerStep(s)
    else s
  }

  /** The state after the scheduler's choices `schedule`. */
  function Run(rs: seq<Response>, s: Sys, schedule: seq<Actor>): Sys
    decreases |schedule|
  {
    if schedule == [] then s else Run(rs, Next(rs, s, schedule[0]), schedule[1..])
  }

  /**
   * Neither thread can move and the consumer has not stopped: both wait
   * forever. Either the queue is full while the consumer holds an item for
   * its put-back, or the queue is empty after the producer has finished.
   */
  predicate Deadlocked(rs: seq<Response>, s: Sys)
    ensures Deadlocked(rs, s) ==>
      || (s.held.Some? && |s.play.queue| >= Capacity)
      || (s.held.None? && s.play.queue == [] && s.produced >= |rs| && s.sentinelPut)
  {
    !s.play.stopped && !ProducerCanMove(rs, s) && !ConsumerCanMove(s)
  }

  /** What is on its way to playback: the queue, then the item the consumer holds. */
  function Pending(s: Sys): seq<Item> {
    s.play.queue + (if s.held.Some? then [s.held.value] else [])
  }

  /** The files handed to ffplay for indices below `n`. */
  function PlayedSet(n: nat): set<Option<string>> {
    set k: nat | k < n :: Some(FileName(k))
  }

  /** A file whose index is not yet played is not in `PlayedSet`. */
  lemma NotYetPlayed(n: nat, i: nat)
    requires n <= i
    ensures Some(FileName(i)) !in PlayedSet(n)
  {
    if Some(FileName(i)) in PlayedSet(n) {
      var k: nat :| k < n && Some(FileName(k)) == Some(FileName(i));
      FileNameInjective(k, i);
    }
  }

  /**
   * What holds in every reachable state, whatever the interleaving: the queue
   * never exceeds its capacity; what was played is temp_0.opus, temp_1.opus,
   * ... up to `next_index`, each once, all of them sentences that
   * synthesised; and everything pending is a well-formed item of a
   * successful sentence the producer already handled, or the sentinel.
   */
  ghost predicate Inv(rs: seq<Response>, log0: seq<Option<string>>, s: Sys) {
    var p, pending := s.play, Pending(s);
    && s.produced <= |rs|
    && (s.sentinelPut ==> s.produced == |rs|)
    && (p.stopped ==> s.sentinelPut)
    && |p.queue| <= Capacity
    && p.nextIndex <= s.produced
    && (forall k :: 0 <= k < p.nextIndex ==> Succeeded(rs[k]))
    && p.playLog == log0 + Names(0, p.nextIndex)
    && p.playedFiles == PlayedSet(p.nextIndex)
    && (forall j :: 0 <= j < |pending| ==>
          || (pending[j] == Sentinel && s.sentinelPut)
          || (0 <= pending[j].index < s.produced && Succeeded(rs[pending[j].index])))
    && WellFormed(p.(queue := pending))
  }

  lemma InitInv(rs: seq<Response>, files: set<string>, log0: seq<Option<string>>)
    ensures Inv(rs, log0, Init(files, log0))
  {
    assert PlayedSet(0) == {};
  }

  /** Adding a fresh, live item anywhere keeps a state well formed. */
  lemma WellFormedInsert(p: PlayState, a: seq<Item>, x: Item, b: seq<Item>, files: set<string>)
    requires WellFormed(p.(queue := a + b))
    requires p.files <= files
    requires x.index >= p.nextIndex && x.path == Some(FileName(x.index))
    requires FileName(x.index) in files && Some(FileName(x.index)) !in p.playedFiles
    requires forall j :: 0 <= j < |a + b| ==> (a + b)[j].index != x.index
    ensures WellFormed(p.(queue := a + [x] + b, files := files))
  {
    var o, q := a + b, a + [x] + b;
    var r := p.(queue := q, files := files);
    forall j | 0 <= j < |q|
      ensures q[j] == if j < |a| then o[j] else if j == |a| then x else o[j - 1]
    {
    }
    forall j | 0 <= j < |q| && q[j].index != -1
      ensures && q[j].index >= r.nextIndex
              && q[j].path == Some(FileName(q[j].index))
              && FileName(q[j].index) in r.files
              && Some(FileName(q[j].index)) !in r.playedFiles
    {
      if j != |a| {
        var i := if j < |a| then j else j - 1;
        assert q[j] == o[i];
      }
    }
    forall j, k | 0 <= j < k < |q| && q[j].index != -1
      ensures q[j].index != q[k].index
    {
      if j < |a| && k < |a| {
        assert q[j] == o[j] && q[k] == o[k];
      } else if j < |a| && k > |a| {
        assert q[j] == o[j] && q[k] == o[k - 1];
      } else if j > |a| {
        assert q[j] == o[j - 1] && q[k] == o[k - 1];
      }
    }
  }

  /** Adding a sentinel anywhere keeps a state well formed. */
  lemma WellFormedInsertSentinel(p: PlayState, a: seq<Item>, b: seq<Item>)
    requires WellFormed(p.(queue := a + b))
    ensures WellFormed(p.(queue := a + [Sentinel] + b))
  {
    var o, q := a + b, a + [Sentinel] + b;
    forall j | 0 <= j < |q|
      ensures q[j] == if j < |a| then o[j] else if j == |a| then Sentinel else o[j - 1]
    {
    }
    forall j | 0 <= j < |q| && q[j].index != -1
      ensures && q[j].index >= p.nextIndex
              && q[j].path == Some(FileName(q[j].index))
              && FileName(q[j].index) in p.files
              && Some(FileName(q[j].index)) !in p.playedFiles
    {
      var i := if j < |a| then j else j - 1;
      assert q[j] == o[i];
    }
    forall j, k | 0 <= j < k < |q| && q[j].index != -1
      ensures q[j].index != q[k].index
    {
      if j < |a| && k < |a| {
        assert q[j] == o[j] && q[k] == o[k];
      } else if j < |a| && k > |a| {
        assert q[j] == o[j] && q[k] == o[k - 1];
      } else if j > |a| {
        assert q[j] == o[j - 1] && q[k] == o[k - 1];
      }
    }
  }

  lemma ProducerStepInv(rs: seq<Response>, log0: seq<Option<string>>, s: Sys)
    requires Inv(rs, log0, s) && ProducerCanMove(rs, s)
    ensures Inv(rs, log0, ProducerStep(rs, s))
  {
    if s.produced < |rs| {
      if Succeeded(rs[s.produced]) {
        SynthesisStepInv(rs, log0, s);
      }
    } else {
      SentinelStepInv(rs, log0, s);
    }
  }

  /** A successful synthesis queues a fresh, live item. */
  lemma SynthesisStepInv(rs: seq<Response>, log0: seq<Option<string>>, s: Sys)
    requires Inv(rs, log0, s) && ProducerCanMove(rs, s)
    requires s.produced < |rs| && Succeeded(rs[s.produced])
    ensures Inv(rs, log0, ProducerStep(rs, s))
  {
    var r := ProducerStep(rs, s);
    var p, held := s.play, if s.held.Some? then [s.held.value] else [];
    var i := s.produced;
    var x := Item(i, Some(FileName(i)));
    NotYetPlayed(p.nextIndex, i);
    WellFormedInsert(p, p.queue, x, held, p.files + {FileName(i)});
    assert Pending(r) == p.queue + [x] + held;
    forall j | 0 <= j < |Pending(r)|
      ensures || (Pending(r)[j] == Sentinel && r.sentinelPut)
              || (0 <= Pending(r)[j].index < r.produced && Succeeded(rs[Pending(r)[j].index]))
    {
      if j < |p.queue| {
        assert Pending(r)[j] == Pending(s)[j];
      } else if j > |p.queue| {
        assert Pending(r)[j] == Pending(s)[j - 1];
      }
    }
  }

  /** The sentinel goes in behind everything queued. */
  lemma SentinelStepInv(rs: seq<Response>, log0: seq<Option<string>>, s: Sys)
    requires Inv(rs, log0, s) && ProducerCanMove(rs, s) && s.produced == |rs|
    ensures Inv(rs, log0, ProducerStep(rs, s))
  {
    var r := ProducerStep(rs, s);
    var p, held := s.play, if s.held.Some? then [s.held.value] else [];
    assert r.play.queue == p.queue + [Sentinel];
    assert Pending(r) == p.queue + [Sentinel] + held;
    WellFormedInsertSentinel(p, p.queue, held);
    forall j | 0 <= j < |Pending(r)|
      ensures || (Pending(r)[j] == Sentinel && r.sentinelPut)
              || (0 <= Pending(r)[j].index < r.produced && Succeeded(rs[Pending(r)[j].index]))
    {
      if j < |p.queue| {
        assert Pending(r)[j] == Pending(s)[j];
      } else if j > |p.queue| {
        assert Pending(r)[j] == Pending(s)[j - 1];
      }
    }
  }

  lemma ConsumerStepInv(rs: seq<Response>, log0: seq<Option<string>>, s: Sys)
    requires Inv(rs, log0, s) && ConsumerCanMove(s)
    ensures Inv(rs, log0, ConsumerStep(s))
  {
    if s.held.None? {
      GetStepInv(rs, log0, s);
    } else {
      assert Pending(ConsumerStep(s)) == Pending(s);
    }
  }

  /** A `get`, and playing or holding what it got. */
  lemma GetStepInv(rs: seq<Response>, log0: seq<Option<string>>, s: Sys)
    requires Inv(rs, log0, s) && ConsumerCanMove(s) && s.held.None?
    ensures Inv(rs, log0, ConsumerStep(s))
  {
    var r, p := ConsumerStep(s), s.play;
    var q := p.queue;
    assert Pending(s) == q;
    StepWellFormed(p);
    assert r.play.(queue := Pending(r)) == Step(p);
    forall j | 0 <= j < |Pending(r)|
      ensures || (Pending(r)[j] == Sentinel && r.sentinelPut)
              || (0 <= Pending(r)[j].index < r.produced && Succeeded(rs[Pending(r)[j].index]))
    {
      if j < |q| - 1 {
        assert Pending(r)[j] == q[j + 1];
      } else {
        assert Pending(r)[j] == q[0];
      }
    }
    if Step(p).nextIndex == p.nextIndex + 1 {
      NamesSnoc(0, p.nextIndex);
      assert PlayedSet(p.nextIndex) + {Some(FileName(p.nextIndex))} == PlayedSet(p.nextIndex + 1);
    }
  }

  lemma NextInv(rs: seq<Response>, log0: seq<Option<string>>, s: Sys, a: Actor)
    requires Inv(rs, log0, s)
    ensures Inv(rs, log0, Next(rs, s, a))
  {
    if a == Producer && ProducerCanMove(rs, s) {
      ProducerStepInv(rs, log0, s);
    } else if a == Consumer && ConsumerCanMove(s) {
      ConsumerStepInv(rs, log0, s);
    }
  }

  /** The invariant holds after every schedule. */
  lemma {:induction false} RunInv(rs: seq<Response>, log0: seq<Option<string>>, s: Sys, schedule: seq<Actor>)
    requires Inv(rs, log0, s)
    ensures Inv(rs, log0, Run(rs, s, schedule))
    decreases |schedule|
  {
    if schedule != [] {
      NextInv(rs, log0, s, schedule[0]);
      RunInv(rs, log0, Next(rs, s, schedule[0]), schedule[1..]);
    }
  }

  /**
   * Under every interleaving of the two threads: the queue holds at most 5
   * items; ffplay has been handed exactly temp_0.opus, ..., temp_{n-1}.opus
   * in that order, each once; and `n` never passes the first failed sentence.
   */
  lemma PlaybackOrderUnderAnySchedule(rs: seq<Response>, files: set<string>, log0: seq<Option<string>>,
                                      schedule: seq<Actor>)
    ensures var r := Run(rs, Init(files, log0), schedule);
      && |r.play.queue| <= Capacity
      && r.play.playLog == log0 + Names(0, r.play.nextIndex)
      && r.play.nextIndex <= FirstFailure(rs)
  {
    InitInv(rs, files, log0);
    RunInv(rs, log0, Init(files, log0), schedule);
  }

  /** The responses of the deadlock: the first synthesis fails, the next six succeed. */
  function FailThenSix(): seq<Response> {
    [Raised, Status(200), Status(200), Status(200), Status(200), Status(200), Status(200)]
  }

  /**
   * As written, the two threads can deadlock. Sentence 0 fails, 1..5 fill
   * the queue, the consumer gets 1 (out of turn, so it holds it for the
   * put-back), the producer fills the freed slot with 6, and now both wait
   * on a `put` into a full queue.
   */
  lemma RequeueCanDeadlock(files: set<string>, log0: seq<Option<string>>)
    ensures Deadlocked(FailThenSix(), Run(FailThenSix(), Init(files, log0),
                       [Producer, Producer, Producer, Producer, Producer, Producer, Consumer, Producer]))
  {
    var rs := FailThenSix();
    var s0 := Init(files, log0);
    var s6 := FillsQueue(files, log0);
    var s7 := Next(rs, s6, Consumer);
    assert s7.held.Some? && |s7.play.queue| == 4 && !s7.play.stopped;
    var s8 := Next(rs, s7, Producer);
    assert s8.produced == 7 && |s8.play.queue| == 5 && s8.held.Some? && !s8.sentinelPut;
    assert Run(rs, s0, [Producer, Producer, Producer, Producer, Producer, Producer, Consumer, Producer]) == s8;
  }

  /** The first six moves of that schedule: sentence 0 fails, then five puts fill the queue with items 1 to 5, in order. */
  lemma FillsQueue(files: set<string>, log0: seq<Option<string>>) returns (s6: Sys)
    ensures var rs, s0 := FailThenSix(), Init(files, log0);
      s6 == Next(rs, Next(rs, Next(rs, Next(rs, Next(rs, Next(rs, s0, Producer), Producer), Producer), Producer), Producer), Producer)
    ensures s6.produced == 6 && !s6.sentinelPut && s6.held.None? && !s6.play.stopped
    ensures |s6.play.queue| == 5 && s6.play.queue[0].index == 1 && s6.play.nextIndex == 0
    ensures s6.play.queue == Consecutive(1, 5)
  {
    var rs := FailThenSix();
    var s0 := Init(files, log0);
    var s1 := Next(rs, s0, Producer);
    assert s1.produced == 1 && s1.play.queue == [];
    var s2 := Next(rs, s1, Producer);
    var s3 := Next(rs, s2, Producer);
    var s4 := Next(rs, s3, Producer);
    var s5 := Next(rs, s4, Producer);
    s6 := Next(rs, s5, Producer);
    assert s6.produced == 6 && |s6.play.queue| == 5 && s6.play.queue[0].index == 1;
  }

  /** As written, one failed sentence silences every later one, although both of these synthesised. */
  lemma FailureSilencesLater(files: set<string>, log0: seq<Option<string>>)
    ensures HasSentinel(AfterProducer([Raised, Status(200), Status(200)], files, log0).queue)
    ensures var r := Drain(AfterProducer([Raised, Status(200), Status(200)], files, log0));
      r.playLog == log0
  {
    FullRunPlaysUntilFirstFailure([Raised, Status(200), Status(200)], files, log0);
    assert FirstFailure([Raised, Status(200), Status(200)]) == 0;
  }
}
