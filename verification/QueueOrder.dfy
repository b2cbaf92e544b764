/** Delivery order: first dequeues follow arrival order in every interleaving. */
module QueueOrder {
  import opened Wrappers
  import opened QueueModel

  /** Ids of the queued jobs that were never dequeued, read from the right end. */
  function Unseen(queue: seq<Payload>, seen: seq<nat>): seq<nat> {
    if queue == [] then []
    else Unseen(queue[1..], seen) + if IdOf(queue[0]) in seen then [] else [IdOf(queue[0])]
  }

  ghost predicate AllSeen(list: seq<Payload>, seen: seq<nat>) {
    forall p :: p in list ==> IdOf(p) in seen
  }

  ghost predicate WorkerSeen(phase: Phase, seen: seq<nat>) {
    match phase
    case Idle => true
    case Holding(raw) => IdOf(raw) in seen
    case Waiting(job) => job.id in seen
  }

  ghost predicate OrderInv(s: State) {
    && Distinct(s.h.enqueued)
    && s.h.firstDequeued + Unseen(s.queue, s.h.firstDequeued) == s.h.enqueued
    && AllSeen(s.processing, s.h.firstDequeued)
    && (forall w :: 0 <= w < |s.workers| ==> WorkerSeen(s.workers[w], s.h.firstDequeued))
    && (forall c :: 0 <= c < |s.cleaners| ==> AllSeen(s.cleaners[c], s.h.firstDequeued))
  }

  lemma {:induction false} UnseenPop(queue: seq<Payload>, last: Payload, seen: seq<nat>)
    ensures Unseen(queue + [last], seen)
         == (if IdOf(last) in seen then [] else [IdOf(last)]) + Unseen(queue, seen)
  {
    if queue == [] {
      assert queue + [last] == [last];
    } else {
      assert (queue + [last])[1..] == queue[1..] + [last];
      UnseenPop(queue[1..], last, seen);
    }
  }

  /** Marking an id as seen changes nothing when no unseen job carries it. */
  lemma {:induction false} UnseenGrow(queue: seq<Payload>, seen: seq<nat>, id: nat)
    requires id !in Unseen(queue, seen)
    ensures Unseen(queue, seen + [id]) == Unseen(queue, seen)
  {
    if queue != [] {
      assert forall x :: x in Unseen(queue[1..], seen) ==> x in Unseen(queue, seen);
      assert IdOf(queue[0]) !in seen ==> Unseen(queue, seen)[|Unseen(queue[1..], seen)|] == IdOf(queue[0]);
      UnseenGrow(queue[1..], seen, id);
    }
  }

  lemma LRemSubset(list: seq<Payload>, x: Payload)
    ensures forall p :: p in LRem(list, x) ==> p in list
  {}

  lemma DistinctMiddle(before: seq<nat>, id: nat, after: seq<nat>)
    requires Distinct(before + ([id] + after))
    ensures id !in after
  {
    var all := before + ([id] + after);
    assert all[|before|] == id;
    assert forall k :: 0 <= k < |after| ==> after[k] == all[|before| + 1 + k];
  }

  /** The two sides of the order when the rightmost text is taken. */
  lemma UnseenTaken(queue: seq<Payload>, raw: Payload, seen: seq<nat>)
    requires Distinct(seen + Unseen(queue + [raw], seen))
    ensures seen + Unseen(queue + [raw], seen)
         == if IdOf(raw) in seen then seen + Unseen(queue, seen)
            else seen + [IdOf(raw)] + Unseen(queue, seen + [IdOf(raw)])
  {
    UnseenPop(queue, raw, seen);
    if IdOf(raw) !in seen {
      DistinctMiddle(seen, IdOf(raw), Unseen(queue, seen));
      UnseenGrow(queue, seen, IdOf(raw));
    }
  }

  lemma DequeueOrder(cfg: Config, s: State, w: nat)
    requires OrderInv(s) && Enabled(cfg, s, Dequeue(w))
    ensures OrderInv(Next(cfg, s, Dequeue(w)))
  {
    var n := |s.queue| - 1;
    assert s.queue == s.queue[..n] + [s.queue[n]];
    UnseenTaken(s.queue[..n], s.queue[n], s.h.firstDequeued);
  }

  /** Removing a text from processing and moving one worker among seen jobs keeps the order. */
  lemma OrderFrame(s: State, t: State, raw: Payload, w: nat, phase: Phase)
    requires OrderInv(s) && w < |s.workers| && WorkerSeen(phase, s.h.firstDequeued)
    requires t.queue == s.queue && t.cleaners == s.cleaners
    requires t.h.enqueued == s.h.enqueued && t.h.firstDequeued == s.h.firstDequeued
    requires t.processing == LRem(s.processing, raw) && t.workers == s.workers[w := phase]
    ensures OrderInv(t)
  {
    LRemSubset(s.processing, raw);
  }

  lemma AckOrder(cfg: Config, s: State, e: Event)
    requires OrderInv(s) && IsAck(e) && Enabled(cfg, s, e)
    ensures OrderInv(Next(cfg, s, e))
  {
    AckEffect(cfg, s, e);
    assert WorkerSeen(s.workers[e.w], s.h.firstDequeued);
    OrderFrame(s, Next(cfg, s, e), s.workers[e.w].raw, e.w, AckPhase(s, e));
  }

  lemma CleanOrder(cfg: Config, s: State, c: nat, now: int)
    requires OrderInv(s) && Enabled(cfg, s, CleanNext(c, now))
    ensures OrderInv(Next(cfg, s, CleanNext(c, now)))
  {
    var t := Next(cfg, s, CleanNext(c, now));
    LRemSubset(s.processing, s.cleaners[c][0]);
    assert s.cleaners[c][0] in s.cleaners[c];
    if t.queue != s.queue { assert t.queue[1..] == s.queue; }
  }

  lemma OrderStep(cfg: Config, s: State, e: Event)
    requires OrderInv(s) && Enabled(cfg, s, e)
    ensures OrderInv(Next(cfg, s, e))
  {
    match e
    case Dequeue(w) => DequeueOrder(cfg, s, w);
    case CleanNext(c, now) => CleanOrder(cfg, s, c, now);
    case Discard(_) | Succeed(_) | Bury(_) | Fail(_) => AckOrder(cfg, s, e);
    case Enqueue(_) =>
      assert s.h.firstDequeued <= s.h.enqueued;
      assert Next(cfg, s, e).queue[1..] == s.queue;
    case Requeue(w) =>
      assert Next(cfg, s, e).queue[1..] == s.queue;
      assert WorkerSeen(s.workers[w], s.h.firstDequeued);
    case Snapshot(_) | CleanerStop(_) | Drop(_) | Crash(_) =>
  }

  lemma {:induction false} OrderRun(cfg: Config, s: State, es: seq<Event>)
    requires OrderInv(s) && Valid(cfg, s, es)
    ensures OrderInv(Run(cfg, s, es))
    decreases |es|
  {
    if es != [] {
      OrderStep(cfg, s, es[0]);
      OrderRun(cfg, Next(cfg, s, es[0]), es[1..]);
    }
  }

  /** In every run, whatever retries, crashes and cleanups do, the jobs already
      dequeued once are a prefix of the jobs that arrived, and the never-dequeued
      ones wait in the queue in the remaining order. */
  lemma FirstDequeueOrder(cfg: Config, workers: nat, cleaners: nat, es: seq<Event>)
    requires Valid(cfg, Init(workers, cleaners), es)
    ensures var s := Run(cfg, Init(workers, cleaners), es);
            && s.h.firstDequeued <= s.h.enqueued
            && s.h.enqueued == s.h.firstDequeued + Unseen(s.queue, s.h.firstDequeued)
            && Distinct(s.h.enqueued)
  {
    OrderRun(cfg, Init(workers, cleaners), es);
  }
}
