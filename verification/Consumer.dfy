/** The Redis list commands and the consume and cleanup methods of one worker,
    proved against the transition system of QueueModel. */
module Consumer {
  import opened Wrappers
  import opened JsonText
  import opened QueueModel

  /** The lists of one symbol. */
  class RedisLists {
    var queue: seq<Payload>
    var processing: seq<Payload>
    var dead: seq<Payload>

    constructor ()
      ensures queue == [] && processing == [] && dead == []
    {
      queue, processing, dead := [], [], [];
    }

    /** The lists are those of the state `s`. */
    ghost predicate Are(s: State)
      reads this
    {
      queue == s.queue && processing == s.processing && dead == s.dead
    }

    method EnqueueJob(raw: Payload)
      modifies this
      ensures queue == LPush(old(queue), raw) && processing == old(processing) && dead == old(dead)
    {
      queue := [raw] + queue;
    }

    method DequeueJob() returns (raw: Option<Payload>)
      modifies this
      ensures old(queue) == [] ==> raw == None && queue == [] && processing == old(processing)
      ensures old(queue) != [] ==>
                && raw.Some? && old(queue) == queue + [raw.value]
                && processing == LPush(old(processing), raw.value)
      ensures dead == old(dead)
    {
      if queue == [] { return None; }
      var last := queue[|queue| - 1];
      queue, processing := queue[..|queue| - 1], [last] + processing;
      raw := Some(last);
    }

    method AckJob(raw: Payload)
      modifies this
      ensures processing == LRem(old(processing), raw) && queue == old(queue) && dead == old(dead)
    {
      processing := LRem(processing, raw);
    }

    method NackJob(raw: Payload)
      modifies this
      ensures processing == LRem(old(processing), raw)
      ensures queue == LPush(old(queue), raw) && dead == old(dead)
    {
      processing := LRem(processing, raw);
      queue := [raw] + queue;
    }

    method MoveToDeadLetter(raw: Payload)
      modifies this
      ensures processing == LRem(old(processing), raw)
      ensures dead == LPush(old(dead), raw) && queue == old(queue)
    {
      processing := LRem(processing, raw);
      dead := [raw] + dead;
    }
  }

  /** How one pass of a consume cycle can end once a text is held. */
  function CycleEvents(cfg: Config, raw: Payload, failed: bool, cancelled: bool): seq<Event> {
    match Decode(raw)
    case None => [Discard(0)]
    case Some(job) =>
      if !failed then [Succeed(0)]
      else if LastAttempt(cfg, job) then [Bury(0)]
      else if cancelled then [Fail(0), Drop(0)]
      else [Fail(0), Requeue(0)]
  }

  /** The state at the end of the cycle of a worker that holds a decodable text. */
  lemma CycleEnds(cfg: Config, s: State, raw: Payload, job: Job, failed: bool, cancelled: bool) returns (t: State)
    requires Decode(raw) == Some(job) && s.workers == [Holding(raw)]
    ensures var es := CycleEvents(cfg, raw, failed, cancelled);
            Valid(cfg, s, es) && t == Run(cfg, s, es) && t.workers == [Idle]
    ensures var last := job.attempts + 1 >= cfg.maxRetries;
            var retried := job.(attempts := job.attempts + 1);
            var own := multiset{job.id};
            && t.processing == LRem(s.processing, raw)
            && t.queue == (if failed && !last && !cancelled then [RetryText(cfg, retried)] + s.queue else s.queue)
            && t.dead == (if failed && last then [raw] + s.dead else s.dead)
            && t.h.succeeded == (if failed then s.h.succeeded else s.h.succeeded + own)
            && t.h.buried == (if failed && last then s.h.buried + own else s.h.buried)
            && t.h.dropped == (if failed && !last && cancelled then s.h.dropped + own else s.h.dropped)
  {
    var es := CycleEvents(cfg, raw, failed, cancelled);
    var s1 := Next(cfg, s, es[0]);
    if |es| == 1 {
      RunStep(cfg, s, es[0], []);
      assert [es[0]] + [] == es;
      t := s1;
    } else {
      t := Next(cfg, s1, es[1]);
      RunStep(cfg, s1, es[1], []);
      RunStep(cfg, s, es[0], [es[1]] + []);
      assert [es[0]] + ([es[1]] + []) == es;
    }
  }

  /** The state at the end of one turn of the consume loop. */
  lemma TurnEnds(cfg: Config, s: State, failed: bool, cancelled: bool) returns (es: seq<Event>, t: State)
    requires s.workers == [Idle]
    ensures es == if s.queue == [] then []
                  else [Dequeue(0)] + CycleEvents(cfg, s.queue[|s.queue| - 1], failed, cancelled)
    ensures Valid(cfg, s, es) && t == Run(cfg, s, es) && t.workers == [Idle]
    ensures s.queue == [] ==> t == s
    ensures s.queue != [] ==>
              var raw, rest := s.queue[|s.queue| - 1], s.queue[..|s.queue| - 1];
              var last := raw.Value? && raw.value.attempts + 1 >= cfg.maxRetries;
              && t.processing == s.processing
              && t.queue == (if raw.Value? && failed && !last && !cancelled
                             then [RetryText(cfg, raw.value.(attempts := raw.value.attempts + 1))] + rest else rest)
              && t.dead == (if raw.Value? && failed && last then [raw] + s.dead else s.dead)
              && (raw.Bytes? ==> t.h.discarded == s.h.discarded + multiset{IdOf(raw)})
              && (raw.Value? ==>
                    var own := multiset{raw.value.id};
                    && t.h.succeeded == (if failed then s.h.succeeded else s.h.succeeded + own)
                    && t.h.buried == (if failed && last then s.h.buried + own else s.h.buried)
                    && t.h.dropped == (if failed && !last && cancelled then s.h.dropped + own else s.h.dropped))
  {
    if s.queue == [] { return [], s; }
    var raw := s.queue[|s.queue| - 1];
    var s1 := Next(cfg, s, Dequeue(0));
    var cycle := CycleEvents(cfg, raw, failed, cancelled);
    match Decode(raw) {
      case None => t := CycleDiscards(cfg, s1, raw, failed, cancelled);
      case Some(job) => t := CycleEnds(cfg, s1, raw, job, failed, cancelled);
    }
    RunStep(cfg, s, Dequeue(0), cycle);
    es := [Dequeue(0)] + cycle;
  }

  lemma CycleDiscards(cfg: Config, s: State, raw: Payload, failed: bool, cancelled: bool) returns (t: State)
    requires raw.Bytes? && s.workers == [Holding(raw)]
    ensures var es := CycleEvents(cfg, raw, failed, cancelled);
            Valid(cfg, s, es) && t == Run(cfg, s, es) && t.workers == [Idle]
    ensures t.processing == LRem(s.processing, raw) && t.queue == s.queue && t.dead == s.dead
    ensures t.h.discarded == s.h.discarded + multiset{IdOf(raw)}
  {
    t := Next(cfg, s, Discard(0));
    RunStep(cfg, s, Discard(0), []);
    assert [Discard(0)] + [] == CycleEvents(cfg, raw, failed, cancelled);
  }

  /** Texts that cleanup keeps in processing at time `now`. */
  function Kept(cfg: Config, list: seq<Payload>, now: int): seq<Payload> {
    if list == [] then []
    else Kept(cfg, list[..|list| - 1], now)
         + if Stale(cfg, list[|list| - 1], now) then [] else [list[|list| - 1]]
  }

  /** Texts that cleanup pushes back, as the queue then holds them. */
  function PushedBack(cfg: Config, list: seq<Payload>, now: int): seq<Payload> {
    if list == [] then []
    else (if Stale(cfg, list[|list| - 1], now) then [list[|list| - 1]] else [])
         + PushedBack(cfg, list[..|list| - 1], now)
  }

  lemma {:induction false} LRemPast(before: seq<Payload>, x: Payload, after: seq<Payload>)
    requires x !in before
    ensures LRem(before + ([x] + after), x) == before + after
  {
    var all := before + ([x] + after);
    if before == [] {
      assert all == [x] + after;
    } else {
      assert all[1..] == before[1..] + ([x] + after);
      LRemPast(before[1..], x, after);
      assert [before[0]] + (before[1..] + after) == before + after;
    }
  }

  /** Nacking a stale text: the next step of a cleanup. */
  lemma NackNext(cfg: Config, jobs: seq<Payload>, i: nat, now: int)
    requires i < |jobs| && Stale(cfg, jobs[i], now)
    ensures LRem(Kept(cfg, jobs[..i], now) + jobs[i..], jobs[i]) == Kept(cfg, jobs[..i + 1], now) + jobs[i + 1..]
    ensures [jobs[i]] + PushedBack(cfg, jobs[..i], now) == PushedBack(cfg, jobs[..i + 1], now)
  {
    assert jobs[i..] == [jobs[i]] + jobs[i + 1..];
    assert jobs[..i + 1][..i] == jobs[..i];
    KeptNotStale(cfg, jobs[..i], now);
    LRemPast(Kept(cfg, jobs[..i], now), jobs[i], jobs[i + 1..]);
  }

  lemma KeepNext(cfg: Config, jobs: seq<Payload>, i: nat, now: int)
    requires i < |jobs| && !Stale(cfg, jobs[i], now)
    ensures Kept(cfg, jobs[..i], now) + jobs[i..] == Kept(cfg, jobs[..i + 1], now) + jobs[i + 1..]
    ensures PushedBack(cfg, jobs[..i + 1], now) == PushedBack(cfg, jobs[..i], now)
  {
    assert jobs[i..] == [jobs[i]] + jobs[i + 1..];
    assert jobs[..i + 1][..i] == jobs[..i];
  }

  lemma {:induction false} KeptNotStale(cfg: Config, list: seq<Payload>, now: int)
    ensures forall p :: p in Kept(cfg, list, now) ==> !Stale(cfg, p, now)
  {
    if list != [] { KeptNotStale(cfg, list[..|list| - 1], now); }
  }

  /** A cleanup moves texts and neither drops nor invents one. */
  lemma {:induction false} CleanupConserves(cfg: Config, list: seq<Payload>, now: int)
    ensures multiset(Kept(cfg, list, now)) + multiset(PushedBack(cfg, list, now)) == multiset(list)
    ensures forall p :: p in PushedBack(cfg, list, now) ==> Stale(cfg, p, now)
  {
    if list != [] {
      var n := |list| - 1;
      assert list == list[..n] + [list[n]];
      CleanupConserves(cfg, list[..n], now);
    }
  }

  /** What cleanup pushes back: exactly the texts of jobs older than the threshold. */
  lemma {:induction false} PushedBackIff(cfg: Config, list: seq<Payload>, now: int, p: Payload)
    ensures p in PushedBack(cfg, list, now)
       <==> p in list && p.Value? && now - p.value.enqueuedAt > cfg.staleAfter
    ensures p in Kept(cfg, list, now)
       <==> p in list && !(p.Value? && now - p.value.enqueuedAt > cfg.staleAfter)
  {
    if list != [] {
      var n := |list| - 1;
      assert list == list[..n] + [list[n]];
      PushedBackIff(cfg, list[..n], now, p);
    }
  }

  /** The stale texts of a list, in order. */
  function StaleOf(cfg: Config, list: seq<Payload>, now: int): seq<Payload> {
    if list == [] then []
    else (if Stale(cfg, list[0], now) then [list[0]] else []) + StaleOf(cfg, list[1..], now)
  }

  function Reversed(list: seq<Payload>): seq<Payload> {
    if list == [] then [] else Reversed(list[1..]) + [list[0]]
  }

  lemma {:induction false} PushedBackFront(cfg: Config, p: Payload, list: seq<Payload>, now: int)
    ensures PushedBack(cfg, [p] + list, now) == PushedBack(cfg, list, now) + if Stale(cfg, p, now) then [p] else []
  {
    if list == [] {
      assert [p] + list == [p] && [p][..0] == [];
    } else {
      var n := |list| - 1;
      assert ([p] + list)[..n + 1] == [p] + list[..n] && ([p] + list)[n + 1] == list[n];
      PushedBackFront(cfg, p, list[..n], now);
    }
  }

  /** Cleanup reverses the delivery order of what it pushes back: processing holds the
      latest dequeued text on the left, the queue delivers from the right, and the stale
      texts come back mirrored, so the latest dequeued of them is delivered first. */
  lemma {:induction false} CleanupReverses(cfg: Config, list: seq<Payload>, now: int)
    ensures PushedBack(cfg, list, now) == Reversed(StaleOf(cfg, list, now))
  {
    if list != [] {
      CleanupReverses(cfg, list[1..], now);
      PushedBackFront(cfg, list[0], list[1..], now);
      assert [list[0]] + list[1..] == list;
      var rest := StaleOf(cfg, list[1..], now);
      assert ([list[0]] + rest)[1..] == rest;
      assert [] + rest == rest;
    }
  }

  class Consumer {
    const cfg: Config
    const redis: RedisLists

    constructor (cfg: Config, redis: RedisLists)
      ensures this.cfg == cfg && this.redis == redis
    {
      this.cfg, this.redis := cfg, redis;
    }

    /** Run every handler, even after one failed, and settle the job: it succeeded if every
        handler did; otherwise it is buried after its last allowed attempt, or else waits
        and joins the left end of the queue with one attempt more, unless it is cancelled. */
    method ProcessJob(raw: Payload, job: Job, handlerOk: seq<bool>, cancelled: bool, ghost s: State)
      returns (ghost t: State)
      requires Decode(raw) == Some(job) && redis.Are(s) && s.workers == [Holding(raw)]
      modifies redis
      ensures var es := CycleEvents(cfg, raw, false in handlerOk, cancelled);
              Valid(cfg, s, es) && t == Run(cfg, s, es) && redis.Are(t) && t.workers == [Idle]
      ensures redis.processing == LRem(old(redis.processing), raw)
      ensures t.h.succeeded == s.h.succeeded + if false !in handlerOk then multiset{job.id} else multiset{}
      ensures false !in handlerOk ==>
                && redis.queue == old(redis.queue) && redis.dead == old(redis.dead)
                && t.h.buried == s.h.buried && t.h.dropped == s.h.dropped
      ensures false in handlerOk && job.attempts + 1 >= cfg.maxRetries ==>
                && redis.queue == old(redis.queue) && redis.dead == [raw] + old(redis.dead)
                && t.h.buried == s.h.buried + multiset{job.id} && t.h.dropped == s.h.dropped
      ensures false in handlerOk && job.attempts + 1 < cfg.maxRetries && !cancelled ==>
                && redis.queue == [RetryText(cfg, job.(attempts := job.attempts + 1))] + old(redis.queue)
                && redis.dead == old(redis.dead)
                && t.h.buried == s.h.buried && t.h.dropped == s.h.dropped
      ensures false in handlerOk && job.attempts + 1 < cfg.maxRetries && cancelled ==>
                && redis.queue == old(redis.queue) && redis.dead == old(redis.dead)
                && t.h.buried == s.h.buried && t.h.dropped == s.h.dropped + multiset{job.id}
    {
      var failed := false;
      for i := 0 to |handlerOk|
        invariant failed <==> false in handlerOk[..i]
      {
        if !handlerOk[i] { failed := true; }
      }
      assert handlerOk[..|handlerOk|] == handlerOk;
      t := CycleEnds(cfg, s, raw, job, failed, cancelled);
      if !failed {
        redis.AckJob(raw);
        return;
      }
      var updated := job.(attempts := job.attempts + 1);
      if updated.attempts >= cfg.maxRetries {
        redis.MoveToDeadLetter(raw);
        return;
      }
      redis.AckJob(raw);
      if cancelled { return; }
      redis.EnqueueJob(RetryText(cfg, updated));
    }

    /** One turn of the consume loop, undisturbed, is a run of the transition system.  An
        empty queue changes nothing, and a text that does not decode is discarded. */
    method ConsumeOnce(handlerOk: seq<bool>, cancelled: bool, ghost s: State)
      returns (ghost es: seq<Event>, ghost t: State)
      requires redis.Are(s) && s.workers == [Idle]
      modifies redis
      ensures Valid(cfg, s, es) && t == Run(cfg, s, es) && redis.Are(t) && t.workers == [Idle]
      ensures es == if s.queue == [] then []
                    else [Dequeue(0)]
                         + CycleEvents(cfg, s.queue[|s.queue| - 1], false in handlerOk, cancelled)
      ensures s.queue == [] ==> t == s
      ensures s.queue != [] ==>
                var n := |s.queue| - 1;
                var raw, rest := s.queue[n], s.queue[..n];
                && redis.processing == s.processing
                && (raw.Bytes? ==>
                      && redis.queue == rest && redis.dead == s.dead
                      && t.h.discarded == s.h.discarded + multiset{IdOf(raw)})
                && (raw.Value? && false !in handlerOk ==>
                      && redis.queue == rest && redis.dead == s.dead
                      && t.h.succeeded == s.h.succeeded + multiset{raw.value.id})
                && (raw.Value? && false in handlerOk ==> t.h.succeeded == s.h.succeeded)
                && (raw.Value? && false in handlerOk && raw.value.attempts + 1 >= cfg.maxRetries ==>
                      && redis.queue == rest && redis.dead == [raw] + s.dead
                      && t.h.buried == s.h.buried + multiset{raw.value.id})
                && (raw.Value? && false in handlerOk && raw.value.attempts + 1 < cfg.maxRetries ==>
                      && redis.dead == s.dead
                      && redis.queue
                         == (if cancelled then [] else [RetryText(cfg, raw.value.(attempts := raw.value.attempts + 1))])
                            + rest
                      && t.h.dropped
                         == s.h.dropped + (if cancelled then multiset{raw.value.id} else multiset{}))
    {
      es, t := TurnEnds(cfg, s, false in handlerOk, cancelled);
      var raw := redis.DequeueJob();
      if raw == None { return; }
      ghost var s1 := Next(cfg, s, Dequeue(0));
      assert s1.workers == [Holding(raw.value)];
      match Decode(raw.value)
      case None => redis.AckJob(raw.value);
      case Some(job) =>
        ghost var t1 := ProcessJob(raw.value, job, handlerOk, cancelled, s1);
        assert t1 == t by { RunStep(cfg, s, Dequeue(0), es[1..]); }
    }

    /** An undisturbed cleanup moves exactly the stale decodable texts back to the left
        end of the queue, in reverse order, and leaves the others in order. */
    method ReQueueStale(now: int)
      modifies redis
      ensures redis.processing == Kept(cfg, old(redis.processing), now)
      ensures redis.queue == PushedBack(cfg, old(redis.processing), now) + old(redis.queue)
      ensures redis.dead == old(redis.dead)
    {
      var jobs := redis.processing;
      for i := 0 to |jobs|
        invariant redis.processing == Kept(cfg, jobs[..i], now) + jobs[i..]
        invariant redis.queue == PushedBack(cfg, jobs[..i], now) + old(redis.queue)
        invariant redis.dead == old(redis.dead)
      {
        if Stale(cfg, jobs[i], now) {
          NackNext(cfg, jobs, i, now);
          redis.NackJob(jobs[i]);
        } else {
          KeepNext(cfg, jobs, i, now);
        }
      }
      assert jobs[..|jobs|] == jobs;
    }
  }
}
