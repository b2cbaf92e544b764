/** Job accounting: what every run does with every job. */
module QueueAccounting {
  import opened JsonText
  import opened QueueModel

  function IdWeight(id: nat): Payload -> int { p => if IdOf(p) == id then 1 else 0 }

  function WaitWeight(id: nat): Phase -> int {
    (phase: Phase) => if phase.Waiting? && phase.job.id == id then 1 else 0
  }

  /** Copies of a job in the queue, in processing and asleep before a retry. */
  function Copies(s: State, id: nat): int {
    Weight(Weights(IdWeight(id), IdWeight(id), WaitWeight(id)), s)
  }

  /** Ways in which a copy of a job left the system. */
  function Outcomes(h: History, id: nat): nat {
    h.succeeded[id] + h.buried[id] + h.discarded[id] + h.dropped[id]
  }

  function Arrivals(h: History, id: nat): nat { if id in h.enqueued then 1 else 0 }

  predicate Balanced(s: State, id: nat) {
    Copies(s, id) + Outcomes(s.h, id) == Arrivals(s.h, id) + s.h.missed[id]
  }

  lemma AckHistory(cfg: Config, s: State, e: Event, id: nat)
    requires IsAck(e) && Enabled(cfg, s, e)
    ensures var t := Next(cfg, s, e);
            var own := IdWeight(id)(s.workers[e.w].raw);
            && Outcomes(t.h, id) == Outcomes(s.h, id) + (if e.Fail? then 0 else own)
            && t.h.missed[id] == s.h.missed[id] + (if s.workers[e.w].raw in s.processing then 0 else own)
            && Arrivals(t.h, id) == Arrivals(s.h, id)
  {}

  /** An acknowledgement turns a copy into an outcome or a wait, or counts a miss. */
  lemma AckBalance(cfg: Config, s: State, e: Event, id: nat)
    requires Balanced(s, id) && IsAck(e) && Enabled(cfg, s, e)
    ensures Balanced(Next(cfg, s, e), id)
  {
    var f := Weights(IdWeight(id), IdWeight(id), WaitWeight(id));
    WeightStep(cfg, f, s, e);
    AckHistory(cfg, s, e, id);
    var raw := s.workers[e.w].raw;
    assert Delta(cfg, f, s, e)
        == (if e.Fail? then f.processing(raw) else 0) - (if raw in s.processing then f.processing(raw) else 0);
  }

  /** Any other step moves a copy, adds an arrival, or drops or duplicates one. */
  lemma OtherHistory(cfg: Config, s: State, e: Event, id: nat)
    requires Enabled(cfg, s, e) && !IsAck(e)
    ensures var t := Next(cfg, s, e);
            && Outcomes(t.h, id) == Outcomes(s.h, id) + (if e.Drop? && s.workers[e.w].job.id == id then 1 else 0)
            && Arrivals(t.h, id) == Arrivals(s.h, id) + (if e.Enqueue? && e.job.id == id then 1 else 0)
            && t.h.missed[id]
               == s.h.missed[id] + (if e.CleanNext? && Stale(cfg, s.cleaners[e.c][0], e.now)
                                    then Miss(s.processing, s.cleaners[e.c][0])[id] else 0)
  {}

  lemma BalanceStep(cfg: Config, s: State, e: Event, id: nat)
    requires Balanced(s, id) && Enabled(cfg, s, e)
    ensures Balanced(Next(cfg, s, e), id)
  {
    if IsAck(e) {
      AckBalance(cfg, s, e, id);
    } else {
      WeightStep(cfg, Weights(IdWeight(id), IdWeight(id), WaitWeight(id)), s, e);
      OtherHistory(cfg, s, e, id);
    }
  }

  lemma {:induction false} TotalIdle(f: Phase -> int, n: nat)
    ensures Total(f, seq(n, i => Idle)) == n * f(Idle)
  {
    if n > 0 {
      assert seq(n, i => Idle)[1..] == seq(n - 1, i => Idle);
      TotalIdle(f, n - 1);
    }
  }

  lemma {:induction false} BalanceRun(cfg: Config, s: State, es: seq<Event>, id: nat)
    requires Balanced(s, id) && Valid(cfg, s, es)
    ensures Balanced(Run(cfg, s, es), id)
    decreases |es|
  {
    if es != [] {
      BalanceStep(cfg, s, es[0], id);
      BalanceRun(cfg, Next(cfg, s, es[0]), es[1..], id);
    }
  }

  /** In every run: copies + outcomes == 1 + removals that found nothing.  So no
      arrived job vanishes without an outcome, and a job is never invented. */
  lemma JobAccounting(cfg: Config, workers: nat, cleaners: nat, es: seq<Event>, id: nat)
    requires Valid(cfg, Init(workers, cleaners), es)
    ensures var s := Run(cfg, Init(workers, cleaners), es);
            && Copies(s, id) + Outcomes(s.h, id) == Arrivals(s.h, id) + s.h.missed[id]
            && (id in s.h.enqueued ==> Copies(s, id) > 0 || Outcomes(s.h, id) > 0)
  {
    TotalIdle(WaitWeight(id), workers);
    BalanceRun(cfg, Init(workers, cleaners), es, id);
  }

  lemma {:induction false} NothingDropped(cfg: Config, s: State, es: seq<Event>)
    requires Valid(cfg, s, es) && forall e :: e in es ==> !e.Drop?
    ensures Run(cfg, s, es).h.dropped == s.h.dropped
    decreases |es|
  {
    if es != [] { NothingDropped(cfg, Next(cfg, s, es[0]), es[1..]); }
  }

  /** The window between acknowledgement and retry push is the only place where a job
      can vanish: in a run in which no worker is stopped inside that window, with any
      crashes and cleanups elsewhere, every arrived job has a copy left or has
      succeeded, been dead-lettered or been discarded as malformed. */
  lemma OnlyTheRetryWindowLoses(cfg: Config, workers: nat, cleaners: nat, es: seq<Event>, id: nat)
    requires Valid(cfg, Init(workers, cleaners), es) && forall e :: e in es ==> !e.Drop?
    requires id in Run(cfg, Init(workers, cleaners), es).h.enqueued
    ensures var s := Run(cfg, Init(workers, cleaners), es);
            Copies(s, id) + s.h.succeeded[id] + s.h.buried[id] + s.h.discarded[id] >= 1
  {
    NothingDropped(cfg, Init(workers, cleaners), es);
    JobAccounting(cfg, workers, cleaners, es, id);
  }

  // ---- Without cleanup every job is in exactly one place ----

  predicate IsCleanup(e: Event) { e.CleanNext? }

  function NoWeight(): Payload -> int { p => 0 }

  function EqWeight(raw: Payload): Payload -> int { p => if p == raw then 1 else 0 }

  function HoldWeight(raw: Payload): Phase -> int { phase => if phase == Holding(raw) then -1 else 0 }

  /** Copies of a text in processing, less the workers that hold it. */
  function Slack(s: State, raw: Payload): int {
    Weight(Weights(NoWeight(), EqWeight(raw), HoldWeight(raw)), s)
  }

  /** Every text a worker holds still has its own copy in processing. */
  ghost predicate HeldInProcessing(s: State) {
    s.h.missed == multiset{} && forall raw :: Slack(s, raw) >= 0
  }

  lemma {:induction false} NoneTotal<T>(f: T -> int, xs: seq<T>)
    requires forall x :: x in xs ==> f(x) == 0
    ensures Total(f, xs) == 0
  {
    if xs != [] { NoneTotal(f, xs[1..]); }
  }

  lemma {:induction false} NonPositive(f: Phase -> int, workers: seq<Phase>)
    requires forall p :: f(p) <= 0
    ensures Total(f, workers) <= 0
    ensures forall w :: 0 <= w < |workers| ==> Total(f, workers) <= f(workers[w])
  {
    if workers != [] { NonPositive(f, workers[1..]); }
  }

  lemma HeldFound(s: State, w: nat)
    requires w < |s.workers| && s.workers[w].Holding? && Slack(s, s.workers[w].raw) >= 0
    ensures s.workers[w].raw in s.processing
  {
    var raw := s.workers[w].raw;
    NoneTotal(NoWeight(), s.queue);
    NonPositive(HoldWeight(raw), s.workers);
    if raw !in s.processing { NoneTotal(EqWeight(raw), s.processing); }
  }

  lemma SlackStep(cfg: Config, s: State, e: Event, raw: Payload)
    requires Enabled(cfg, s, e) && !IsCleanup(e)
    requires IsAck(e) ==> s.workers[e.w].Holding? && s.workers[e.w].raw in s.processing
    ensures Slack(Next(cfg, s, e), raw) >= Slack(s, raw)
  {
    WeightStep(cfg, Weights(NoWeight(), EqWeight(raw), HoldWeight(raw)), s, e);
  }

  lemma HeldStep(cfg: Config, s: State, e: Event)
    requires HeldInProcessing(s) && Enabled(cfg, s, e) && !IsCleanup(e)
    ensures HeldInProcessing(Next(cfg, s, e))
  {
    if IsAck(e) {
      assert Slack(s, s.workers[e.w].raw) >= 0;
      HeldFound(s, e.w);
      AckEffect(cfg, s, e);
    }
    forall raw ensures Slack(Next(cfg, s, e), raw) >= 0 {
      assert Slack(s, raw) >= 0;
      SlackStep(cfg, s, e, raw);
    }
  }

  lemma {:induction false} HeldRun(cfg: Config, s: State, es: seq<Event>)
    requires HeldInProcessing(s) && Valid(cfg, s, es)
    requires forall e :: e in es ==> !IsCleanup(e)
    ensures HeldInProcessing(Run(cfg, s, es))
    decreases |es|
  {
    if es != [] {
      HeldStep(cfg, s, es[0]);
      HeldRun(cfg, Next(cfg, s, es[0]), es[1..]);
    }
  }

  lemma HeldReachable(cfg: Config, workers: nat, cleaners: nat, es: seq<Event>)
    requires Valid(cfg, Init(workers, cleaners), es) && forall e :: e in es ==> !IsCleanup(e)
    ensures HeldInProcessing(Run(cfg, Init(workers, cleaners), es))
  {
    forall raw ensures Slack(Init(workers, cleaners), raw) >= 0 {
      TotalIdle(HoldWeight(raw), workers);
    }
    HeldRun(cfg, Init(workers, cleaners), es);
  }

  /** As the worker is wired (the cleanup loop is never started), with any number of
      workers and any crashes, no removal misses and every arrived job has exactly
      one copy or exactly one outcome. */
  lemma ExactlyOncePlace(cfg: Config, workers: nat, cleaners: nat, es: seq<Event>, id: nat)
    requires Valid(cfg, Init(workers, cleaners), es)
    requires forall e :: e in es ==> !IsCleanup(e)
    ensures var s := Run(cfg, Init(workers, cleaners), es);
            && s.h.missed == multiset{}
            && Copies(s, id) + Outcomes(s.h, id) == Arrivals(s.h, id)
  {
    HeldReachable(cfg, workers, cleaners, es);
    JobAccounting(cfg, workers, cleaners, es, id);
  }

  // ---- What cleanup can do ----

  /** The race of a cleanup with a slow worker: the snapshot is taken while worker 0
      still runs its handlers; the worker acknowledges between the snapshot and the
      nack, and the nack pushes a second copy although its LREM found nothing. */
  function RaceEvents(job: Job, now: int): seq<Event> {
    [Enqueue(job)] + ([Dequeue(0)] + ([Snapshot(0)] + ([Succeed(0)] + ([CleanNext(0, now)] + []))))
  }

  lemma CleanupDuplicates(cfg: Config, job: Job, now: int)
    requires job.attempts == 0 && now - job.enqueuedAt > cfg.staleAfter
    ensures Valid(cfg, Init(1, 1), RaceEvents(job, now))
    ensures var s := Run(cfg, Init(1, 1), RaceEvents(job, now));
            s.h.succeeded[job.id] == 1 && s.queue == [Value(job)] && s.h.missed[job.id] == 1
  {
    var raw := Value(job);
    var s0 := Init(1, 1);
    var s1 := Next(cfg, s0, Enqueue(job));
    assert s1.queue == [raw] && s1.workers == [Idle] && s1.cleaners == [[]] && s1.processing == [];
    var s2 := Next(cfg, s1, Dequeue(0));
    assert s2.queue == [] && s2.processing == [raw] && s2.workers == [Holding(raw)];
    var s3 := Next(cfg, s2, Snapshot(0));
    assert s3.cleaners == [[raw]];
    var s4 := Next(cfg, s3, Succeed(0));
    assert s4.processing == [] && s4.queue == [] && s4.cleaners == [[raw]] && s4.h.succeeded == multiset{job.id};
    var s5 := Next(cfg, s4, CleanNext(0, now));
    assert s5.queue == [raw] && s5.h.missed == multiset{job.id} && s5.h.succeeded == s4.h.succeeded;
    RunStep(cfg, s4, CleanNext(0, now), []);
    RunStep(cfg, s3, Succeed(0), [CleanNext(0, now)] + []);
    RunStep(cfg, s2, Snapshot(0), [Succeed(0)] + ([CleanNext(0, now)] + []));
    RunStep(cfg, s1, Dequeue(0), [Snapshot(0)] + ([Succeed(0)] + ([CleanNext(0, now)] + [])));
    RunStep(cfg, s0, Enqueue(job), [Dequeue(0)] + ([Snapshot(0)] + ([Succeed(0)] + ([CleanNext(0, now)] + []))));
  }
}
