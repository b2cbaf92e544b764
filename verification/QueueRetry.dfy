/** Retries: attempt bounds, handler passes, termination, and what the doubly
    encoded retry text does to the dead-letter list. */
module QueueRetry {
  import opened JsonText
  import opened QueueModel
  import opened QueueAccounting

  /** Number of handler passes a job is allowed: one even when maxRetries is not positive. */
  function Bound(cfg: Config): nat { if cfg.maxRetries < 1 then 1 else cfg.maxRetries }

  /** Texts that may lie in the queue, in processing, in a worker or in a snapshot. */
  predicate GoodText(cfg: Config, raw: Payload) {
    match raw
    case Value(job) => job.attempts < Bound(cfg) && (cfg.codec == AsWritten ==> job.attempts == 0)
    case Bytes(inner) => cfg.codec == AsWritten && inner.Value? && inner.value.attempts == 1 < Bound(cfg)
  }

  predicate GoodPhase(cfg: Config, phase: Phase) {
    match phase
    case Idle => true
    case Holding(raw) => GoodText(cfg, raw)
    case Waiting(job) =>
      0 < job.attempts < Bound(cfg) && (cfg.codec == AsWritten ==> job.attempts == 1)
  }

  /** Only the last allowed attempt is buried; as written only a first attempt can be. */
  predicate GoodDead(cfg: Config, raw: Payload) {
    raw.Value? && raw.value.attempts == Bound(cfg) - 1 && (cfg.codec == AsWritten ==> raw.value.attempts == 0)
  }

  ghost predicate GoodList(cfg: Config, list: seq<Payload>) { forall p :: p in list ==> GoodText(cfg, p) }

  ghost predicate RetryInv(cfg: Config, s: State) {
    && GoodList(cfg, s.queue) && GoodList(cfg, s.processing)
    && (forall w :: 0 <= w < |s.workers| ==> GoodPhase(cfg, s.workers[w]))
    && (forall c :: 0 <= c < |s.cleaners| ==> GoodList(cfg, s.cleaners[c]))
    && (forall p :: p in s.dead ==> GoodDead(cfg, p))
    && (forall i :: 0 <= i < |s.h.passes| ==>
          s.h.passes[i].attempts < Bound(cfg) && (cfg.codec == AsWritten ==> s.h.passes[i].attempts == 0))
  }

  lemma LRemGood(cfg: Config, list: seq<Payload>, x: Payload)
    requires GoodList(cfg, list)
    ensures GoodList(cfg, LRem(list, x))
  {
    if list != [] && list[0] != x { LRemGood(cfg, list[1..], x); }
  }

  lemma AckRetry(cfg: Config, s: State, e: Event)
    requires RetryInv(cfg, s) && IsAck(e) && Enabled(cfg, s, e)
    ensures RetryInv(cfg, Next(cfg, s, e))
  {
    AckEffect(cfg, s, e);
    assert GoodPhase(cfg, s.workers[e.w]);
    LRemGood(cfg, s.processing, s.workers[e.w].raw);
  }

  lemma CleanRetry(cfg: Config, s: State, c: nat, now: int)
    requires RetryInv(cfg, s) && Enabled(cfg, s, CleanNext(c, now))
    ensures RetryInv(cfg, Next(cfg, s, CleanNext(c, now)))
  {
    assert s.cleaners[c][0] in s.cleaners[c];
    LRemGood(cfg, s.processing, s.cleaners[c][0]);
  }

  lemma DequeueRetry(cfg: Config, s: State, w: nat)
    requires RetryInv(cfg, s) && Enabled(cfg, s, Dequeue(w))
    ensures RetryInv(cfg, Next(cfg, s, Dequeue(w)))
  {
    var raw := s.queue[|s.queue| - 1];
    assert raw in s.queue;
    assert GoodPhase(cfg, Holding(raw));
  }

  lemma CrashRetry(cfg: Config, s: State, w: nat)
    requires RetryInv(cfg, s) && Enabled(cfg, s, Crash(w))
    ensures RetryInv(cfg, Next(cfg, s, Crash(w)))
  {
    assert GoodPhase(cfg, s.workers[w]);
  }

  lemma RetryStep(cfg: Config, s: State, e: Event)
    requires RetryInv(cfg, s) && Enabled(cfg, s, e)
    ensures RetryInv(cfg, Next(cfg, s, e))
  {
    match e
    case Discard(_) | Succeed(_) | Bury(_) | Fail(_) => AckRetry(cfg, s, e);
    case CleanNext(c, now) => CleanRetry(cfg, s, c, now);
    case Dequeue(w) => DequeueRetry(cfg, s, w);
    case Crash(w) => CrashRetry(cfg, s, w);
    case Requeue(w) => assert GoodPhase(cfg, s.workers[w]);
    case Enqueue(_) | Snapshot(_) | CleanerStop(_) | Drop(_) =>
  }

  lemma InitRetry(cfg: Config, workers: nat, cleaners: nat)
    ensures RetryInv(cfg, Init(workers, cleaners))
  {}

  lemma {:induction false} RetryRun(cfg: Config, s: State, es: seq<Event>)
    requires RetryInv(cfg, s) && Valid(cfg, s, es)
    ensures RetryInv(cfg, Run(cfg, s, es))
    decreases |es|
  {
    if es != [] {
      RetryStep(cfg, s, es[0]);
      RetryRun(cfg, Next(cfg, s, es[0]), es[1..]);
    }
  }

  /** In every run, whatever the codec: a queued or processing text has used fewer
      attempts than allowed, and a dead-lettered text carries exactly the last one. */
  lemma AttemptsBounded(cfg: Config, workers: nat, cleaners: nat, es: seq<Event>)
    requires Valid(cfg, Init(workers, cleaners), es)
    ensures var s := Run(cfg, Init(workers, cleaners), es);
            && (forall p :: p in s.queue || p in s.processing ==> Source(p).attempts < Bound(cfg))
            && (forall p :: p in s.dead ==> Source(p).attempts == Bound(cfg) - 1)
  {
    InitRetry(cfg, workers, cleaners);
    RetryRun(cfg, Init(workers, cleaners), es);
    var s := Run(cfg, Init(workers, cleaners), es);
    forall p | GoodText(cfg, p) ensures Source(p).attempts < Bound(cfg) {
      if p.Bytes? { assert Source(p) == p.inner.value; }
    }
  }

  /** With the doubly encoded retry text, handlers only ever see a first attempt. */
  lemma AsWrittenOnlyFirstAttempts(cfg: Config, workers: nat, cleaners: nat, es: seq<Event>, i: nat)
    requires cfg.codec == AsWritten && Valid(cfg, Init(workers, cleaners), es)
    requires i < |Run(cfg, Init(workers, cleaners), es).h.passes|
    ensures Run(cfg, Init(workers, cleaners), es).h.passes[i].attempts == 0
  {
    InitRetry(cfg, workers, cleaners);
    RetryRun(cfg, Init(workers, cleaners), es);
  }

  // ---- The dead-letter list ----

  /** The consume cycles of a job that fails `n` more times and is then buried. */
  function FailingCycles(n: nat): seq<Event> {
    if n == 0 then [Dequeue(0), Bury(0)] else RetryCycle() + FailingCycles(n - 1)
  }

  function RetryCycle(): seq<Event> { [Dequeue(0), Fail(0), Requeue(0)] }

  /** One idle worker and one queued job. */
  predicate OneQueued(s: State, job: Job) { s.queue == [Value(job)] && s.processing == [] && s.workers == [Idle] }

  lemma OneDequeued(cfg: Config, s: State, job: Job)
    requires OneQueued(s, job)
    ensures Enabled(cfg, s, Dequeue(0))
    ensures var t := Next(cfg, s, Dequeue(0));
            t.queue == [] && t.processing == [Value(job)] && t.workers == [Holding(Value(job))]
  {}

  lemma RetryOnce(cfg: Config, s: State, job: Job)
    requires OneQueued(s, job) && cfg.codec == Intended && job.attempts + 1 < cfg.maxRetries
    ensures Valid(cfg, s, RetryCycle())
    ensures OneQueued(Run(cfg, s, RetryCycle()), job.(attempts := job.attempts + 1))
  {
    OneDequeued(cfg, s, job);
    var s1 := Next(cfg, s, Dequeue(0));
    var s2 := Next(cfg, s1, Fail(0));
    assert [Fail(0), Requeue(0)][1..] == [Requeue(0)] && RetryCycle()[1..] == [Fail(0), Requeue(0)];
    assert Run(cfg, s2, [Requeue(0)]) == Next(cfg, s2, Requeue(0));
    assert Run(cfg, s1, [Fail(0), Requeue(0)]) == Next(cfg, s2, Requeue(0));
  }

  lemma BuryOnce(cfg: Config, s: State, job: Job)
    requires OneQueued(s, job) && LastAttempt(cfg, job)
    ensures Valid(cfg, s, [Dequeue(0), Bury(0)]) && Run(cfg, s, [Dequeue(0), Bury(0)]).dead != []
  {
    OneDequeued(cfg, s, job);
    var s1 := Next(cfg, s, Dequeue(0));
    assert [Dequeue(0), Bury(0)][1..] == [Bury(0)];
    assert Run(cfg, s1, [Bury(0)]) == Next(cfg, s1, Bury(0));
  }

  lemma {:induction false} FailingCyclesBury(cfg: Config, s: State, job: Job, n: nat)
    requires OneQueued(s, job) && job.attempts + n + 1 == Bound(cfg)
    requires n > 0 ==> cfg.codec == Intended
    ensures Valid(cfg, s, FailingCycles(n)) && Run(cfg, s, FailingCycles(n)).dead != []
    decreases n
  {
    if n == 0 {
      BuryOnce(cfg, s, job);
    } else {
      RetryOnce(cfg, s, job);
      FailingCyclesBury(cfg, Run(cfg, s, RetryCycle()), job.(attempts := job.attempts + 1), n - 1);
      RunAppend(cfg, s, RetryCycle(), FailingCycles(n - 1));
    }
  }

  /** A run of one worker that fills the dead-letter list. */
  lemma BuryingRun(cfg: Config) returns (es: seq<Event>)
    requires cfg.codec == Intended || cfg.maxRetries <= 1
    ensures Valid(cfg, Init(1, 0), es) && Run(cfg, Init(1, 0), es).dead != []
  {
    var job := Job(0, 0, 0);
    var rest := FailingCycles(Bound(cfg) - 1);
    FailingCyclesBury(cfg, Next(cfg, Init(1, 0), Enqueue(job)), job, Bound(cfg) - 1);
    RunStep(cfg, Init(1, 0), Enqueue(job), rest);
    es := [Enqueue(job)] + rest;
  }

  lemma NothingBuried(cfg: Config, workers: nat, cleaners: nat, es: seq<Event>)
    requires cfg.codec == AsWritten && cfg.maxRetries > 1 && Valid(cfg, Init(workers, cleaners), es)
    ensures Run(cfg, Init(workers, cleaners), es).dead == []
  {
    InitRetry(cfg, workers, cleaners);
    RetryRun(cfg, Init(workers, cleaners), es);
    var dead := Run(cfg, Init(workers, cleaners), es).dead;
    if dead != [] { assert GoodDead(cfg, dead[0]) by { assert dead[0] in dead; } }
  }

  ghost predicate Buries(cfg: Config, workers: nat, cleaners: nat, es: seq<Event>) {
    Valid(cfg, Init(workers, cleaners), es) && Run(cfg, Init(workers, cleaners), es).dead != []
  }

  /** "Dead letter queue after max retries" holds exactly when the retry text decodes
      or no retry is allowed: as written, with maxRetries >= 2, no run of any number
      of workers and cleaners ever fills the dead-letter list. */
  lemma DeadLetterReachable(cfg: Config)
    ensures (exists workers: nat, cleaners: nat, es: seq<Event> :: Buries(cfg, workers, cleaners, es))
       <==> cfg.codec == Intended || cfg.maxRetries <= 1
  {
    if cfg.codec == Intended || cfg.maxRetries <= 1 {
      var es := BuryingRun(cfg);
      assert Buries(cfg, 1, 0, es);
    } else {
      forall workers: nat, cleaners: nat, es: seq<Event> | Valid(cfg, Init(workers, cleaners), es)
        ensures !Buries(cfg, workers, cleaners, es)
      {
        NothingBuried(cfg, workers, cleaners, es);
      }
    }
  }

  // ---- Handler passes per job ----

  /** Passes the text can still cause without cleanup. */
  function TextPasses(cfg: Config, raw: Payload): int {
    match raw
    case Value(job) => if cfg.codec == AsWritten then 1 else Bound(cfg) - job.attempts
    case Bytes(_) => 0
  }

  function PassWeight(cfg: Config, id: nat): Payload -> int {
    p => if IdOf(p) == id then TextPasses(cfg, p) else 0
  }

  function PhasePasses(cfg: Config, id: nat): Phase -> int {
    (phase: Phase) =>
      match phase
      case Idle => 0
      case Holding(raw) => PassWeight(cfg, id)(raw)
      case Waiting(job) =>
        if job.id == id && cfg.codec == Intended then Bound(cfg) - job.attempts else 0
  }

  function PassWeights(cfg: Config, id: nat): Weights {
    Weights(PassWeight(cfg, id), NoWeight(), PhasePasses(cfg, id))
  }

  function PassesOf(passes: seq<Pass>, id: nat): nat {
    if passes == [] then 0
    else PassesOf(passes[..|passes| - 1], id) + if passes[|passes| - 1].id == id then 1 else 0
  }

  /** Handler passes a single delivery of a job may take. */
  function PassCap(cfg: Config): nat { if cfg.codec == AsWritten then 1 else Bound(cfg) }

  ghost predicate PassInv(cfg: Config, s: State, id: nat) {
    PassesOf(s.h.passes, id) + Weight(PassWeights(cfg, id), s) <= Arrivals(s.h, id) * PassCap(cfg)
  }

  lemma OnePass(passes: seq<Pass>, p: Pass, id: nat)
    ensures PassesOf(passes + [p], id) == PassesOf(passes, id) + if p.id == id then 1 else 0
  {
    assert (passes + [p])[..|passes|] == passes;
  }

  /** The steps that end a pass of the handlers. */
  predicate EndsPass(s: State, e: Event) {
    || (IsAck(e) && !e.Discard?)
    || (e.Crash? && e.w < |s.workers| && s.workers[e.w].Holding? && s.workers[e.w].raw.Value?)
  }

  /** Which passes a step records. */
  lemma PassesGrow(cfg: Config, s: State, e: Event)
    requires Enabled(cfg, s, e)
    ensures Next(cfg, s, e).h.passes
         == s.h.passes
            + if EndsPass(s, e) then [Pass(IdOf(s.workers[e.w].raw), Source(s.workers[e.w].raw).attempts)] else []
  {
    if IsAck(e) { AckEffect(cfg, s, e); }
  }

  lemma PassesStep(cfg: Config, s: State, e: Event, id: nat)
    requires Enabled(cfg, s, e)
    ensures PassesOf(Next(cfg, s, e).h.passes, id)
         == PassesOf(s.h.passes, id) + if EndsPass(s, e) && IdOf(s.workers[e.w].raw) == id then 1 else 0
  {
    PassesGrow(cfg, s, e);
    if EndsPass(s, e) {
      OnePass(s.h.passes, Pass(IdOf(s.workers[e.w].raw), Source(s.workers[e.w].raw).attempts), id);
    } else {
      assert s.h.passes + [] == s.h.passes;
    }
  }

  /** An arrival brings its passes with it, and a pass uses one up. */
  lemma PassDelta(cfg: Config, s: State, e: Event, id: nat)
    requires RetryInv(cfg, s) && Enabled(cfg, s, e) && !IsCleanup(e)
    ensures Delta(cfg, PassWeights(cfg, id), s, e)
         <= (if e.Enqueue? && e.job.id == id then PassCap(cfg) else 0)
            - (if EndsPass(s, e) && IdOf(s.workers[e.w].raw) == id then 1 else 0)
  {
    if IsAck(e) || e.Drop? || e.Crash? || e.Requeue? { assert GoodPhase(cfg, s.workers[e.w]); }
  }

  lemma PassStep(cfg: Config, s: State, e: Event, id: nat)
    requires RetryInv(cfg, s) && PassInv(cfg, s, id) && Enabled(cfg, s, e) && !IsCleanup(e)
    ensures PassInv(cfg, Next(cfg, s, e), id)
  {
    WeightStep(cfg, PassWeights(cfg, id), s, e);
    PassesStep(cfg, s, e, id);
    PassDelta(cfg, s, e, id);
    var before, after := Arrivals(s.h, id), Arrivals(Next(cfg, s, e).h, id);
    assert after == before + (if e.Enqueue? && e.job.id == id then 1 else 0);
    assert after * PassCap(cfg) == before * PassCap(cfg) + (after - before) * PassCap(cfg);
  }

  lemma {:induction false} PassRun(cfg: Config, s: State, es: seq<Event>, id: nat)
    requires RetryInv(cfg, s) && PassInv(cfg, s, id) && Valid(cfg, s, es)
    requires forall e :: e in es ==> !IsCleanup(e)
    ensures RetryInv(cfg, Run(cfg, s, es)) && PassInv(cfg, Run(cfg, s, es), id)
    decreases |es|
  {
    if es != [] {
      RetryStep(cfg, s, es[0]);
      PassStep(cfg, s, es[0], id);
      PassRun(cfg, Next(cfg, s, es[0]), es[1..], id);
    }
  }

  lemma GoodNonNegative(cfg: Config, s: State, id: nat)
    requires RetryInv(cfg, s)
    ensures Weight(PassWeights(cfg, id), s) >= 0
  {
    NonNegative(PassWeight(cfg, id), s.queue);
    NoneTotal(NoWeight(), s.processing);
    forall p | p in s.workers ensures PhasePasses(cfg, id)(p) >= 0 { assert GoodPhase(cfg, p); }
    NonNegative(PhasePasses(cfg, id), s.workers);
  }

  lemma {:induction false} NonNegative<T>(f: T -> int, xs: seq<T>)
    requires forall x :: x in xs ==> f(x) >= 0
    ensures Total(f, xs) >= 0
  {
    if xs != [] { NonNegative(f, xs[1..]); }
  }

  /** Without cleanup, the handlers see a job at most maxRetries times, and as
      written at most once, in every run with any crashes and workers. */
  lemma HandlerPassesBounded(cfg: Config, workers: nat, cleaners: nat, es: seq<Event>, id: nat)
    requires Valid(cfg, Init(workers, cleaners), es)
    requires forall e :: e in es ==> !IsCleanup(e)
    ensures PassesOf(Run(cfg, Init(workers, cleaners), es).h.passes, id) <= PassCap(cfg)
  {
    TotalIdle(PhasePasses(cfg, id), workers);
    InitRetry(cfg, workers, cleaners);
    PassRun(cfg, Init(workers, cleaners), es, id);
    GoodNonNegative(cfg, Run(cfg, Init(workers, cleaners), es), id);
  }

  // ---- Draining ----

  /** Steps of the consume loops: everything but arrivals and cleanup. */
  predicate IsWorkerStep(e: Event) {
    !e.Enqueue? && !e.Snapshot? && !e.CleanNext? && !e.CleanerStop?
  }

  function Work(cfg: Config): Payload -> int {
    (p: Payload) => if p.Value? then 3 * (Bound(cfg) - p.value.attempts) else 3
  }

  function PhaseWork(cfg: Config): Phase -> int {
    (phase: Phase) =>
      match phase
      case Idle => 0
      case Holding(raw) => Work(cfg)(raw) - 1
      case Waiting(job) => 3 * (Bound(cfg) - job.attempts) + 1
  }

  function Remaining(cfg: Config, s: State): int {
    Weight(Weights(Work(cfg), NoWeight(), PhaseWork(cfg)), s)
  }

  lemma DrainStep(cfg: Config, s: State, e: Event)
    requires RetryInv(cfg, s) && Enabled(cfg, s, e) && IsWorkerStep(e)
    ensures Remaining(cfg, Next(cfg, s, e)) < Remaining(cfg, s)
  {
    WeightStep(cfg, Weights(Work(cfg), NoWeight(), PhaseWork(cfg)), s, e);
    assert GoodPhase(cfg, s.workers[e.w]);
  }

  lemma RemainingNonNegative(cfg: Config, s: State)
    requires RetryInv(cfg, s)
    ensures Remaining(cfg, s) >= 0
  {
    NonNegative(Work(cfg), s.queue);
    NoneTotal(NoWeight(), s.processing);
    forall p | p in s.workers ensures PhaseWork(cfg)(p) >= 0 { assert GoodPhase(cfg, p); }
    NonNegative(PhaseWork(cfg), s.workers);
  }

  lemma {:induction false} DrainRun(cfg: Config, s: State, es: seq<Event>)
    requires RetryInv(cfg, s) && Valid(cfg, s, es)
    requires forall e :: e in es ==> IsWorkerStep(e)
    ensures |es| <= Remaining(cfg, s)
    decreases |es|
  {
    if es == [] {
      RemainingNonNegative(cfg, s);
    } else {
      DrainStep(cfg, s, es[0]);
      RetryStep(cfg, s, es[0]);
      DrainRun(cfg, Next(cfg, s, es[0]), es[1..]);
    }
  }

  predicate Drained(s: State) {
    s.queue == [] && forall w :: 0 <= w < |s.workers| ==> s.workers[w].Idle?
  }

  /** From every reachable state the consume loops can take only boundedly many
      steps before something arrives or cleanup runs, and they stop only when the
      queue is empty and no worker is busy. */
  lemma QueueDrains(cfg: Config, workers: nat, cleaners: nat, before: seq<Event>, es: seq<Event>)
    requires workers > 0 && Valid(cfg, Init(workers, cleaners), before)
    requires Valid(cfg, Run(cfg, Init(workers, cleaners), before), es)
    requires forall e :: e in es ==> IsWorkerStep(e)
    ensures |es| <= Remaining(cfg, Run(cfg, Init(workers, cleaners), before))
    ensures var s := Run(cfg, Run(cfg, Init(workers, cleaners), before), es);
            (forall e :: IsWorkerStep(e) ==> !Enabled(cfg, s, e))
            <==> Drained(s)
  {
    InitRetry(cfg, workers, cleaners);
    RetryRun(cfg, Init(workers, cleaners), before);
    var r := Run(cfg, Init(workers, cleaners), before);
    DrainRun(cfg, r, es);
    WorkersFixed(cfg, Init(workers, cleaners), before);
    WorkersFixed(cfg, r, es);
    StuckMeansDrained(cfg, Run(cfg, r, es));
  }

  lemma StuckMeansDrained(cfg: Config, s: State)
    requires |s.workers| > 0
    ensures (forall e :: IsWorkerStep(e) ==> !Enabled(cfg, s, e)) <==> Drained(s)
  {
    if forall e :: IsWorkerStep(e) ==> !Enabled(cfg, s, e) {
      forall w | 0 <= w < |s.workers| ensures s.workers[w].Idle? {
        assert !Enabled(cfg, s, Crash(w)) && !Enabled(cfg, s, Drop(w));
      }
      assert !Enabled(cfg, s, Dequeue(0));
    }
  }

  lemma {:induction false} WorkersFixed(cfg: Config, s: State, es: seq<Event>)
    requires Valid(cfg, s, es)
    ensures |Run(cfg, s, es).workers| == |s.workers|
    decreases |es|
  {
    if es != [] { WorkersFixed(cfg, Next(cfg, s, es[0]), es[1..]); }
  }
}
