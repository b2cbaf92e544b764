/**
The per-symbol job queue: three Redis lists, the consume loops of any number of
workers, and the stale-job cleanup, as a transition system.

Every Redis command and every pipeline is one atomic step; between two commands of
one worker any other worker, cleaner or producer may step.  A list is written with
its left end at index 0, so LPUSH prepends and BRPOPLPUSH takes the last element.
*/
module QueueModel {
  import opened Wrappers
  import opened JsonText

  datatype Job = Job(id: nat, attempts: nat, enqueuedAt: int)

  /** Text of a list element. */
  type Payload = Json<Job>

  function IdOf(raw: Payload): nat { Source(raw).id }

  datatype Config = Config(codec: Codec, maxRetries: int, staleAfter: int)

  /** What a retry pushes. */
  function RetryText(cfg: Config, job: Job): (raw: Payload)
    ensures Source(raw) == job
  {
    Encode(cfg.codec, job)
  }

  // ---- Redis list commands ----

  function LPush(list: seq<Payload>, x: Payload): seq<Payload> { [x] + list }

  /** LREM list 1 x: drop the leftmost occurrence of x, if any. */
  function LRem(list: seq<Payload>, x: Payload): seq<Payload> {
    if list == [] then []
    else if list[0] == x then list[1..]
    else [list[0]] + LRem(list[1..], x)
  }

  // ---- State ----

  /** A consume loop between two of its Redis commands. */
  datatype Phase =
    | Idle
    | Holding(raw: Payload)  // dequeued, handlers running
    | Waiting(job: Job)      // acknowledged, sleeping before the retry push

  /** One pass of the registered handlers over a job.  A pass that a crash cuts short
      counts, because handlers may have run. */
  datatype Pass = Pass(id: nat, attempts: nat)

  /** What happened so far; no step reads it. */
  datatype History = History(
    enqueued: seq<nat>,        // job ids in arrival order
    firstDequeued: seq<nat>,   // job ids in the order of their first dequeue
    passes: seq<Pass>,
    succeeded: multiset<nat>,
    buried: multiset<nat>,     // moved to the dead-letter list
    discarded: multiset<nat>,  // acknowledged because the text did not decode
    dropped: multiset<nat>,    // lost between acknowledgement and retry push
    missed: multiset<nat>)     // LREM calls that removed nothing

  datatype State = State(
    queue: seq<Payload>,
    processing: seq<Payload>,
    dead: seq<Payload>,
    workers: seq<Phase>,
    cleaners: seq<seq<Payload>>,  // what is left of each cleanup's snapshot
    h: History)

  function Init(workers: nat, cleaners: nat): State {
    State([], [], [], seq(workers, i => Idle), seq(cleaners, i => []),
          History([], [], [], multiset{}, multiset{}, multiset{}, multiset{}, multiset{}))
  }

  datatype Event =
    | Enqueue(job: Job)
    | Dequeue(w: nat)
    | Discard(w: nat)
    | Succeed(w: nat)
    | Bury(w: nat)
    | Fail(w: nat)
    | Requeue(w: nat)
    | Drop(w: nat)       // cancelled or killed while waiting
    | Crash(w: nat)      // killed or cancelled while holding: no command reaches Redis
    | Snapshot(c: nat)
    | CleanNext(c: nat, now: int)
    | CleanerStop(c: nat)

  predicate HoldsJob(s: State, w: nat) {
    w < |s.workers| && s.workers[w].Holding? && Decode(s.workers[w].raw).Some?
  }

  predicate LastAttempt(cfg: Config, job: Job) { job.attempts + 1 >= cfg.maxRetries }

  predicate Enabled(cfg: Config, s: State, e: Event) {
    match e
    case Enqueue(job) => job.id !in s.h.enqueued && job.attempts == 0
    case Dequeue(w) => w < |s.workers| && s.workers[w].Idle? && s.queue != []
    case Discard(w) => w < |s.workers| && s.workers[w].Holding? && Decode(s.workers[w].raw).None?
    case Succeed(w) => HoldsJob(s, w)
    case Bury(w) => HoldsJob(s, w) && LastAttempt(cfg, Decode(s.workers[w].raw).value)
    case Fail(w) => HoldsJob(s, w) && !LastAttempt(cfg, Decode(s.workers[w].raw).value)
    case Requeue(w) => w < |s.workers| && s.workers[w].Waiting?
    case Drop(w) => w < |s.workers| && s.workers[w].Waiting?
    case Crash(w) => w < |s.workers| && s.workers[w].Holding?
    case Snapshot(c) => c < |s.cleaners| && s.cleaners[c] == []
    case CleanNext(c, now) => c < |s.cleaners| && s.cleaners[c] != []
    case CleanerStop(c) => c < |s.cleaners|
  }

  predicate Stale(cfg: Config, raw: Payload, now: int) {
    Decode(raw).Some? && now - Decode(raw).value.enqueuedAt > cfg.staleAfter
  }

  /** The ids an LREM of `raw` failed to remove from `list`. */
  function Miss(list: seq<Payload>, raw: Payload): multiset<nat> {
    if raw in list then multiset{} else multiset{IdOf(raw)}
  }

  /** Worker w acknowledges the text it holds and moves to `phase`. */
  function Ack(s: State, w: nat, phase: Phase): State
    requires w < |s.workers| && s.workers[w].Holding?
  {
    var raw := s.workers[w].raw;
    s.(processing := LRem(s.processing, raw),
       workers := s.workers[w := phase],
       h := s.h.(missed := s.h.missed + Miss(s.processing, raw)))
  }

  function Passed(h: History, job: Job): History {
    h.(passes := h.passes + [Pass(job.id, job.attempts)])
  }

  function Next(cfg: Config, s: State, e: Event): State
    requires Enabled(cfg, s, e)
  {
    match e
    case Enqueue(job) =>
      s.(queue := LPush(s.queue, Value(job)), h := s.h.(enqueued := s.h.enqueued + [job.id]))
    case Dequeue(w) =>
      var raw := s.queue[|s.queue| - 1];
      s.(queue := s.queue[..|s.queue| - 1],
         processing := LPush(s.processing, raw),
         workers := s.workers[w := Holding(raw)],
         h := if IdOf(raw) in s.h.firstDequeued then s.h
              else s.h.(firstDequeued := s.h.firstDequeued + [IdOf(raw)]))
    case Discard(w) =>
      var t := Ack(s, w, Idle);
      t.(h := t.h.(discarded := t.h.discarded + multiset{IdOf(s.workers[w].raw)}))
    case Succeed(w) =>
      var t := Ack(s, w, Idle);
      var job := Decode(s.workers[w].raw).value;
      t.(h := Passed(t.h, job).(succeeded := t.h.succeeded + multiset{job.id}))
    case Bury(w) =>
      var t := Ack(s, w, Idle);
      var job := Decode(s.workers[w].raw).value;
      t.(dead := LPush(t.dead, s.workers[w].raw),
         h := Passed(t.h, job).(buried := t.h.buried + multiset{job.id}))
    case Fail(w) =>
      var job := Decode(s.workers[w].raw).value;
      var t := Ack(s, w, Waiting(job.(attempts := job.attempts + 1)));
      t.(h := Passed(t.h, job))
    case Requeue(w) =>
      s.(queue := LPush(s.queue, RetryText(cfg, s.workers[w].job)), workers := s.workers[w := Idle])
    case Drop(w) =>
      s.(workers := s.workers[w := Idle],
         h := s.h.(dropped := s.h.dropped + multiset{s.workers[w].job.id}))
    case Crash(w) =>
      var t := s.(workers := s.workers[w := Idle]);
      if Decode(s.workers[w].raw).None? then t
      else t.(h := Passed(t.h, Decode(s.workers[w].raw).value))
    case Snapshot(c) => s.(cleaners := s.cleaners[c := s.processing])
    case CleanNext(c, now) =>
      var raw := s.cleaners[c][0];
      var t := s.(cleaners := s.cleaners[c := s.cleaners[c][1..]]);
      if Stale(cfg, raw, now)
      then t.(queue := LPush(s.queue, raw),
              processing := LRem(s.processing, raw),
              h := s.h.(missed := s.h.missed + Miss(s.processing, raw)))
      else t
    case CleanerStop(c) => s.(cleaners := s.cleaners[c := []])
  }

  /** The steps in which worker e.w acknowledges the text it holds. */
  predicate IsAck(e: Event) { e.Discard? || e.Succeed? || e.Bury? || e.Fail? }

  /** The phase an acknowledging worker moves to. */
  function AckPhase(s: State, e: Event): Phase
    requires IsAck(e) && e.w < |s.workers| && s.workers[e.w].Holding?
  {
    if e.Fail? && s.workers[e.w].raw.Value?
    then Waiting(s.workers[e.w].raw.value.(attempts := s.workers[e.w].raw.value.attempts + 1))
    else Idle
  }

  /** What an acknowledging step does, apart from counting its outcome. */
  lemma AckEffect(cfg: Config, s: State, e: Event)
    requires IsAck(e) && Enabled(cfg, s, e)
    ensures s.workers[e.w].Holding?
    ensures var t := Next(cfg, s, e);
            var raw := s.workers[e.w].raw;
            && t.queue == s.queue && t.cleaners == s.cleaners
            && t.processing == LRem(s.processing, raw)
            && t.workers == s.workers[e.w := AckPhase(s, e)]
            && t.dead == (if e.Bury? then LPush(s.dead, raw) else s.dead)
            && t.h.enqueued == s.h.enqueued && t.h.firstDequeued == s.h.firstDequeued
            && t.h.missed == s.h.missed + Miss(s.processing, raw)
            && t.h.dropped == s.h.dropped
            && t.h.discarded == s.h.discarded + (if e.Discard? then multiset{IdOf(raw)} else multiset{})
            && t.h.succeeded == s.h.succeeded + (if e.Succeed? then multiset{IdOf(raw)} else multiset{})
            && t.h.buried == s.h.buried + (if e.Bury? then multiset{IdOf(raw)} else multiset{})
            && t.h.passes == s.h.passes + (if e.Discard? then [] else [Pass(IdOf(raw), Source(raw).attempts)])
  {}

  // ---- Runs ----

  predicate Valid(cfg: Config, s: State, es: seq<Event>)
    decreases |es|
  {
    es == [] || (Enabled(cfg, s, es[0]) && Valid(cfg, Next(cfg, s, es[0]), es[1..]))
  }

  function Run(cfg: Config, s: State, es: seq<Event>): State
    requires Valid(cfg, s, es)
    decreases |es|
  {
    if es == [] then s else Run(cfg, Next(cfg, s, es[0]), es[1..])
  }

  lemma {:induction false} RunAppend(cfg: Config, s: State, es: seq<Event>, fs: seq<Event>)
    requires Valid(cfg, s, es) && Valid(cfg, Run(cfg, s, es), fs)
    ensures Valid(cfg, s, es + fs)
    ensures Run(cfg, s, es + fs) == Run(cfg, Run(cfg, s, es), fs)
    decreases |es|
  {
    if es == [] {
      assert es + fs == fs;
    } else {
      RunAppend(cfg, Next(cfg, s, es[0]), es[1..], fs);
      assert (es + fs)[1..] == es[1..] + fs;
    }
  }

  lemma RunStep(cfg: Config, s: State, e: Event, es: seq<Event>)
    requires Enabled(cfg, s, e) && Valid(cfg, Next(cfg, s, e), es)
    ensures Valid(cfg, s, [e] + es) && Run(cfg, s, [e] + es) == Run(cfg, Next(cfg, s, e), es)
  {
    assert ([e] + es)[1..] == es;
  }

  // ---- Weights: sums over the lists and the workers ----

  function Total<T>(f: T -> int, xs: seq<T>): int {
    if xs == [] then 0 else f(xs[0]) + Total(f, xs[1..])
  }

  lemma {:induction false} TotalConcat<T>(f: T -> int, xs: seq<T>, ys: seq<T>)
    ensures Total(f, xs + ys) == Total(f, xs) + Total(f, ys)
  {
    if xs == [] {
      assert xs + ys == ys;
    } else {
      assert (xs + ys)[1..] == xs[1..] + ys;
      TotalConcat(f, xs[1..], ys);
    }
  }

  lemma {:induction false} TotalUpdate<T>(f: T -> int, xs: seq<T>, i: nat, x: T)
    requires i < |xs|
    ensures Total(f, xs[i := x]) == Total(f, xs) - f(xs[i]) + f(x)
  {
    if i > 0 {
      assert xs[i := x][1..] == xs[1..][i - 1 := x];
      TotalUpdate(f, xs[1..], i - 1, x);
    } else {
      assert xs[i := x][1..] == xs[1..];
    }
  }

  lemma {:induction false} TotalLRem(f: Payload -> int, xs: seq<Payload>, x: Payload)
    ensures Total(f, LRem(xs, x)) == Total(f, xs) - (if x in xs then f(x) else 0)
  {
    if xs != [] && xs[0] != x {
      TotalLRem(f, xs[1..], x);
      assert LRem(xs, x)[1..] == LRem(xs[1..], x);
      assert x in xs <==> x in xs[1..];
    }
  }

  /** A weight per queued text, per text in processing and per worker phase. */
  datatype Weights = Weights(queued: Payload -> int, processing: Payload -> int, worker: Phase -> int)

  function Weight(f: Weights, s: State): int {
    Total(f.queued, s.queue) + Total(f.processing, s.processing) + Total(f.worker, s.workers)
  }

  /** By how much one step changes the weight. */
  function Delta(cfg: Config, f: Weights, s: State, e: Event): int
    requires Enabled(cfg, s, e)
  {
    match e
    case Enqueue(job) => f.queued(Value(job))
    case Dequeue(w) =>
      var raw := s.queue[|s.queue| - 1];
      f.processing(raw) - f.queued(raw) + f.worker(Holding(raw)) - f.worker(Idle)
    case Requeue(w) =>
      f.queued(RetryText(cfg, s.workers[w].job)) + f.worker(Idle) - f.worker(s.workers[w])
    case Drop(w) => f.worker(Idle) - f.worker(s.workers[w])
    case Crash(w) => f.worker(Idle) - f.worker(s.workers[w])
    case CleanNext(c, now) =>
      var raw := s.cleaners[c][0];
      if Stale(cfg, raw, now) then f.queued(raw) - (if raw in s.processing then f.processing(raw) else 0) else 0
    case Fail(w) =>
      var job := Decode(s.workers[w].raw).value;
      f.worker(Waiting(job.(attempts := job.attempts + 1))) - f.worker(s.workers[w])
      - (if s.workers[w].raw in s.processing then f.processing(s.workers[w].raw) else 0)
    case Snapshot(_) => 0
    case CleanerStop(_) => 0
    case _ =>
      f.worker(Idle) - f.worker(s.workers[e.w])
      - (if s.workers[e.w].raw in s.processing then f.processing(s.workers[e.w].raw) else 0)
  }

  lemma AckWeight(cfg: Config, f: Weights, s: State, e: Event)
    requires IsAck(e) && Enabled(cfg, s, e)
    ensures Weight(f, Next(cfg, s, e)) == Weight(f, s) + Delta(cfg, f, s, e)
  {
    AckEffect(cfg, s, e);
    TotalLRem(f.processing, s.processing, s.workers[e.w].raw);
    TotalUpdate(f.worker, s.workers, e.w, AckPhase(s, e));
  }

  lemma DequeueWeight(cfg: Config, f: Weights, s: State, w: nat)
    requires Enabled(cfg, s, Dequeue(w))
    ensures Weight(f, Next(cfg, s, Dequeue(w))) == Weight(f, s) + Delta(cfg, f, s, Dequeue(w))
  {
    var n := |s.queue| - 1;
    assert s.queue == s.queue[..n] + [s.queue[n]];
    TotalConcat(f.queued, s.queue[..n], [s.queue[n]]);
    TotalUpdate(f.worker, s.workers, w, Holding(s.queue[n]));
  }

  lemma WeightStep(cfg: Config, f: Weights, s: State, e: Event)
    requires Enabled(cfg, s, e)
    ensures Weight(f, Next(cfg, s, e)) == Weight(f, s) + Delta(cfg, f, s, e)
  {
    match e
    case Dequeue(w) => DequeueWeight(cfg, f, s, w);
    case Requeue(_) | Drop(_) | Crash(_) => TotalUpdate(f.worker, s.workers, e.w, Idle);
    case CleanNext(c, _) => TotalLRem(f.processing, s.processing, s.cleaners[c][0]);
    case Enqueue(_) | Snapshot(_) | CleanerStop(_) =>
    case Discard(_) | Succeed(_) | Bury(_) | Fail(_) => AckWeight(cfg, f, s, e);
  }
}
