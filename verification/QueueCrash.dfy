/** What becomes of a text whose worker was killed or cancelled while it held it. */
module QueueCrash {
  import opened JsonText
  import opened QueueModel
  import opened QueueAccounting
  import opened QueueRetry

  // ---- As wired, without cleanup ----

  lemma {:induction false} TotalAtMost<T>(f: T -> int, g: T -> int, xs: seq<T>)
    requires forall x :: f(x) <= g(x)
    ensures Total(f, xs) <= Total(g, xs)
  {
    if xs != [] { TotalAtMost(f, g, xs[1..]); }
  }

  lemma {:induction false} CopiesOfTwo(a: Payload, b: Payload, list: seq<Payload>)
    requires a != b && IdOf(a) == IdOf(b)
    ensures Total(EqWeight(a), list) + Total(EqWeight(b), list) <= Total(IdWeight(IdOf(a)), list)
  {
    if list != [] { CopiesOfTwo(a, b, list[1..]); }
  }

  lemma {:induction false} SomeCopy(raw: Payload, list: seq<Payload>)
    requires raw in list
    ensures Total(EqWeight(raw), list) >= 1
  {
    NonNegative(EqWeight(raw), list[1..]);
    if list[0] != raw { SomeCopy(raw, list[1..]); }
  }

  lemma SlackIs(s: State, raw: Payload)
    ensures Slack(s, raw) == Total(EqWeight(raw), s.processing) + Total(HoldWeight(raw), s.workers)
  {
    NoneTotal(NoWeight(), s.queue);
  }

  /** Copies in processing are copies of the job. */
  lemma CopiesAtLeast(s: State, id: nat)
    ensures Copies(s, id) >= Total(IdWeight(id), s.processing)
  {
    NonNegative(IdWeight(id), s.queue);
    NonNegative(WaitWeight(id), s.workers);
  }

  /** A text lies in processing, no worker holds it, and it is its job's only copy. */
  ghost predicate Stranded(s: State, raw: Payload) {
    HeldInProcessing(s) && Balanced(s, IdOf(raw)) && Slack(s, raw) > 0
  }

  lemma StrandedInProcessing(s: State, raw: Payload)
    requires Slack(s, raw) > 0
    ensures raw in s.processing
  {
    SlackIs(s, raw);
    NonPositive(HoldWeight(raw), s.workers);
    if raw !in s.processing { NoneTotal(EqWeight(raw), s.processing); }
  }

  lemma StrandedAlone(s: State, raw: Payload)
    requires Stranded(s, raw)
    ensures raw in s.processing && Copies(s, IdOf(raw)) == 1 && Outcomes(s.h, IdOf(raw)) == 0
  {
    StrandedInProcessing(s, raw);
    CopiesAtLeast(s, IdOf(raw));
    SomeCopy(raw, s.processing);
    TotalAtMost(EqWeight(raw), IdWeight(IdOf(raw)), s.processing);
  }

  /** No worker holds a text of a stranded job. */
  lemma StrandedUnheld(s: State, raw: Payload, w: nat)
    requires Stranded(s, raw) && w < |s.workers| && s.workers[w].Holding?
    ensures IdOf(s.workers[w].raw) != IdOf(raw)
  {
    var held := s.workers[w].raw;
    if IdOf(held) == IdOf(raw) {
      StrandedAlone(s, raw);
      CopiesAtLeast(s, IdOf(raw));
      SlackIs(s, raw);
      NonPositive(HoldWeight(raw), s.workers);
      if held == raw {
        assert Total(EqWeight(raw), s.processing) >= 2;
        TotalAtMost(EqWeight(raw), IdWeight(IdOf(raw)), s.processing);
      } else {
        assert Slack(s, held) >= 0;
        HeldFound(s, w);
        SomeCopy(held, s.processing);
        CopiesOfTwo(raw, held, s.processing);
      }
      assert false;
    }
  }

  lemma StrandedStep(cfg: Config, s: State, e: Event, raw: Payload)
    requires Stranded(s, raw) && Enabled(cfg, s, e) && !IsCleanup(e)
    ensures Stranded(Next(cfg, s, e), raw)
    ensures PassesOf(Next(cfg, s, e).h.passes, IdOf(raw)) == PassesOf(s.h.passes, IdOf(raw))
  {
    HeldStep(cfg, s, e);
    BalanceStep(cfg, s, e, IdOf(raw));
    PassesStep(cfg, s, e, IdOf(raw));
    if IsAck(e) || EndsPass(s, e) { StrandedUnheld(s, raw, e.w); }
    if IsAck(e) {
      assert Slack(s, s.workers[e.w].raw) >= 0;
      HeldFound(s, e.w);
    }
    SlackStep(cfg, s, e, raw);
  }

  lemma {:induction false} StrandedRun(cfg: Config, s: State, es: seq<Event>, raw: Payload)
    requires Stranded(s, raw) && Valid(cfg, s, es) && forall e :: e in es ==> !IsCleanup(e)
    ensures Stranded(Run(cfg, s, es), raw)
    ensures PassesOf(Run(cfg, s, es).h.passes, IdOf(raw)) == PassesOf(s.h.passes, IdOf(raw))
    decreases |es|
  {
    if es != [] {
      StrandedStep(cfg, s, es[0], raw);
      StrandedRun(cfg, Next(cfg, s, es[0]), es[1..], raw);
    }
  }

  /** A crash leaves one more copy of the text in processing than workers hold. */
  lemma CrashSlack(cfg: Config, s: State, w: nat)
    requires Enabled(cfg, s, Crash(w))
    ensures Slack(Next(cfg, s, Crash(w)), s.workers[w].raw) == Slack(s, s.workers[w].raw) + 1
  {
    var raw := s.workers[w].raw;
    WeightStep(cfg, Weights(NoWeight(), EqWeight(raw), HoldWeight(raw)), s, Crash(w));
  }

  /** As the worker is wired, without cleanup, a crash strands its job for ever: in every
      continuation its text stays in processing as the only copy, the handlers never see
      the job again, and it gets no outcome. */
  lemma CrashStrandsJob(cfg: Config, workers: nat, cleaners: nat, before: seq<Event>, w: nat,
                        after: seq<Event>)
    requires Valid(cfg, Init(workers, cleaners), before) && forall e :: e in before ==> !IsCleanup(e)
    requires Enabled(cfg, Run(cfg, Init(workers, cleaners), before), Crash(w))
    requires var s := Run(cfg, Init(workers, cleaners), before);
             Valid(cfg, Next(cfg, s, Crash(w)), after) && forall e :: e in after ==> !IsCleanup(e)
    ensures var s := Run(cfg, Init(workers, cleaners), before);
            var raw := s.workers[w].raw;
            var crashed := Next(cfg, s, Crash(w));
            var t := Run(cfg, crashed, after);
            && raw in t.processing && Copies(t, IdOf(raw)) == 1 && Outcomes(t.h, IdOf(raw)) == 0
            && PassesOf(t.h.passes, IdOf(raw)) == PassesOf(crashed.h.passes, IdOf(raw))
  {
    var s := Run(cfg, Init(workers, cleaners), before);
    var raw := s.workers[w].raw;
    HeldReachable(cfg, workers, cleaners, before);
    JobAccounting(cfg, workers, cleaners, before, IdOf(raw));
    HeldStep(cfg, s, Crash(w));
    BalanceStep(cfg, s, Crash(w), IdOf(raw));
    CrashSlack(cfg, s, w);
    StrandedRun(cfg, Next(cfg, s, Crash(w)), after, raw);
    StrandedAlone(Run(cfg, Next(cfg, s, Crash(w)), after), raw);
  }

  // ---- With cleanup ----

  /** A text that does not decode is never nacked, so no step of any worker, producer or
      cleanup takes an unheld copy of it out of processing. */
  lemma UndecodableStep(cfg: Config, s: State, e: Event, raw: Payload)
    requires raw.Bytes? && Slack(s, raw) >= 0 && Enabled(cfg, s, e)
    ensures Slack(Next(cfg, s, e), raw) >= Slack(s, raw)
  {
    WeightStep(cfg, Weights(NoWeight(), EqWeight(raw), HoldWeight(raw)), s, e);
    if IsAck(e) && s.workers[e.w].raw == raw { HeldFound(s, e.w); }
  }

  lemma {:induction false} UndecodableRun(cfg: Config, s: State, es: seq<Event>, raw: Payload)
    requires raw.Bytes? && Slack(s, raw) >= 0 && Valid(cfg, s, es)
    ensures Slack(Run(cfg, s, es), raw) >= Slack(s, raw)
    decreases |es|
  {
    if es != [] {
      UndecodableStep(cfg, s, es[0], raw);
      UndecodableRun(cfg, Next(cfg, s, es[0]), es[1..], raw);
    }
  }

  lemma InitSlack(workers: nat, cleaners: nat, raw: Payload)
    ensures Slack(Init(workers, cleaners), raw) == 0
  {
    TotalIdle(HoldWeight(raw), workers);
  }

  /** A doubly marshalled retry whose worker crashes stays in processing for ever,
      whatever workers and cleanups do before and after. */
  lemma CrashedRetryStays(cfg: Config, workers: nat, cleaners: nat, before: seq<Event>, w: nat,
                          after: seq<Event>)
    requires Valid(cfg, Init(workers, cleaners), before)
    requires var s := Run(cfg, Init(workers, cleaners), before);
             Enabled(cfg, s, Crash(w)) && s.workers[w].raw.Bytes? && Valid(cfg, Next(cfg, s, Crash(w)), after)
    ensures var s := Run(cfg, Init(workers, cleaners), before);
            s.workers[w].raw in Run(cfg, Next(cfg, s, Crash(w)), after).processing
  {
    var s := Run(cfg, Init(workers, cleaners), before);
    var raw := s.workers[w].raw;
    InitSlack(workers, cleaners, raw);
    UndecodableRun(cfg, Init(workers, cleaners), before, raw);
    CrashSlack(cfg, s, w);
    UndecodableRun(cfg, Next(cfg, s, Crash(w)), after, raw);
    StrandedInProcessing(Run(cfg, Next(cfg, s, Crash(w)), after), raw);
  }

  /** An unheld copy leaves processing and the text is queued again. */
  ghost predicate ComesBack(cfg: Config, s: State, raw: Payload, es: seq<Event>) {
    && Valid(cfg, s, es) && raw in Run(cfg, s, es).queue
    && Slack(Run(cfg, s, es), raw) < Slack(s, raw)
  }

  /** One turn of a cleanup over its snapshot. */
  lemma CleanTurn(cfg: Config, s: State, c: nat, raw: Payload, now: int)
    requires Enabled(cfg, s, CleanNext(c, now))
    ensures var t := Next(cfg, s, CleanNext(c, now));
            && t.cleaners == s.cleaners[c := s.cleaners[c][1..]]
            && Slack(t, raw)
               == Slack(s, raw)
                  - (if s.cleaners[c][0] == raw && raw in s.processing && Stale(cfg, raw, now) then 1 else 0)
            && (s.cleaners[c][0] == raw && Stale(cfg, raw, now) ==> raw in t.queue)
  {
    WeightStep(cfg, Weights(NoWeight(), EqWeight(raw), HoldWeight(raw)), s, CleanNext(c, now));
    var t := Next(cfg, s, CleanNext(c, now));
    if s.cleaners[c][0] == raw && Stale(cfg, raw, now) { assert t.queue[0] == raw; }
  }

  /** A cleanup with the text in its snapshot reaches it. */
  lemma {:induction false} CleanReaches(cfg: Config, s: State, c: nat, raw: Payload, now: int) returns (es: seq<Event>)
    requires c < |s.cleaners| && raw in s.cleaners[c] && Slack(s, raw) > 0 && Stale(cfg, raw, now)
    ensures ComesBack(cfg, s, raw, es)
    decreases |s.cleaners[c]|
  {
    var t := Next(cfg, s, CleanNext(c, now));
    StrandedInProcessing(s, raw);
    CleanTurn(cfg, s, c, raw, now);
    if s.cleaners[c][0] == raw {
      RunStep(cfg, s, CleanNext(c, now), []);
      es := [CleanNext(c, now)] + [];
    } else {
      var rest := CleanReaches(cfg, t, c, raw, now);
      RunStep(cfg, s, CleanNext(c, now), rest);
      es := [CleanNext(c, now)] + rest;
    }
  }

  /** From any state, a stopped and restarted cleanup at any late enough time brings an
      unheld decodable text back. */
  lemma CleanupRecovers(cfg: Config, s: State, raw: Payload, now: int) returns (es: seq<Event>)
    requires s.cleaners != [] && Slack(s, raw) > 0 && Stale(cfg, raw, now)
    ensures ComesBack(cfg, s, raw, es)
  {
    var s1 := Next(cfg, s, CleanerStop(0));
    var s2 := Next(cfg, s1, Snapshot(0));
    StrandedInProcessing(s, raw);
    SlackIs(s, raw);
    SlackIs(s2, raw);
    var rest := CleanReaches(cfg, s2, 0, raw, now);
    RunStep(cfg, s1, Snapshot(0), rest);
    RunStep(cfg, s, CleanerStop(0), [Snapshot(0)] + rest);
    es := [CleanerStop(0)] + ([Snapshot(0)] + rest);
  }

  /** With a cleanup running, a text in processing that no worker holds can ever leave it
      and be queued again exactly if it decodes. */
  lemma ComesBackIff(cfg: Config, s: State, raw: Payload)
    requires s.cleaners != [] && Slack(s, raw) > 0
    ensures (exists es: seq<Event> :: ComesBack(cfg, s, raw, es)) <==> Decode(raw).Some?
  {
    if raw.Value? {
      var es := CleanupRecovers(cfg, s, raw, raw.value.enqueuedAt + cfg.staleAfter + 1);
    } else {
      forall es: seq<Event> | Valid(cfg, s, es) ensures !ComesBack(cfg, s, raw, es) {
        UndecodableRun(cfg, s, es, raw);
      }
    }
  }
}
