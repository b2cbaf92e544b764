/** The authentication-failure counter of one client address: read at the head of the
    API-key middleware, and raised by INCR and EXPIRE in one pipeline when a request turns
    out to fail.  Requests of one address overlap. */
module RateLimit {
  import opened Wrappers

  /** EXPIRE with a window that is not positive deletes the key. */
  datatype Config = Config(maxFail: int, window: int, lastInstant: bool)

  /** The stored value and the time of the failure that last renewed it. */
  datatype Counter = Counter(count: nat, at: int)

  /** `inFlight` counts the requests between their check and their end. */
  datatype State = State(counter: Option<Counter>, recorded: seq<int>, inFlight: nat)

  const INIT := State(None, [], 0)

  datatype Event =
    | Check(now: int)   // GET: refused, or on its way
    | Record(now: int)  // a request on its way fails: INCR and EXPIRE
    | Leave             // a request on its way succeeds or dies

  /** Does a failure at `at` keep the counter alive until `now`? */
  predicate Linked(cfg: Config, at: int, now: int) {
    cfg.window > 0 && Alive(at + cfg.window, now, cfg.lastInstant)
  }

  /** GET of the counter. */
  function Stored(cfg: Config, s: State, now: int): nat {
    if s.counter.Some? && Linked(cfg, s.counter.value.at, now) then s.counter.value.count else 0
  }

  predicate Refused(cfg: Config, s: State, now: int) { Stored(cfg, s, now) >= cfg.maxFail }

  function Next(cfg: Config, s: State, e: Event): State {
    match e
    case Check(now) => if Refused(cfg, s, now) then s else s.(inFlight := s.inFlight + 1)
    case Record(now) =>
      if s.inFlight == 0 then s
      else State(Some(Counter(Stored(cfg, s, now) + 1, now)), s.recorded + [now], s.inFlight - 1)
    case Leave => if s.inFlight == 0 then s else s.(inFlight := s.inFlight - 1)
  }

  function Run(cfg: Config, es: seq<Event>): State {
    if es == [] then INIT else Next(cfg, Run(cfg, es[..|es| - 1]), es[|es| - 1])
  }

  lemma RunNext(cfg: Config, es: seq<Event>, e: Event)
    ensures Run(cfg, es + [e]) == Next(cfg, Run(cfg, es), e)
  {
    assert (es + [e])[..|es|] == es;
  }

  /** At most `width` requests of the address are ever on their way. */
  predicate Bounded(cfg: Config, es: seq<Event>, width: nat) {
    Run(cfg, es).inFlight <= width && (es != [] ==> Bounded(cfg, es[..|es| - 1], width))
  }

  /** The clock never runs backwards, and `now` is not before the last event. */
  predicate Ordered(es: seq<Event>, now: int) {
    es == [] ||
    (var e := es[|es| - 1];
     if e.Leave? then Ordered(es[..|es| - 1], now) else e.now <= now && Ordered(es[..|es| - 1], e.now))
  }

  // ---- The counter ----

  /** Length of the latest run of failures whose consecutive gaps stay within the window. */
  function LatestRun(cfg: Config, times: seq<int>): nat {
    if times == [] then 0
    else if |times| > 1 && Linked(cfg, times[|times| - 2], times[|times| - 1])
    then LatestRun(cfg, times[..|times| - 1]) + 1
    else 1
  }

  predicate CounterInv(cfg: Config, s: State) {
    && (s.counter == None <==> s.recorded == [])
    && (s.counter.Some? ==> s.counter.value == Counter(LatestRun(cfg, s.recorded), s.recorded[|s.recorded| - 1]))
  }

  lemma CounterStep(cfg: Config, s: State, e: Event)
    requires CounterInv(cfg, s)
    ensures CounterInv(cfg, Next(cfg, s, e))
  {
    var t := Next(cfg, s, e);
    if t.recorded != s.recorded { assert t.recorded[..|s.recorded|] == s.recorded; }
  }

  lemma {:induction false} CounterRun(cfg: Config, es: seq<Event>)
    ensures CounterInv(cfg, Run(cfg, es))
  {
    if es != [] {
      CounterRun(cfg, es[..|es| - 1]);
      CounterStep(cfg, Run(cfg, es[..|es| - 1]), es[|es| - 1]);
    }
  }

  /** In every interleaving the stored counter is the length of the latest run of recorded
      failures, or 0 once its window has passed; and a request is refused exactly when
      that run has reached a positive maximum and its last failure is within the window. */
  lemma CounterIsLatestRun(cfg: Config, es: seq<Event>, now: int)
    ensures var s := Run(cfg, es);
            var active := s.recorded != [] && Linked(cfg, s.recorded[|s.recorded| - 1], now);
            && Stored(cfg, s, now) == (if active then LatestRun(cfg, s.recorded) else 0)
            && (cfg.maxFail > 0 ==>
                  (Refused(cfg, s, now) <==> active && LatestRun(cfg, s.recorded) >= cfg.maxFail))
  {
    CounterRun(cfg, es);
  }

  /** Two moments no further apart than a live window. */
  predicate Near(cfg: Config, at: int, now: int) {
    cfg.window > 0 && (now - at < cfg.window || (cfg.lastInstant && now - at == cfg.window))
  }

  /** The counter is positive exactly if a failure was recorded and the window of the last
      one has not ended. */
  lemma StoredPositiveIff(cfg: Config, es: seq<Event>, now: int)
    ensures var s := Run(cfg, es);
            Stored(cfg, s, now) > 0
            <==> s.recorded != [] && cfg.window > 0
                 && (now < s.recorded[|s.recorded| - 1] + cfg.window
                     || (cfg.lastInstant && now == s.recorded[|s.recorded| - 1] + cfg.window))
  {
    CounterRun(cfg, es);
  }

  /** The latest run is the longest suffix of the recorded times in which each failure is
      near the one before it. */
  lemma {:induction false} LatestRunIs(cfg: Config, times: seq<int>)
    requires times != []
    ensures var n := LatestRun(cfg, times);
            var first := |times| - n;
            && 1 <= n <= |times|
            && (forall k :: first < k < |times| ==> Near(cfg, times[k - 1], times[k]))
            && (first > 0 ==> !Near(cfg, times[first - 1], times[first]))
  {
    var n := |times| - 1;
    if n > 0 && Near(cfg, times[n - 1], times[n]) { LatestRunIs(cfg, times[..n]); }
  }

  // ---- How far the counter can go ----

  /** The stored counter never grows by waiting. */
  lemma StoredLater(cfg: Config, s: State, now: int, later: int)
    requires now <= later
    ensures Stored(cfg, s, later) <= Stored(cfg, s, now)
  {}

  lemma {:induction false} CounterBoundedRun(cfg: Config, es: seq<Event>, now: int, width: nat)
    requires cfg.maxFail > 0 && width >= 1 && Bounded(cfg, es, width) && Ordered(es, now)
    ensures Stored(cfg, Run(cfg, es), now) + Run(cfg, es).inFlight <= cfg.maxFail - 1 + width
  {
    if es != [] {
      var before, e := es[..|es| - 1], es[|es| - 1];
      var at := if e.Leave? then now else e.now;
      CounterBoundedRun(cfg, before, at, width);
      StoredLater(cfg, Run(cfg, es), at, now);
    }
  }

  /** With at most `width` requests of one address overlapping, the counter stays within
      maxFail - 1 + width. */
  lemma CounterBounded(cfg: Config, es: seq<Event>, now: int, width: nat)
    requires cfg.maxFail > 0 && width >= 1 && Bounded(cfg, es, width) && Ordered(es, now)
    ensures Stored(cfg, Run(cfg, es), now) <= cfg.maxFail - 1 + width
  {
    CounterBoundedRun(cfg, es, now, width);
  }

  /** n failures at time 0, one after another. */
  function Failures(n: nat): seq<Event> { if n == 0 then [] else Failures(n - 1) + [Check(0)] + [Record(0)] }

  function Checks(es: seq<Event>, n: nat): seq<Event> { if n == 0 then es else Checks(es, n - 1) + [Check(0)] }

  function Records(es: seq<Event>, n: nat): seq<Event> { if n == 0 then es else Records(es, n - 1) + [Record(0)] }

  /** All failures up to here were recorded at time 0. */
  ghost predicate AtZero(cfg: Config, es: seq<Event>, count: nat, inFlight: nat, width: nat) {
    && Bounded(cfg, es, width) && Ordered(es, 0)
    && Run(cfg, es).inFlight == inFlight && Stored(cfg, Run(cfg, es), 0) == count
  }

  lemma CheckAtZero(cfg: Config, es: seq<Event>, count: nat, inFlight: nat, width: nat)
    requires AtZero(cfg, es, count, inFlight, width) && count < cfg.maxFail && inFlight < width
    ensures AtZero(cfg, es + [Check(0)], count, inFlight + 1, width)
  {
    RunNext(cfg, es, Check(0));
    assert (es + [Check(0)])[..|es|] == es;
  }

  lemma RecordAtZero(cfg: Config, es: seq<Event>, count: nat, inFlight: nat, width: nat)
    requires cfg.window > 0 && AtZero(cfg, es, count, inFlight, width) && inFlight > 0
    ensures AtZero(cfg, es + [Record(0)], count + 1, inFlight - 1, width)
  {
    RunNext(cfg, es, Record(0));
    assert (es + [Record(0)])[..|es|] == es;
  }

  lemma {:induction false} FailuresAtZero(cfg: Config, n: nat, width: nat)
    requires cfg.window > 0 && n < cfg.maxFail && width >= 1
    ensures AtZero(cfg, Failures(n), n, 0, width)
  {
    if n > 0 {
      FailuresAtZero(cfg, n - 1, width);
      CheckAtZero(cfg, Failures(n - 1), n - 1, 0, width);
      RecordAtZero(cfg, Failures(n - 1) + [Check(0)], n - 1, 1, width);
    }
  }

  lemma {:induction false} ChecksAtZero(cfg: Config, es: seq<Event>, n: nat, count: nat, width: nat)
    requires AtZero(cfg, es, count, 0, width) && count < cfg.maxFail && n <= width
    ensures AtZero(cfg, Checks(es, n), count, n, width)
  {
    if n > 0 {
      ChecksAtZero(cfg, es, n - 1, count, width);
      CheckAtZero(cfg, Checks(es, n - 1), count, n - 1, width);
    }
  }

  lemma {:induction false} RecordsAtZero(cfg: Config, es: seq<Event>, n: nat, count: nat, inFlight: nat, width: nat)
    requires cfg.window > 0 && AtZero(cfg, es, count, inFlight, width) && n <= inFlight
    ensures AtZero(cfg, Records(es, n), count + n, inFlight - n, width)
  {
    if n > 0 {
      RecordsAtZero(cfg, es, n - 1, count, inFlight, width);
      RecordAtZero(cfg, Records(es, n - 1), count + n - 1, inFlight - n + 1, width);
    }
  }

  /** One failure below the maximum, `width` requests that check together and all fail. */
  function Burst(cfg: Config, width: nat): seq<Event>
    requires cfg.maxFail > 0
  {
    Records(Checks(Failures(cfg.maxFail - 1), width), width)
  }

  /** The bound is reached. */
  lemma BoundReached(cfg: Config, width: nat)
    requires cfg.maxFail > 0 && cfg.window > 0 && width >= 1
    ensures Bounded(cfg, Burst(cfg, width), width) && Ordered(Burst(cfg, width), 0)
    ensures Stored(cfg, Run(cfg, Burst(cfg, width)), 0) == cfg.maxFail - 1 + width
  {
    var n := cfg.maxFail - 1;
    FailuresAtZero(cfg, n, width);
    ChecksAtZero(cfg, Failures(n), width, n, width);
    RecordsAtZero(cfg, Checks(Failures(n), width), width, n, width, width);
  }

  ghost predicate MaximumKept(cfg: Config, width: nat) {
    forall es: seq<Event>, now: int :: Bounded(cfg, es, width) && Ordered(es, now) ==>
      Stored(cfg, Run(cfg, es), now) <= cfg.maxFail
  }

  /** A positive maximum is kept in every interleaving exactly if requests of one address
      do not overlap (or no counter is ever kept). */
  lemma MaximumKeptIffSerial(cfg: Config, width: nat)
    requires cfg.maxFail > 0
    ensures MaximumKept(cfg, width) <==> width <= 1 || cfg.window <= 0
  {
    if width <= 1 || cfg.window <= 0 {
      forall es: seq<Event>, now: int | Bounded(cfg, es, width) && Ordered(es, now)
        ensures Stored(cfg, Run(cfg, es), now) <= cfg.maxFail
      {
        if cfg.window > 0 {
          BoundedWider(cfg, es, width);
          CounterBounded(cfg, es, now, 1);
        }
      }
    } else {
      BoundReached(cfg, width);
    }
  }

  lemma {:induction false} BoundedWider(cfg: Config, es: seq<Event>, width: nat)
    requires width <= 1 && Bounded(cfg, es, width)
    ensures Bounded(cfg, es, 1)
  {
    if es != [] { BoundedWider(cfg, es[..|es| - 1], width); }
  }

  // ---- When refusals end ----

  /** Once the maximum is reached with no request on its way, nothing that arrives while
      the window of the last recorded failure lasts changes anything, so refusals end
      exactly when that window does. */
  lemma {:induction false} RefusalsEndWithWindow(cfg: Config, es: seq<Event>, more: seq<Event>, now: int)
    requires var s := Run(cfg, es);
             s.recorded != [] && s.inFlight == 0 && LatestRun(cfg, s.recorded) >= cfg.maxFail > 0
    requires var last := Run(cfg, es).recorded[|Run(cfg, es).recorded| - 1];
             forall i :: 0 <= i < |more| && !more[i].Leave? ==> Near(cfg, last, more[i].now)
    ensures Run(cfg, es + more) == Run(cfg, es)
    ensures var last := Run(cfg, es).recorded[|Run(cfg, es).recorded| - 1];
            Refused(cfg, Run(cfg, es + more), now)
            <==> cfg.window > 0 && (now < last + cfg.window || (cfg.lastInstant && now == last + cfg.window))
    decreases |more|
  {
    CounterRun(cfg, es);
    if more == [] {
      assert es + more == es;
    } else {
      var n := |more| - 1;
      RefusalsEndWithWindow(cfg, es, more[..n], now);
      assert es + more == (es + more[..n]) + [more[n]];
      RunNext(cfg, es + more[..n], more[n]);
    }
  }

  // ---- The service ----

  class Limiter {
    const cfg: Config
    var counter: Option<Counter>
    ghost var recorded: seq<int>

    constructor (cfg: Config)
      ensures this.cfg == cfg && Now(0) == INIT
    {
      this.cfg, counter, recorded := cfg, None, [];
    }

    /** The state with this many other requests on their way. */
    ghost function Now(others: nat): State
      reads this
    {
      State(counter, recorded, others)
    }

    method GetAuthFailures(now: int) returns (n: nat)
      ensures forall others: nat :: n == Stored(cfg, Now(others), now)
      ensures n == if counter.Some? && Near(cfg, counter.value.at, now) then counter.value.count else 0
    {
      if counter == None { return 0; }
      if !Linked(cfg, counter.value.at, now) { return 0; }
      return counter.value.count;
    }

    method IncrAuthFailure(now: int)
      modifies this
      ensures counter == Some(Counter(Stored(cfg, old(Now(0)), now) + 1, now)) && recorded == old(recorded) + [now]
    {
      var n := GetAuthFailures(now);
      assert n == Stored(cfg, Now(0), now);
      counter, recorded := Some(Counter(n + 1, now)), recorded + [now];
    }

    /** The head of the middleware for one undisturbed request: GET at `now`, and if its key
        check fails INCR at `later`. */
    method Authenticate(now: int, fails: bool, later: int, ghost others: nat) returns (refused: bool)
      modifies this
      ensures refused <==> Refused(cfg, old(Now(others)), now)
      ensures refused <==>
                cfg.maxFail <= if old(counter).Some? && Near(cfg, old(counter).value.at, now)
                               then old(counter).value.count else 0
      ensures Now(others)
           == Next(cfg, Next(cfg, old(Now(others)), Check(now)),
                   if !refused && fails then Record(later) else if refused then Check(now) else Leave)
    {
      var failures := GetAuthFailures(now);
      assert failures == Stored(cfg, Now(others), now);
      if failures >= cfg.maxFail { return true; }
      if fails { IncrAuthFailure(later); }
      return false;
    }
  }
}
