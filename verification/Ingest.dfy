/** Signal ingest: the two-sided timestamp window and the SETNX deduplication key
    together decide which signals are accepted, and an accepted signal goes to the
    store, the latest-signal slot and the job queue of its symbol.  Requests overlap:
    a request reads the clock, runs SETNX later, and its insert, slot and queue commands
    are steps of their own.  Times are in milliseconds of one clock. */
module Ingest {
  import opened Wrappers
  import opened SymbolName

  /** A `dedupTtl` of zero sets no TTL. */
  datatype Config = Config(window: int, dedupTtl: nat, lastInstant: bool)

  /** A POST /signal: with both signature headers or not, decoded and validated or not,
      with a correct signature or not.  `stamp` is the signed header timestamp, `stored`
      whether the insert succeeds. */
  datatype Request = Request(ticket: int, kind: string, symbol: string, stamp: int,
                             headers: bool, valid: bool, signed: bool, stored: bool)

  datatype Outcome = BadRequest | Unauthorized | Duplicate | StorageError | Accepted

  datatype Key = Key(ticket: int, kind: string)

  function KeyOf(req: Request): Key { Key(req.ticket, req.kind) }

  /** What is stored for a request. */
  function SignalOf(req: Request): Request { req.(symbol := Normalize(req.symbol)) }

  /** A signal that got past deduplication: its clock reading and the time of its SETNX. */
  datatype Pass = Pass(ticket: int, kind: string, stamp: int, now: int, at: int)

  /** How far a request past deduplication has come. */
  datatype Stage = Deduped | Inserted | Published

  datatype Flight = Flight(sig: Request, stage: Stage)

  datatype Server = Server(
    dedup: map<Key, Option<int>>,        // instant at which the key's TTL ends
    signals: seq<Request>,
    latest: map<string, Request>,
    queued: map<string, seq<Request>>,
    flights: seq<Flight>,
    passes: seq<Pass>,                   // `passes` and `lost` are history
    lost: seq<Request>)                  // inserted by handlers that died before the queue push

  const INIT := Server(map[], [], map[], map[], [], [], [])

  predicate Live(cfg: Config, end: Option<int>, now: int) {
    end == None || Alive(end.value, now, cfg.lastInstant)
  }

  predicate Fresh(cfg: Config, req: Request, now: int) { -cfg.window <= now - req.stamp <= cfg.window }

  predicate Seen(cfg: Config, s: Server, key: Key, now: int) {
    key in s.dedup && Live(cfg, s.dedup[key], now)
  }

  /** The checks before deduplication, in the handler's order. */
  predicate Admitted(cfg: Config, req: Request, now: int) {
    req.headers && req.valid && Fresh(cfg, req, now) && req.signed
  }

  predicate Passes(cfg: Config, s: Server, req: Request, now: int, at: int) {
    Admitted(cfg, req, now) && !Seen(cfg, s, KeyOf(req), at)
  }

  function OutcomeOf(cfg: Config, s: Server, req: Request, now: int, at: int): Outcome {
    if !req.headers then Unauthorized
    else if !req.valid then BadRequest
    else if !Admitted(cfg, req, now) then Unauthorized
    else if Seen(cfg, s, KeyOf(req), at) then Duplicate
    else if !req.stored then StorageError
    else Accepted
  }

  function QueueOf(s: Server, symbol: string): seq<Request> { if symbol in s.queued then s.queued[symbol] else [] }

  function Without(xs: seq<Flight>, i: nat): seq<Flight>
    requires i < |xs|
  {
    xs[..i] + xs[i + 1..]
  }

  // ---- Steps ----

  datatype Event =
    | Arrive(req: Request, now: int, at: int)  // the checks at `now`, SETNX at `at`
    | Insert(i: nat)
    | SetSlot(i: nat)
    | Push(i: nat)
    | Die(i: nat)                              // the handler is killed between two commands

  /** Does the event find its request at the stage it continues? */
  predicate Enabled(s: Server, e: Event) {
    match e
    case Arrive(_, _, _) => true
    case Insert(i) => i < |s.flights| && s.flights[i].stage == Deduped
    case SetSlot(i) => i < |s.flights| && s.flights[i].stage == Inserted
    case Push(i) => i < |s.flights| && s.flights[i].stage == Published
    case Die(i) => i < |s.flights|
  }

  function Next(cfg: Config, s: Server, e: Event): Server {
    if !Enabled(s, e) then s
    else
      match e
      case Arrive(req, now, at) =>
        if !Passes(cfg, s, req, now, at) then s
        else
          s.(dedup := s.dedup[KeyOf(req) := if cfg.dedupTtl == 0 then None else Some(at + cfg.dedupTtl)],
             flights := s.flights + [Flight(SignalOf(req), Deduped)],
             passes := s.passes + [Pass(req.ticket, req.kind, req.stamp, now, at)])
      case Insert(i) =>
        var sig := s.flights[i].sig;
        if !sig.stored then s.(flights := Without(s.flights, i))
        else s.(signals := s.signals + [sig], flights := s.flights[i := Flight(sig, Inserted)])
      case SetSlot(i) =>
        var sig := s.flights[i].sig;
        s.(latest := s.latest[sig.symbol := sig], flights := s.flights[i := Flight(sig, Published)])
      case Push(i) =>
        var sig := s.flights[i].sig;
        s.(queued := s.queued[sig.symbol := QueueOf(s, sig.symbol) + [sig]], flights := Without(s.flights, i))
      case Die(i) =>
        s.(flights := Without(s.flights, i),
           lost := s.lost + if s.flights[i].stage == Deduped then [] else [s.flights[i].sig])
  }

  function Run(cfg: Config, es: seq<Event>): Server {
    if es == [] then INIT else Next(cfg, Run(cfg, es[..|es| - 1]), es[|es| - 1])
  }

  lemma RunNext(cfg: Config, es: seq<Event>, e: Event)
    ensures Run(cfg, es + [e]) == Next(cfg, Run(cfg, es), e)
  {
    assert (es + [e])[..|es|] == es;
  }

  /** SETNX commands are listed in the order in which they run, and each follows its
      request's clock reading by at most `lag`. */
  predicate Ordered(es: seq<Event>, lag: nat) {
    && (forall i, j :: 0 <= i < j < |es| && es[i].Arrive? && es[j].Arrive? ==> es[i].at <= es[j].at)
    && (forall i :: 0 <= i < |es| && es[i].Arrive? ==> es[i].now <= es[i].at <= es[i].now + lag)
  }

  // ---- At most once ----

  /** The least distance of two passes of one key: TTL, or never. */
  predicate FarApart(cfg: Config, first: int, second: int) {
    && cfg.dedupTtl != 0
    && second - first >= cfg.dedupTtl
    && (cfg.lastInstant ==> second - first > cfg.dedupTtl)
  }

  predicate SameSignal(p: Pass, q: Pass) { p.ticket == q.ticket && p.kind == q.kind }

  predicate GoodPass(cfg: Config, lag: nat, p: Pass, clock: int) {
    -cfg.window <= p.now - p.stamp <= cfg.window && p.now <= p.at <= p.now + lag && p.at <= clock
  }

  ghost predicate TimingInv(cfg: Config, lag: nat, s: Server, clock: int) {
    && (forall i :: 0 <= i < |s.passes| ==>
          var p := s.passes[i];
          var key := Key(p.ticket, p.kind);
          && GoodPass(cfg, lag, p, clock) && key in s.dedup
          && (cfg.dedupTtl == 0 ==> s.dedup[key] == None)
          && (cfg.dedupTtl != 0 ==> s.dedup[key].Some? && s.dedup[key].value >= p.at + cfg.dedupTtl))
    && (forall i, j :: 0 <= i < j < |s.passes| && SameSignal(s.passes[i], s.passes[j]) ==>
          FarApart(cfg, s.passes[i].at, s.passes[j].at))
  }

  lemma ArriveTiming(cfg: Config, lag: nat, s: Server, req: Request, now: int, at: int, before: int)
    requires TimingInv(cfg, lag, s, before) && before <= at && now <= at <= now + lag
    ensures TimingInv(cfg, lag, Next(cfg, s, Arrive(req, now, at)), at)
  {
    var t := Next(cfg, s, Arrive(req, now, at));
    if t.passes != s.passes {
      assert t.passes == s.passes + [Pass(req.ticket, req.kind, req.stamp, now, at)];
      assert forall i :: 0 <= i < |s.passes| ==> t.passes[i] == s.passes[i];
    }
  }

  lemma OtherTiming(cfg: Config, lag: nat, s: Server, e: Event, clock: int)
    requires TimingInv(cfg, lag, s, clock) && !e.Arrive?
    ensures TimingInv(cfg, lag, Next(cfg, s, e), clock)
  {
    var t := Next(cfg, s, e);
    assert t.passes == s.passes && t.dedup == s.dedup;
  }

  /** The time of the last SETNX, or `first`. */
  function Clock(es: seq<Event>, first: int): int {
    if es == [] then first
    else if es[|es| - 1].Arrive? then es[|es| - 1].at
    else Clock(es[..|es| - 1], first)
  }

  lemma {:induction false} ClockIsLast(es: seq<Event>, lag: nat, first: int, at: int)
    requires Ordered(es, lag) && first <= at
    requires forall i :: 0 <= i < |es| && es[i].Arrive? ==> es[i].at <= at
    ensures Clock(es, first) <= at
  {
    if es != [] && !es[|es| - 1].Arrive? { ClockIsLast(es[..|es| - 1], lag, first, at); }
  }

  lemma {:induction false} TimingRun(cfg: Config, lag: nat, es: seq<Event>, first: int)
    requires Ordered(es, lag) && forall i :: 0 <= i < |es| && es[i].Arrive? ==> first <= es[i].at
    ensures TimingInv(cfg, lag, Run(cfg, es), Clock(es, first))
  {
    if es != [] {
      var n := |es| - 1;
      var before, last := es[..n], es[n];
      assert Ordered(before, lag) && forall i :: 0 <= i < n && before[i].Arrive? ==> first <= before[i].at;
      TimingRun(cfg, lag, before, first);
      if last.Arrive? {
        ClockIsLast(before, lag, first, last.at);
        ArriveTiming(cfg, lag, Run(cfg, before), last.req, last.now, last.at, Clock(before, first));
      } else {
        OtherTiming(cfg, lag, Run(cfg, before), last, Clock(before, first));
      }
    }
  }

  /** A time before every SETNX of a run. */
  function Start(es: seq<Event>): int {
    if es == [] then 0
    else
      var rest := Start(es[1..]);
      if es[0].Arrive? && es[0].at < rest then es[0].at else rest
  }

  lemma {:induction false} StartIsFirst(es: seq<Event>)
    ensures forall i :: 0 <= i < |es| && es[i].Arrive? ==> Start(es) <= es[i].at
  {
    if es != [] {
      StartIsFirst(es[1..]);
      assert forall i :: 1 <= i < |es| ==> es[i] == es[1..][i - 1];
    }
  }

  lemma TimingHolds(cfg: Config, lag: nat, es: seq<Event>)
    requires Ordered(es, lag)
    ensures TimingInv(cfg, lag, Run(cfg, es), Clock(es, Start(es)))
  {
    StartIsFirst(es);
    TimingRun(cfg, lag, es, Start(es));
  }

  /** Over any run, two signals with the same ticket and type that get past deduplication
      are at least the TTL apart, and more if a key lives through its last instant; with no
      TTL there is only one. */
  lemma SameKeyFarApart(cfg: Config, lag: nat, es: seq<Event>, i: nat, j: nat)
    requires Ordered(es, lag) && i < j < |Run(cfg, es).passes|
    requires Run(cfg, es).passes[i].ticket == Run(cfg, es).passes[j].ticket
    requires Run(cfg, es).passes[i].kind == Run(cfg, es).passes[j].kind
    ensures var gap := Run(cfg, es).passes[j].at - Run(cfg, es).passes[i].at;
            cfg.dedupTtl != 0 && gap >= cfg.dedupTtl && (cfg.lastInstant ==> gap > cfg.dedupTtl)
  {
    TimingHolds(cfg, lag, es);
    assert SameSignal(Run(cfg, es).passes[i], Run(cfg, es).passes[j]);
  }

  predicate SamePass(p: Pass, q: Pass) { SameSignal(p, q) && p.stamp == q.stamp }

  /** No run lets one signed (ticket, type, timestamp) past twice. */
  ghost predicate AtMostOnce(cfg: Config, lag: nat) {
    forall es: seq<Event>, i: nat, j: nat :: Ordered(es, lag) && i < j < |Run(cfg, es).passes| ==>
      !SamePass(Run(cfg, es).passes[i], Run(cfg, es).passes[j])
  }

  /** The configurations in which a replay cannot outlive its deduplication key. */
  predicate ReplaySafe(cfg: Config, lag: nat) {
    || cfg.window < 0
    || cfg.dedupTtl == 0
    || cfg.dedupTtl > 2 * cfg.window + lag
    || (cfg.lastInstant && cfg.dedupTtl == 2 * cfg.window + lag)
  }

  function FirstArrival(cfg: Config, req: Request): Event {
    Arrive(req, req.stamp - cfg.window, req.stamp - cfg.window)
  }

  function SecondArrival(cfg: Config, lag: nat, req: Request): Event {
    Arrive(req, req.stamp + cfg.window, req.stamp + cfg.window + lag)
  }

  /** A signal that arrives at both ends of its window, the second time slowly. */
  function ReplayEvents(cfg: Config, lag: nat, req: Request): seq<Event> {
    [FirstArrival(cfg, req)] + [SecondArrival(cfg, lag, req)]
  }

  /** A fresh signal gets past an expired or absent key. */
  lemma PassesDedup(cfg: Config, s: Server, req: Request, now: int, at: int)
    requires Passes(cfg, s, req, now, at)
    ensures var t := Next(cfg, s, Arrive(req, now, at));
            && t.passes == s.passes + [Pass(req.ticket, req.kind, req.stamp, now, at)]
            && t.dedup == s.dedup[KeyOf(req) := if cfg.dedupTtl == 0 then None else Some(at + cfg.dedupTtl)]
            && t.flights == s.flights + [Flight(SignalOf(req), Deduped)]
            && t.signals == s.signals && t.latest == s.latest && t.queued == s.queued
  {}

  lemma FirstPasses(cfg: Config, req: Request)
    requires cfg.window >= 0 && req.headers && req.valid && req.signed
    ensures var at := req.stamp - cfg.window;
            var s := Run(cfg, [FirstArrival(cfg, req)]);
            && s.passes == [Pass(req.ticket, req.kind, req.stamp, at, at)]
            && s.dedup == map[KeyOf(req) := if cfg.dedupTtl == 0 then None else Some(at + cfg.dedupTtl)]
            && s.flights == [Flight(SignalOf(req), Deduped)] && s.signals == []
  {
    var at := req.stamp - cfg.window;
    RunNext(cfg, [], FirstArrival(cfg, req));
    assert [] + [FirstArrival(cfg, req)] == [FirstArrival(cfg, req)];
    PassesDedup(cfg, INIT, req, at, at);
  }

  /** The replay finds the key expired. */
  lemma KeyExpired(cfg: Config, lag: nat, s: Server, req: Request)
    requires !ReplaySafe(cfg, lag) && req.headers && req.valid && req.signed
    requires s.dedup == map[KeyOf(req) := if cfg.dedupTtl == 0 then None
                                          else Some(req.stamp - cfg.window + cfg.dedupTtl)]
    ensures Passes(cfg, s, req, req.stamp + cfg.window, req.stamp + cfg.window + lag)
  {}

  lemma ReplayOrdered(cfg: Config, lag: nat, req: Request)
    requires cfg.window >= 0
    ensures Ordered(ReplayEvents(cfg, lag, req), lag)
  {}

  /** In every other configuration every correctly signed signal can be replayed once. */
  lemma ReplayPasses(cfg: Config, lag: nat, req: Request)
    requires !ReplaySafe(cfg, lag) && req.headers && req.valid && req.signed
    ensures Ordered(ReplayEvents(cfg, lag, req), lag)
    ensures var s := Run(cfg, ReplayEvents(cfg, lag, req));
            && |s.passes| == 2 && SamePass(s.passes[0], s.passes[1]) && s.signals == []
            && s.flights == [Flight(SignalOf(req), Deduped)] + [Flight(SignalOf(req), Deduped)]
  {
    var s := Run(cfg, [FirstArrival(cfg, req)]);
    ReplayOrdered(cfg, lag, req);
    FirstPasses(cfg, req);
    assert Run(cfg, ReplayEvents(cfg, lag, req)) == Next(cfg, s, SecondArrival(cfg, lag, req)) by {
      RunNext(cfg, [FirstArrival(cfg, req)], SecondArrival(cfg, lag, req));
    }
    KeyExpired(cfg, lag, s, req);
    PassesDedup(cfg, s, req, req.stamp + cfg.window, req.stamp + cfg.window + lag);
  }

  /** And it is stored twice, if the database takes it. */
  lemma ReplayStored(cfg: Config, lag: nat, req: Request)
    requires !ReplaySafe(cfg, lag) && req.headers && req.valid && req.signed && req.stored
    ensures Run(cfg, ReplayEvents(cfg, lag, req) + [Insert(0)] + [Insert(1)]).signals
         == [SignalOf(req)] + [SignalOf(req)]
  {
    ReplayPasses(cfg, lag, req);
    RunNext(cfg, ReplayEvents(cfg, lag, req), Insert(0));
    RunNext(cfg, ReplayEvents(cfg, lag, req) + [Insert(0)], Insert(1));
  }

  /** One signed timestamp gets past deduplication at most once exactly when the TTL
      exceeds twice the timestamp window and the longest time between the clock reading
      and SETNX, or equals it and a key lives through its last instant (or there is no
      TTL, or the window admits nothing). */
  lemma AtMostOnceIff(cfg: Config, lag: nat)
    ensures AtMostOnce(cfg, lag) <==> ReplaySafe(cfg, lag)
  {
    if ReplaySafe(cfg, lag) {
      forall es: seq<Event>, i: nat, j: nat | Ordered(es, lag) && i < j < |Run(cfg, es).passes|
        ensures !SamePass(Run(cfg, es).passes[i], Run(cfg, es).passes[j])
      {
        TimingHolds(cfg, lag, es);
      }
    } else {
      var req := Request(1, "OPEN", "EURUSD", 0, true, true, true, true);
      var es := ReplayEvents(cfg, lag, req);
      ReplayPasses(cfg, lag, req);
      var i: nat, j: nat := 0, 1;
      assert Ordered(es, lag) && i < j < |Run(cfg, es).passes|
          && SamePass(Run(cfg, es).passes[i], Run(cfg, es).passes[j]);
    }
  }

  const DEFAULT_WINDOW := 30000
  const DEFAULT_DEDUP_TTL := 60000

  /** The default settings sit on the boundary of requests that take no time: any delay
      between clock reading and SETNX makes them unsafe. */
  lemma DefaultsSafeIff(lag: nat, lastInstant: bool)
    ensures AtMostOnce(Config(DEFAULT_WINDOW, DEFAULT_DEDUP_TTL, lastInstant), lag) <==> lag == 0 && lastInstant
  {
    AtMostOnceIff(Config(DEFAULT_WINDOW, DEFAULT_DEDUP_TTL, lastInstant), lag);
  }

  // ---- Which requests are accepted ----

  function OutcomeAt(cfg: Config, es: seq<Event>, j: nat): Outcome
    requires j < |es| && es[j].Arrive?
  {
    OutcomeOf(cfg, Run(cfg, es[..j]), es[j].req, es[j].now, es[j].at)
  }

  /** Arrival i got past deduplication, whether or not it could then be stored. */
  predicate PassedAt(cfg: Config, es: seq<Event>, i: nat)
    requires i < |es| && es[i].Arrive?
  {
    OutcomeAt(cfg, es, i) == Accepted || OutcomeAt(cfg, es, i) == StorageError
  }

  /** Arrival i passed with this ticket and type. */
  predicate PassedWith(cfg: Config, es: seq<Event>, i: int, ticket: int, kind: string) {
    0 <= i < |es| && es[i].Arrive? && es[i].req.ticket == ticket && es[i].req.kind == kind && PassedAt(cfg, es, i)
  }

  /** A TTL that starts at `from` has not ended at `at`. */
  predicate StillRuns(cfg: Config, from: int, at: int) {
    cfg.dedupTtl == 0 || at < from + cfg.dedupTtl || (cfg.lastInstant && at == from + cfg.dedupTtl)
  }

  lemma PassedEarlier(cfg: Config, es: seq<Event>, n: nat, i: int, ticket: int, kind: string)
    requires n <= |es| && i < n
    ensures PassedWith(cfg, es[..n], i, ticket, kind) <==> PassedWith(cfg, es, i, ticket, kind)
  {
    if 0 <= i { assert es[..n][..i] == es[..i]; }
  }

  /** The latest arrival that passed with this ticket and type, and its deduplication key. */
  lemma {:induction false} LatestPass(cfg: Config, es: seq<Event>, ticket: int, kind: string) returns (i: int)
    ensures -1 <= i < |es|
    ensures forall k :: i < k < |es| ==> !PassedWith(cfg, es, k, ticket, kind)
    ensures i < 0 ==> Key(ticket, kind) !in Run(cfg, es).dedup
    ensures i >= 0 ==>
              && PassedWith(cfg, es, i, ticket, kind) && Key(ticket, kind) in Run(cfg, es).dedup
              && Run(cfg, es).dedup[Key(ticket, kind)]
                 == if cfg.dedupTtl == 0 then None else Some(es[i].at + cfg.dedupTtl)
  {
    if es == [] { return -1; }
    var n := |es| - 1;
    if PassedWith(cfg, es, n, ticket, kind) { return n; }
    i := LatestPass(cfg, es[..n], ticket, kind);
    forall k | i <= k < n ensures PassedWith(cfg, es[..n], k, ticket, kind) <==> PassedWith(cfg, es, k, ticket, kind) {
      PassedEarlier(cfg, es, n, k, ticket, kind);
    }
  }

  /** An earlier arrival with the same ticket and type passed, and its TTL still runs. */
  ghost predicate Repeats(cfg: Config, es: seq<Event>, j: nat)
    requires j < |es| && es[j].Arrive?
  {
    exists i :: i < j && PassedWith(cfg, es, i, es[j].req.ticket, es[j].req.kind)
                && StillRuns(cfg, es[i].at, es[j].at)
  }

  lemma SeenIff(cfg: Config, lag: nat, es: seq<Event>, j: nat)
    requires Ordered(es, lag) && j < |es| && es[j].Arrive?
    ensures Seen(cfg, Run(cfg, es[..j]), KeyOf(es[j].req), es[j].at) <==> Repeats(cfg, es, j)
  {
    var req := es[j].req;
    var last := LatestPass(cfg, es[..j], req.ticket, req.kind);
    forall i | i < j
      ensures PassedWith(cfg, es[..j], i, req.ticket, req.kind) <==> PassedWith(cfg, es, i, req.ticket, req.kind)
    {
      PassedEarlier(cfg, es, j, i, req.ticket, req.kind);
    }
    if i :| i < j && PassedWith(cfg, es, i, req.ticket, req.kind) && StillRuns(cfg, es[i].at, es[j].at) {
      assert i <= last && es[i].at <= es[last].at;
    }
  }

  /** The outcome of every arrival of every run, from the request's own fields and the
      arrivals before it. */
  lemma OutcomeIs(cfg: Config, lag: nat, es: seq<Event>, j: nat)
    requires Ordered(es, lag) && j < |es| && es[j].Arrive?
    ensures var r, outcome := es[j].req, OutcomeAt(cfg, es, j);
            var inWindow := r.stamp - cfg.window <= es[j].now <= r.stamp + cfg.window;
            if !r.headers then outcome == Unauthorized
            else if !r.valid then outcome == BadRequest
            else if !inWindow || !r.signed then outcome == Unauthorized
            else if Repeats(cfg, es, j) then outcome == Duplicate
            else outcome == if r.stored then Accepted else StorageError
    ensures Run(cfg, es[..j + 1]).flights
         == Run(cfg, es[..j]).flights
            + if PassedAt(cfg, es, j) then [Flight(es[j].req.(symbol := Normalize(es[j].req.symbol)), Deduped)] else []
  {
    SeenIff(cfg, lag, es, j);
    assert es[..j + 1] == es[..j] + [es[j]];
    RunNext(cfg, es[..j], es[j]);
  }

  /** What got a stored signal accepted. */
  ghost predicate CameFrom(cfg: Config, sig: Request, e: Event) {
    && e.Arrive? && e.req.headers && e.req.valid && e.req.signed && e.req.stored
    && e.req.stamp - cfg.window <= e.now <= e.req.stamp + cfg.window
    && sig == e.req.(symbol := Normalize(e.req.symbol))
  }

  /** Some event among the first n admitted the signal, except for its storing. */
  ghost predicate Arrived(cfg: Config, es: seq<Event>, sig: Request) {
    exists j :: 0 <= j < |es| && es[j].Arrive? && Admitted(cfg, es[j].req, es[j].now) && sig == SignalOf(es[j].req)
  }

  ghost predicate AllArrived(cfg: Config, es: seq<Event>, s: Server) {
    && (forall i :: 0 <= i < |s.flights| ==> Arrived(cfg, es, s.flights[i].sig))
    && (forall i :: 0 <= i < |s.signals| ==> Arrived(cfg, es, s.signals[i]) && s.signals[i].stored)
  }

  lemma ArrivedLater(cfg: Config, es: seq<Event>, sig: Request)
    requires es != [] && Arrived(cfg, es[..|es| - 1], sig)
    ensures Arrived(cfg, es, sig)
  {
    var before := es[..|es| - 1];
    var j :| 0 <= j < |before| && before[j].Arrive? && Admitted(cfg, before[j].req, before[j].now)
             && sig == SignalOf(before[j].req);
    assert es[j] == before[j];
  }

  lemma WithoutAt(flights: seq<Flight>, i: nat, k: nat)
    requires i < |flights| && k < |Without(flights, i)|
    ensures Without(flights, i)[k] == flights[if k < i then k else k + 1]
  {}

  /** Which flight the i-th one was before a step that does not start it. */
  lemma FlightSource(cfg: Config, s: Server, e: Event, i: nat) returns (k: nat)
    requires i < |Next(cfg, s, e).flights| && (i < |s.flights| || !e.Arrive?)
    ensures k < |s.flights| && s.flights[k].sig == Next(cfg, s, e).flights[i].sig
  {
    var t := Next(cfg, s, e);
    k := i;
    if Enabled(s, e) && |t.flights| < |s.flights| {
      assert t.flights == Without(s.flights, e.i);
      WithoutAt(s.flights, e.i, i);
      k := if i < e.i then i else i + 1;
    }
  }

  lemma {:induction false} ArrivedRun(cfg: Config, es: seq<Event>)
    ensures AllArrived(cfg, es, Run(cfg, es))
  {
    if es != [] {
      var n := |es| - 1;
      var s, t := Run(cfg, es[..n]), Run(cfg, es);
      ArrivedRun(cfg, es[..n]);
      forall i | 0 <= i < |t.flights| ensures Arrived(cfg, es, t.flights[i].sig) {
        if i < |s.flights| || !es[n].Arrive? {
          var k := FlightSource(cfg, s, es[n], i);
          ArrivedLater(cfg, es, t.flights[i].sig);
        }
      }
      forall i | 0 <= i < |t.signals| ensures Arrived(cfg, es, t.signals[i]) && t.signals[i].stored {
        if i < |s.signals| {
          assert t.signals[i] == s.signals[i];
        } else {
          assert t.signals[i] == s.flights[es[n].i].sig;
        }
        ArrivedLater(cfg, es, t.signals[i]);
      }
    }
  }

  /** Every stored signal is a valid, correctly signed and fresh arrival with its symbol
      normalised. */
  lemma StoredCameFromRun(cfg: Config, es: seq<Event>, k: nat)
    requires k < |Run(cfg, es).signals|
    ensures exists j :: 0 <= j < |es| && CameFrom(cfg, Run(cfg, es).signals[k], es[j])
  {
    ArrivedRun(cfg, es);
    var sig := Run(cfg, es).signals[k];
    var j :| 0 <= j < |es| && es[j].Arrive? && Admitted(cfg, es[j].req, es[j].now) && sig == SignalOf(es[j].req);
    assert CameFrom(cfg, sig, es[j]);
  }

  // ---- The handler ----

  /** The steps of one request that no other request interrupts. */
  function Handled(cfg: Config, s: Server, req: Request, now: int, at: int): Server {
    var i := |s.flights|;
    var s1 := Next(cfg, s, Arrive(req, now, at));
    if !Passes(cfg, s, req, now, at) then s1
    else
      var s2 := Next(cfg, s1, Insert(i));
      if !req.stored then s2 else Next(cfg, Next(cfg, s2, SetSlot(i)), Push(i))
  }

  /** An accepted request leaves no flight behind. */
  lemma HandledIs(cfg: Config, s: Server, req: Request, now: int, at: int)
    requires Passes(cfg, s, req, now, at)
    ensures var t, sig := Handled(cfg, s, req, now, at), SignalOf(req);
            var seen := Next(cfg, s, Arrive(req, now, at)).(flights := s.flights);
            t == if !req.stored then seen
                 else seen.(signals := s.signals + [sig],
                            latest := s.latest[sig.symbol := sig],
                            queued := s.queued[sig.symbol := QueueOf(s, sig.symbol) + [sig]])
  {
    var i, sig := |s.flights|, SignalOf(req);
    assert forall f :: Without(s.flights + [f], i) == s.flights;
    assert forall f, g :: (s.flights + [f])[i := g] == s.flights + [g];
  }

  class Handler {
    const cfg: Config
    var dedup: map<Key, Option<int>>
    var signals: seq<Request>
    var latest: map<string, Request>
    var queued: map<string, seq<Request>>
    ghost var passes: seq<Pass>

    constructor (cfg: Config)
      ensures this.cfg == cfg && State([], []) == INIT
    {
      this.cfg := cfg;
      dedup, signals, latest, queued, passes := map[], [], map[], map[], [];
    }

    /** The server with these requests in flight and lost elsewhere. */
    ghost function State(flights: seq<Flight>, lost: seq<Request>): Server
      reads this
    {
      Server(dedup, signals, latest, queued, flights, passes, lost)
    }

    /** SETNX with a TTL: true if the key was absent or expired. */
    method SetDedup(key: Key, at: int) returns (isNew: bool)
      modifies this`dedup
      ensures isNew <==> !Seen(cfg, old(State([], [])), key, at)
      ensures dedup == if isNew then old(dedup)[key := if cfg.dedupTtl == 0 then None else Some(at + cfg.dedupTtl)]
                       else old(dedup)
    {
      if key in dedup && Live(cfg, dedup[key], at) { return false; }
      dedup := dedup[key := if cfg.dedupTtl == 0 then None else Some(at + cfg.dedupTtl)];
      return true;
    }

    /** VerifySignalHMACWithTTL: the two-sided window, then the signature. */
    method VerifySignal(sig: Request, now: int) returns (ok: bool)
      ensures ok <==> Fresh(cfg, sig, now) && sig.signed
    {
      var age := now - sig.stamp;
      if age < 0 { age := -age; }
      if age > cfg.window { return false; }
      return sig.signed;
    }

    /** One undisturbed request: the clock is read at `now`, SETNX runs at `at`. */
    method Receive(req: Request, now: int, at: int, ghost flights: seq<Flight>, ghost lost: seq<Request>)
      returns (outcome: Outcome)
      modifies this
      ensures outcome == OutcomeOf(cfg, old(State(flights, lost)), req, now, at)
      ensures State(flights, lost) == Handled(cfg, old(State(flights, lost)), req, now, at)
    {
      if !req.headers { return Unauthorized; }
      if !req.valid { return BadRequest; }
      var sig := req.(symbol := Normalize(req.symbol));
      var verified := VerifySignal(sig, now);
      if !verified { return Unauthorized; }
      var isNew := SetDedup(KeyOf(req), at);
      if !isNew { return Duplicate; }
      passes := passes + [Pass(req.ticket, req.kind, req.stamp, now, at)];
      HandledIs(cfg, old(State(flights, lost)), req, now, at);
      if !req.stored { return StorageError; }
      Publish(sig);
      return Accepted;
    }

    /** Insert, slot and queue push. */
    method Publish(sig: Request)
      modifies this`signals, this`latest, this`queued
      ensures signals == old(signals) + [sig] && latest == old(latest)[sig.symbol := sig]
      ensures queued == old(queued)[sig.symbol := QueueOf(old(State([], [])), sig.symbol) + [sig]]
    {
      signals := signals + [sig];
      latest := latest[sig.symbol := sig];
      queued := queued[sig.symbol := (if sig.symbol in queued then queued[sig.symbol] else []) + [sig]];
    }
  }
}
