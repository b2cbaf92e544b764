/** Store, latest-signal slot and job queue of a symbol under overlapping requests. */
module Publication {
  import opened Ingest

  // ---- What every interleaving keeps ----

  function Count(p: Flight -> bool, flights: seq<Flight>): nat {
    if flights == [] then 0 else (if p(flights[0]) then 1 else 0) + Count(p, flights[1..])
  }

  lemma {:induction false} CountAppend(p: Flight -> bool, flights: seq<Flight>, f: Flight)
    ensures Count(p, flights + [f]) == Count(p, flights) + if p(f) then 1 else 0
  {
    if flights == [] {
      assert flights + [f] == [f];
    } else {
      assert (flights + [f])[1..] == flights[1..] + [f];
      CountAppend(p, flights[1..], f);
    }
  }

  lemma {:induction false} CountWithout(p: Flight -> bool, flights: seq<Flight>, i: nat)
    requires i < |flights|
    ensures Count(p, Without(flights, i)) == Count(p, flights) - if p(flights[i]) then 1 else 0
  {
    if i == 0 {
      assert Without(flights, 0) == flights[1..];
    } else {
      CountWithout(p, flights[1..], i - 1);
      assert Without(flights, i)[1..] == Without(flights[1..], i - 1);
    }
  }

  lemma {:induction false} CountUpdate(p: Flight -> bool, flights: seq<Flight>, i: nat, f: Flight)
    requires i < |flights|
    ensures Count(p, flights[i := f])
         == Count(p, flights) - (if p(flights[i]) then 1 else 0) + if p(f) then 1 else 0
  {
    if i == 0 {
      assert flights[0 := f][1..] == flights[1..];
    } else {
      assert flights[i := f][1..] == flights[1..][i - 1 := f];
      CountUpdate(p, flights[1..], i - 1, f);
    }
  }

  lemma {:induction false} CountBounds(p: Flight -> bool, flights: seq<Flight>)
    ensures Count(p, flights) <= |flights|
    ensures Count(p, flights) == 0 <==> forall i :: 0 <= i < |flights| ==> !p(flights[i])
  {
    if flights != [] {
      CountBounds(p, flights[1..]);
      assert forall i :: 1 <= i < |flights| ==> flights[i] == flights[1..][i - 1];
    }
  }

  /** Is the flight's signal this one, stored and not queued yet? */
  function Carries(sig: Request): Flight -> bool { (f: Flight) => f.stage != Deduped && f.sig == sig }

  /** Each time a signal was stored it is queued under its symbol, about to be queued, or
      lost with its handler. */
  predicate Conserved(s: Server, sig: Request) {
    multiset(s.signals)[sig]
    == multiset(QueueOf(s, sig.symbol))[sig] + Count(Carries(sig), s.flights) + multiset(s.lost)[sig]
  }

  lemma InsertConserves(cfg: Config, s: Server, i: nat, sig: Request)
    requires Conserved(s, sig) && Enabled(s, Insert(i))
    ensures Conserved(Next(cfg, s, Insert(i)), sig)
  {
    if s.flights[i].sig.stored {
      CountUpdate(Carries(sig), s.flights, i, Flight(s.flights[i].sig, Inserted));
    } else {
      CountWithout(Carries(sig), s.flights, i);
    }
  }

  lemma PushConserves(cfg: Config, s: Server, i: nat, sig: Request)
    requires Conserved(s, sig) && Enabled(s, Push(i))
    ensures Conserved(Next(cfg, s, Push(i)), sig)
  {
    CountWithout(Carries(sig), s.flights, i);
    var own, q := s.flights[i].sig, QueueOf(s, sig.symbol);
    assert QueueOf(Next(cfg, s, Push(i)), sig.symbol) == if own.symbol == sig.symbol then q + [own] else q;
  }

  lemma DieConserves(cfg: Config, s: Server, i: nat, sig: Request)
    requires Conserved(s, sig) && Enabled(s, Die(i))
    ensures Conserved(Next(cfg, s, Die(i)), sig)
  {
    CountWithout(Carries(sig), s.flights, i);
    assert s.lost + [] == s.lost;
  }

  lemma ConservedStep(cfg: Config, s: Server, e: Event, sig: Request)
    requires Conserved(s, sig)
    ensures Conserved(Next(cfg, s, e), sig)
  {
    if Enabled(s, e) {
      match e
      case Arrive(req, now, at) => CountAppend(Carries(sig), s.flights, Flight(SignalOf(req), Deduped));
      case Insert(i) => InsertConserves(cfg, s, i, sig);
      case SetSlot(i) => CountUpdate(Carries(sig), s.flights, i, Flight(s.flights[i].sig, Published));
      case Push(i) => PushConserves(cfg, s, i, sig);
      case Die(i) => DieConserves(cfg, s, i, sig);
    }
  }

  /** In every interleaving, deaths included, each signal is queued under its symbol as
      often as it was stored, less the copies in flight and those lost with a handler that
      died between insert and push; so with nobody in between and nobody dead, the queue
      holds exactly the stored signals, in some order. */
  lemma {:induction false} StoredAreQueued(cfg: Config, es: seq<Event>, sig: Request)
    ensures Conserved(Run(cfg, es), sig)
    ensures var s := Run(cfg, es);
            s.flights == [] && s.lost == [] ==> multiset(QueueOf(s, sig.symbol))[sig] == multiset(s.signals)[sig]
  {
    if es != [] {
      StoredAreQueued(cfg, es[..|es| - 1], sig);
      ConservedStep(cfg, Run(cfg, es[..|es| - 1]), es[|es| - 1], sig);
    }
  }

  /** The slot of a symbol holds a stored signal of it, and so do the flights past insert. */
  ghost predicate SlotStored(s: Server) {
    && (forall x :: x in s.latest ==> s.latest[x] in s.signals && s.latest[x].symbol == x)
    && (forall i :: 0 <= i < |s.flights| && s.flights[i].stage != Deduped ==> s.flights[i].sig in s.signals)
  }

  lemma SignalsGrow(cfg: Config, s: Server, e: Event)
    ensures s.signals <= Next(cfg, s, e).signals
    ensures forall x :: x in s.signals ==> x in Next(cfg, s, e).signals
  {}

  lemma SlotStoredStep(cfg: Config, s: Server, e: Event)
    requires SlotStored(s)
    ensures SlotStored(Next(cfg, s, e))
  {
    SignalsGrow(cfg, s, e);
    var t := Next(cfg, s, e);
    if e.Insert? && Enabled(s, e) && s.flights[e.i].sig.stored {
      assert t.signals[|s.signals|] == s.flights[e.i].sig;
    }
  }

  /** In every interleaving a slot holds some stored signal of its symbol. */
  lemma {:induction false} SlotHoldsStored(cfg: Config, es: seq<Event>)
    ensures SlotStored(Run(cfg, es))
  {
    if es != [] {
      SlotHoldsStored(cfg, es[..|es| - 1]);
      SlotStoredStep(cfg, Run(cfg, es[..|es| - 1]), es[|es| - 1]);
    }
  }

  // ---- When requests for one symbol do not overlap ----

  /** The stored signals of one symbol, in order. */
  function OfSymbol(signals: seq<Request>, symbol: string): seq<Request> {
    if signals == [] then []
    else OfSymbol(signals[..|signals| - 1], symbol)
         + if signals[|signals| - 1].symbol == symbol then [signals[|signals| - 1]] else []
  }

  lemma OneMore(signals: seq<Request>, sig: Request, symbol: string)
    ensures OfSymbol(signals + [sig], symbol) == OfSymbol(signals, symbol) + if sig.symbol == symbol then [sig] else []
  {
    assert (signals + [sig])[..|signals|] == signals;
  }

  /** Is the request of this flight for this symbol, stored and not queued yet? */
  function Busy(symbol: string): Flight -> bool { (f: Flight) => f.stage != Deduped && f.sig.symbol == symbol }

  function BusyCount(s: Server, symbol: string): nat { Count(Busy(symbol), s.flights) }

  /** The slot holds the last signal of `q`. */
  predicate SlotIsLast(s: Server, symbol: string, q: seq<Request>) {
    (symbol in s.latest <==> q != []) && (q != [] && symbol in s.latest ==> s.latest[symbol] == q[|q| - 1])
  }

  /** The symbol's queue holds its stored signals in order, and its slot the last one. */
  predicate FollowsStore(s: Server, symbol: string) {
    QueueOf(s, symbol) == OfSymbol(s.signals, symbol) && SlotIsLast(s, symbol, QueueOf(s, symbol))
  }

  /** The same with one request between insert and push. */
  predicate FollowsBut(s: Server, symbol: string, f: Flight) {
    && OfSymbol(s.signals, symbol) == QueueOf(s, symbol) + [f.sig]
    && SlotIsLast(s, symbol, if f.stage == Published then OfSymbol(s.signals, symbol) else QueueOf(s, symbol))
  }

  ghost predicate SerialInv(s: Server, symbol: string) {
    && BusyCount(s, symbol) <= 1
    && (BusyCount(s, symbol) == 0 ==> FollowsStore(s, symbol))
    && (forall i :: 0 <= i < |s.flights| && Busy(symbol)(s.flights[i]) ==> FollowsBut(s, symbol, s.flights[i]))
  }

  /** At most `width` requests for the symbol are ever between insert and push. */
  predicate Bounded(cfg: Config, es: seq<Event>, symbol: string, width: nat) {
    && BusyCount(Run(cfg, es), symbol) <= width
    && (es != [] ==> Bounded(cfg, es[..|es| - 1], symbol, width))
  }

  /** A busy flight of a symbol with one request in between is the only one. */
  lemma BusyAlone(s: Server, i: nat, symbol: string)
    requires i < |s.flights| && Busy(symbol)(s.flights[i]) && BusyCount(s, symbol) <= 1
    ensures Count(Busy(symbol), Without(s.flights, i)) == 0
    ensures forall k :: 0 <= k < |s.flights| && k != i ==> !Busy(symbol)(s.flights[k])
  {
    CountWithout(Busy(symbol), s.flights, i);
    CountBounds(Busy(symbol), Without(s.flights, i));
    forall k | 0 <= k < |s.flights| && k != i ensures !Busy(symbol)(s.flights[k]) {
      WithoutAt(s.flights, i, if k < i then k else k - 1);
    }
  }

  /** Storing a signal of another symbol. */
  lemma InsertElsewhere(cfg: Config, s: Server, i: nat, symbol: string)
    requires SerialInv(s, symbol) && Enabled(s, Insert(i)) && s.flights[i].sig.stored
    requires s.flights[i].sig.symbol != symbol
    ensures SerialInv(Next(cfg, s, Insert(i)), symbol)
  {
    var t := Next(cfg, s, Insert(i));
    CountUpdate(Busy(symbol), s.flights, i, Flight(s.flights[i].sig, Inserted));
    OneMore(s.signals, s.flights[i].sig, symbol);
    assert OfSymbol(t.signals, symbol) == OfSymbol(s.signals, symbol);
    forall k | 0 <= k < |t.flights| && Busy(symbol)(t.flights[k]) ensures FollowsBut(t, symbol, t.flights[k]) {
      assert k != i && FollowsBut(s, symbol, s.flights[k]);
    }
  }

  lemma InsertSerial(cfg: Config, s: Server, i: nat, symbol: string)
    requires SerialInv(s, symbol) && Enabled(s, Insert(i)) && s.flights[i].sig.stored
    requires BusyCount(Next(cfg, s, Insert(i)), symbol) <= 1
    ensures SerialInv(Next(cfg, s, Insert(i)), symbol)
  {
    var t := Next(cfg, s, Insert(i));
    var own := s.flights[i].sig;
    if own.symbol != symbol {
      InsertElsewhere(cfg, s, i, symbol);
    } else {
      CountUpdate(Busy(symbol), s.flights, i, Flight(own, Inserted));
      OneMore(s.signals, own, symbol);
      BusyAlone(t, i, symbol);
      assert FollowsStore(s, symbol);
      assert FollowsBut(t, symbol, t.flights[i]);
    }
  }

  lemma SlotSerial(cfg: Config, s: Server, i: nat, symbol: string)
    requires SerialInv(s, symbol) && Enabled(s, SetSlot(i))
    ensures SerialInv(Next(cfg, s, SetSlot(i)), symbol)
  {
    var t := Next(cfg, s, SetSlot(i));
    var own := s.flights[i];
    CountUpdate(Busy(symbol), s.flights, i, Flight(own.sig, Published));
    assert BusyCount(t, symbol) == BusyCount(s, symbol);
    if own.sig.symbol == symbol {
      BusyAlone(s, i, symbol);
      assert FollowsBut(s, symbol, own);
      assert FollowsBut(t, symbol, t.flights[i]);
      CountBounds(Busy(symbol), t.flights);
    } else {
      forall k | 0 <= k < |t.flights| && Busy(symbol)(t.flights[k]) ensures FollowsBut(t, symbol, t.flights[k]) {
        assert k != i && FollowsBut(s, symbol, s.flights[k]);
      }
    }
  }

  /** Taking a flight out that is not busy with the symbol, or its push. */
  lemma LeaveSerial(s: Server, t: Server, i: nat, symbol: string)
    requires SerialInv(s, symbol) && i < |s.flights| && t.flights == Without(s.flights, i)
    requires t.signals == s.signals
    requires if Busy(symbol)(s.flights[i])
             then s.flights[i].stage == Published && t.latest == s.latest
                  && QueueOf(t, symbol) == QueueOf(s, symbol) + [s.flights[i].sig]
             else QueueOf(t, symbol) == QueueOf(s, symbol) && t.latest == s.latest
    ensures SerialInv(t, symbol)
  {
    CountWithout(Busy(symbol), s.flights, i);
    if Busy(symbol)(s.flights[i]) {
      BusyAlone(s, i, symbol);
      CountBounds(Busy(symbol), t.flights);
    } else {
      forall k | 0 <= k < |t.flights| && Busy(symbol)(t.flights[k]) ensures FollowsBut(t, symbol, t.flights[k]) {
        WithoutAt(s.flights, i, k);
      }
    }
  }

  lemma ArriveSerial(cfg: Config, s: Server, e: Event, symbol: string)
    requires SerialInv(s, symbol) && e.Arrive?
    ensures SerialInv(Next(cfg, s, e), symbol)
  {
    var t := Next(cfg, s, e);
    CountAppend(Busy(symbol), s.flights, Flight(SignalOf(e.req), Deduped));
    forall k | 0 <= k < |t.flights| && Busy(symbol)(t.flights[k]) ensures FollowsBut(t, symbol, t.flights[k]) {
      assert t.flights[k] == s.flights[k] && FollowsBut(s, symbol, s.flights[k]);
    }
  }

  predicate NoDeath(es: seq<Event>) { forall i :: 0 <= i < |es| ==> !es[i].Die? }

  lemma SerialStep(cfg: Config, s: Server, e: Event, symbol: string)
    requires SerialInv(s, symbol) && !e.Die? && BusyCount(Next(cfg, s, e), symbol) <= 1
    ensures SerialInv(Next(cfg, s, e), symbol)
  {
    if Enabled(s, e) {
      match e
      case Arrive(_, _, _) => ArriveSerial(cfg, s, e, symbol);
      case Insert(i) =>
        if s.flights[i].sig.stored {
          InsertSerial(cfg, s, i, symbol);
        } else {
          LeaveSerial(s, Next(cfg, s, e), i, symbol);
        }
      case SetSlot(i) => SlotSerial(cfg, s, i, symbol);
      case Push(i) => LeaveSerial(s, Next(cfg, s, e), i, symbol);
    }
  }

  lemma {:induction false} SerialRun(cfg: Config, es: seq<Event>, symbol: string)
    requires Bounded(cfg, es, symbol, 1) && NoDeath(es)
    ensures SerialInv(Run(cfg, es), symbol)
  {
    if es != [] {
      SerialRun(cfg, es[..|es| - 1], symbol);
      SerialStep(cfg, Run(cfg, es[..|es| - 1]), es[|es| - 1], symbol);
    }
  }

  /** If no two requests for a symbol overlap between insert and push, and no handler dies
      there, then whenever none is in between, the symbol's queue holds its stored signals
      in order and its slot the last one.  Requests for other symbols may overlap. */
  lemma SlotAndQueueFollowStore(cfg: Config, es: seq<Event>, symbol: string)
    requires Bounded(cfg, es, symbol, 1) && NoDeath(es) && BusyCount(Run(cfg, es), symbol) == 0
    ensures FollowsStore(Run(cfg, es), symbol)
  {
    SerialRun(cfg, es, symbol);
  }

  // ---- Overlapping requests ----

  /** With at most `width` overlapping requests per symbol, slot and queue follow the store
      in every run without deaths. */
  ghost predicate AlwaysFollows(cfg: Config, lag: nat, width: nat) {
    forall es: seq<Event>, symbol: string ::
      Ordered(es, lag) && NoDeath(es) && Bounded(cfg, es, symbol, width) && BusyCount(Run(cfg, es), symbol) == 0 ==>
        FollowsStore(Run(cfg, es), symbol)
  }

  lemma {:induction false} NothingAdmitted(cfg: Config, es: seq<Event>)
    requires cfg.window < 0
    ensures Run(cfg, es) == INIT
  {
    if es != [] { NothingAdmitted(cfg, es[..|es| - 1]); }
  }

  /** Two requests for one symbol are both stored; then the later one sets the slot first. */
  function OverlapEvents(a: Request, b: Request): seq<Event> {
    SlotEvents(a, b) + [Push(0)] + [Push(0)]
  }

  function ArriveEvents(a: Request, b: Request): seq<Event> { [Arrive(a, 0, 0)] + [Arrive(b, 0, 0)] }

  function StoredEvents(a: Request, b: Request): seq<Event> { ArriveEvents(a, b) + [Insert(0)] + [Insert(1)] }

  function SlotEvents(a: Request, b: Request): seq<Event> { StoredEvents(a, b) + [SetSlot(1)] + [SetSlot(0)] }

  predicate Pair(a: Request, b: Request) {
    && a.ticket != b.ticket && a.symbol == b.symbol && a.stamp == b.stamp == 0
    && a.headers && a.valid && a.signed && a.stored && b.headers && b.valid && b.signed && b.stored
  }

  lemma BoundedNext(cfg: Config, es: seq<Event>, e: Event, symbol: string, width: nat)
    requires Bounded(cfg, es, symbol, width) && |Next(cfg, Run(cfg, es), e).flights| <= width
    ensures Bounded(cfg, es + [e], symbol, width) && Run(cfg, es + [e]) == Next(cfg, Run(cfg, es), e)
  {
    RunNext(cfg, es, e);
    assert (es + [e])[..|es|] == es;
    CountBounds(Busy(symbol), Next(cfg, Run(cfg, es), e).flights);
  }

  lemma FirstRun(cfg: Config, a: Request, symbol: string, width: nat)
    requires cfg.window >= 0 && width >= 2 && Admitted(cfg, a, 0)
    ensures Bounded(cfg, [Arrive(a, 0, 0)], symbol, width)
    ensures var s := Run(cfg, [Arrive(a, 0, 0)]);
            && s.signals == [] && s.latest == map[] && s.queued == map[]
            && s.flights == [Flight(SignalOf(a), Deduped)] && s.dedup.Keys == {KeyOf(a)}
  {
    var e, es := Arrive(a, 0, 0), [Arrive(a, 0, 0)];
    assert Run(cfg, es) == Next(cfg, INIT, e) by {
      assert es[..0] == [] && es[0] == e && Run(cfg, []) == INIT;
    }
    PassesDedup(cfg, INIT, a, 0, 0);
    assert Bounded(cfg, es, symbol, width) by {
      BoundedNext(cfg, [], e, symbol, width);
      assert [] + es == es;
    }
  }

  lemma ArrivedRun(cfg: Config, a: Request, b: Request, symbol: string, width: nat)
    requires cfg.window >= 0 && width >= 2 && Pair(a, b)
    ensures Bounded(cfg, ArriveEvents(a, b), symbol, width)
    ensures var s := Run(cfg, ArriveEvents(a, b));
            && s.signals == [] && s.latest == map[] && s.queued == map[]
            && s.flights == [Flight(SignalOf(a), Deduped), Flight(SignalOf(b), Deduped)]
  {
    var s := Run(cfg, [Arrive(a, 0, 0)]);
    FirstRun(cfg, a, symbol, width);
    assert Passes(cfg, s, b, 0, 0) by { assert KeyOf(b) !in s.dedup.Keys; }
    PassesDedup(cfg, s, b, 0, 0);
    BoundedNext(cfg, [Arrive(a, 0, 0)], Arrive(b, 0, 0), symbol, width);
  }

  lemma StoredRun(cfg: Config, a: Request, b: Request, symbol: string, width: nat)
    requires cfg.window >= 0 && width >= 2 && Pair(a, b)
    ensures Bounded(cfg, StoredEvents(a, b), symbol, width)
    ensures var s := Run(cfg, StoredEvents(a, b));
            && s.signals == [SignalOf(a), SignalOf(b)] && s.latest == map[] && s.queued == map[]
            && s.flights == [Flight(SignalOf(a), Inserted), Flight(SignalOf(b), Inserted)]
  {
    var es := ArriveEvents(a, b);
    ArrivedRun(cfg, a, b, symbol, width);
    BoundedNext(cfg, es, Insert(0), symbol, width);
    BoundedNext(cfg, es + [Insert(0)], Insert(1), symbol, width);
  }

  lemma SlotsRun(cfg: Config, a: Request, b: Request, symbol: string, width: nat)
    requires cfg.window >= 0 && width >= 2 && Pair(a, b)
    ensures Bounded(cfg, SlotEvents(a, b), symbol, width)
    ensures var s := Run(cfg, SlotEvents(a, b));
            && s.signals == [SignalOf(a), SignalOf(b)] && s.latest == map[SignalOf(a).symbol := SignalOf(a)]
            && s.flights == [Flight(SignalOf(a), Published), Flight(SignalOf(b), Published)]
  {
    var es := StoredEvents(a, b);
    StoredRun(cfg, a, b, symbol, width);
    BoundedNext(cfg, es, SetSlot(1), symbol, width);
    BoundedNext(cfg, es + [SetSlot(1)], SetSlot(0), symbol, width);
  }

  lemma BothOfSymbol(a: Request, b: Request)
    requires a.symbol == b.symbol
    ensures OfSymbol([a, b], a.symbol) == [a, b]
  {
    OneMore([], a, a.symbol);
    OneMore([a], b, a.symbol);
    assert [] + [a] == [a] && [a] + [b] == [a, b];
  }

  /** The slot ends up with the first of two stored signals. */
  lemma OverlapLeavesOlder(cfg: Config, a: Request, b: Request, width: nat)
    requires cfg.window >= 0 && width >= 2 && Pair(a, b)
    ensures var es := OverlapEvents(a, b);
            var s := Run(cfg, es);
            var symbol := SignalOf(a).symbol;
            && Bounded(cfg, es, symbol, width) && BusyCount(s, symbol) == 0
            && OfSymbol(s.signals, symbol) == [SignalOf(a), SignalOf(b)]
            && symbol in s.latest && s.latest[symbol] == SignalOf(a)
  {
    var es, symbol := SlotEvents(a, b), SignalOf(a).symbol;
    SlotsRun(cfg, a, b, symbol, width);
    BoundedNext(cfg, es, Push(0), symbol, width);
    BoundedNext(cfg, es + [Push(0)], Push(0), symbol, width);
    BothOfSymbol(SignalOf(a), SignalOf(b));
  }

  lemma OverlapOrdered(a: Request, b: Request, lag: nat)
    ensures Ordered(OverlapEvents(a, b), lag) && NoDeath(OverlapEvents(a, b))
  {}

  lemma OverlapBreaks(cfg: Config, lag: nat, width: nat)
    requires cfg.window >= 0 && width >= 2
    ensures !AlwaysFollows(cfg, lag, width)
  {
    var a := Request(1, "OPEN", "EURUSD", 0, true, true, true, true);
    var b := a.(ticket := 2);
    var es, symbol := OverlapEvents(a, b), SignalOf(a).symbol;
    OverlapLeavesOlder(cfg, a, b, width);
    OverlapOrdered(a, b, lag);
    assert !FollowsStore(Run(cfg, es), symbol) by { assert SignalOf(a).ticket != SignalOf(b).ticket; }
  }

  /** Slot and queue follow the store in every run without deaths exactly if requests for
      one symbol never overlap between insert and push (or the window admits nothing). */
  lemma AlwaysFollowsIffSerial(cfg: Config, lag: nat, width: nat)
    ensures AlwaysFollows(cfg, lag, width) <==> width <= 1 || cfg.window < 0
  {
    if width <= 1 || cfg.window < 0 {
      forall es: seq<Event>, symbol: string
        | Ordered(es, lag) && NoDeath(es) && Bounded(cfg, es, symbol, width) && BusyCount(Run(cfg, es), symbol) == 0
        ensures FollowsStore(Run(cfg, es), symbol)
      {
        if cfg.window < 0 {
          NothingAdmitted(cfg, es);
        } else {
          BoundedWider(cfg, es, symbol, width);
          SlotAndQueueFollowStore(cfg, es, symbol);
        }
      }
    } else {
      OverlapBreaks(cfg, lag, width);
    }
  }

  lemma {:induction false} BoundedWider(cfg: Config, es: seq<Event>, symbol: string, width: nat)
    requires width <= 1 && Bounded(cfg, es, symbol, width)
    ensures Bounded(cfg, es, symbol, 1)
  {
    if es != [] { BoundedWider(cfg, es[..|es| - 1], symbol, width); }
  }
}
