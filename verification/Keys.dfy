/** API keys: rotation chains, and validation through the key cache.  Cache commands and
    statements of different validations and of administrators interleave. */
module Keys {
  import opened Wrappers
  import opened JsonText

  datatype Status = Active | Revoked | Suspended

  datatype Key = Key(status: Status, successor: Option<nat>, rotateAt: Option<int>)

  /** Keys in the order of their creation; a key's id is its position. */
  type Table = seq<Key>

  /** The part of a key that is cached. */
  datatype CachedKey = CachedKey(id: nat, status: Status)

  /** A `cacheTtl` of zero sets no TTL. */
  datatype Config = Config(codec: Codec, cacheTtl: nat, lastInstant: bool)

  /** `readAt` is when the table was read for the entry; no step looks at it. */
  datatype Entry = Entry(text: Json<CachedKey>, at: int, readAt: int)

  /** A validation that found its key valid in the table and has not cached it yet. */
  datatype Pending = Pending(key: CachedKey, readAt: int)

  datatype Operation =
    | Create
    | Rotate(id: nat, rotateAt: int)
    | SetStatus(id: nat, status: Status)  // UPDATE
    | Drop(id: nat)                       // DEL of the cache entry
    | Read(id: nat)                       // SELECT by a validation that missed the cache
    | Store(i: nat)                       // SET by such a validation
    | Abandon(i: nat)                     // it dies before its SET

  datatype Event = Event(op: Operation, now: int)

  datatype Snapshot = Snapshot(time: int, table: Table)

  datatype State = State(table: Table, cache: map<nat, Entry>, pending: seq<Pending>, history: seq<Snapshot>)

  const INIT := State([], map[], [], [])

  /** The database part of ValidateKey. */
  predicate DbValid(table: Table, id: nat, now: int) {
    && id < |table| && table[id].status == Active
    && (table[id].rotateAt.Some? ==> now <= table[id].rotateAt.value)
  }

  predicate Lives(cfg: Config, at: int, now: int) {
    cfg.cacheTtl == 0 || Alive(at + cfg.cacheTtl, now, cfg.lastInstant)
  }

  /** What the cache decides, if it holds a live entry that decodes. */
  function CacheVerdict(cfg: Config, s: State, id: nat, now: int): Option<bool> {
    if id !in s.cache || !Lives(cfg, s.cache[id].at, now) then None
    else
      match Decode(s.cache[id].text)
      case None => None
      case Some(key) => Some(key.status == Active)
  }

  /** ValidateKey. */
  predicate Accepts(cfg: Config, s: State, id: nat, now: int) {
    match CacheVerdict(cfg, s, id, now)
    case Some(active) => active
    case None => DbValid(s.table, id, now)
  }

  function NewKey(): Key { Key(Active, None, None) }

  function Without(xs: seq<Pending>, i: nat): seq<Pending>
    requires i < |xs|
  {
    xs[..i] + xs[i + 1..]
  }

  function Apply(cfg: Config, s: State, e: Event): State {
    match e.op
    case Create => s.(table := s.table + [NewKey()])
    case Rotate(id, rotateAt) =>
      if id >= |s.table| then s
      else
        var linked := s.table[id].(successor := Some(|s.table|), rotateAt := Some(rotateAt));
        s.(table := s.table[id := linked] + [NewKey()])
    case SetStatus(id, status) =>
      if id >= |s.table| then s else s.(table := s.table[id := s.table[id].(status := status)])
    case Drop(id) => s.(cache := s.cache - {id})
    case Read(id) =>
      if !DbValid(s.table, id, e.now) then s
      else s.(pending := s.pending + [Pending(CachedKey(id, s.table[id].status), e.now)])
    case Store(i) =>
      if i >= |s.pending| then s
      else
        var p := s.pending[i];
        s.(cache := s.cache[p.key.id := Entry(Encode(cfg.codec, p.key), e.now, p.readAt)],
           pending := Without(s.pending, i))
    case Abandon(i) => if i >= |s.pending| then s else s.(pending := Without(s.pending, i))
  }

  function Next(cfg: Config, s: State, e: Event): State {
    var t := Apply(cfg, s, e);
    t.(history := s.history + [Snapshot(e.now, t.table)])
  }

  function Run(cfg: Config, es: seq<Event>): State {
    if es == [] then INIT else Next(cfg, Run(cfg, es[..|es| - 1]), es[|es| - 1])
  }

  /** The clock never runs backwards, and `now` is not before the last event. */
  predicate Ordered(es: seq<Event>, now: int) {
    && (forall i, j :: 0 <= i < j < |es| ==> es[i].now <= es[j].now)
    && (es != [] ==> es[|es| - 1].now <= now)
  }

  // ---- Chains ----

  /** Links lead to later keys, and exactly the linked keys have a rotation time. */
  predicate WellLinked(table: Table) {
    forall i :: 0 <= i < |table| ==>
      && (table[i].successor.Some? <==> table[i].rotateAt.Some?)
      && (table[i].successor.Some? ==> i < table[i].successor.value < |table|)
  }

  lemma {:induction false} LinksLeadForward(cfg: Config, es: seq<Event>)
    ensures WellLinked(Run(cfg, es).table)
  {
    if es != [] { LinksLeadForward(cfg, es[..|es| - 1]); }
  }

  /** The ids from a key along its successors. */
  function Chain(table: Table, id: nat): seq<nat>
    requires WellLinked(table) && id < |table|
    decreases |table| - id
  {
    [id] + if table[id].successor == None then [] else Chain(table, table[id].successor.value)
  }

  function Last(table: Table, id: nat): nat
    requires WellLinked(table) && id < |table|
  {
    var c := Chain(table, id);
    c[|c| - 1]
  }

  predicate Rising(ids: seq<nat>) { forall i, j :: 0 <= i < j < |ids| ==> ids[i] < ids[j] }

  lemma RisingFront(id: nat, ids: seq<nat>)
    requires Rising(ids) && ids != [] && id < ids[0]
    ensures Rising([id] + ids)
  {
    var all := [id] + ids;
    assert forall i :: 0 <= i < |ids| ==> ids[0] <= ids[i];
    assert forall i :: 0 < i < |all| ==> all[i] == ids[i - 1];
  }

  lemma {:induction false} ChainShape(table: Table, id: nat)
    requires WellLinked(table) && id < |table|
    ensures Chain(table, id)[0] == id && Rising(Chain(table, id))
    ensures forall i :: 0 <= i < |Chain(table, id)| ==> Chain(table, id)[i] < |table|
    ensures table[Last(table, id)].rotateAt == None
    decreases |table| - id
  {
    if table[id].successor.Some? {
      var next := table[id].successor.value;
      ChainShape(table, next);
      RisingFront(id, Chain(table, next));
      assert Last(table, id) == Last(table, next);
    }
  }

  /** In every reachable table each chain is strictly increasing and ends at a key
      without rotation time.  If that key is active it is valid at every time, so at
      every time some key of the chain is; and an active rotated key is valid exactly
      until its rotation time. */
  lemma ChainAlwaysHasValidKey(cfg: Config, es: seq<Event>, id: nat, now: int)
    requires id < |Run(cfg, es).table|
    ensures var table := Run(cfg, es).table;
            && WellLinked(table)
            && Rising(Chain(table, id))
            && Last(table, id) < |table|
            && (DbValid(table, Last(table, id), now) <==> table[Last(table, id)].status == Active)
            && (table[id].status == Active ==>
                  (DbValid(table, id, now) <==> Last(table, id) == id || now <= table[id].rotateAt.value))
  {
    LinksLeadForward(cfg, es);
    var table := Run(cfg, es).table;
    ChainShape(table, id);
    var c := Chain(table, id);
    if table[id].successor.Some? { assert c[0] < c[|c| - 1]; }
  }

  predicate OnChain(table: Table, id: nat, k: nat) {
    WellLinked(table) && id < |table| && k in Chain(table, id)
  }

  lemma {:induction false} ActiveUnlessSet(cfg: Config, es: seq<Event>, id: nat)
    requires id < |Run(cfg, es).table|
    requires forall i :: 0 <= i < |es| ==> !(es[i].op.SetStatus? && es[i].op.id == id)
    ensures Run(cfg, es).table[id].status == Active
  {
    if es != [] && id < |Run(cfg, es[..|es| - 1]).table| { ActiveUnlessSet(cfg, es[..|es| - 1], id); }
  }

  /** Whatever is created and rotated and however often, at every time every chain whose
      keys had no status change contains a key that is valid in the table. */
  lemma RotationNeverLocksOut(cfg: Config, es: seq<Event>, id: nat, now: int)
    requires id < |Run(cfg, es).table|
    requires forall i :: 0 <= i < |es| && es[i].op.SetStatus? ==> !OnChain(Run(cfg, es).table, id, es[i].op.id)
    ensures exists k :: OnChain(Run(cfg, es).table, id, k) && DbValid(Run(cfg, es).table, k, now)
  {
    LinksLeadForward(cfg, es);
    var table := Run(cfg, es).table;
    ChainShape(table, id);
    var last := Last(table, id);
    assert OnChain(table, id, last);
    ActiveUnlessSet(cfg, es, last);
  }

  // ---- What the cache holds ----

  predicate ValidWithin(s: State, id: nat, from: int, to: int) {
    exists i :: 0 <= i < |s.history| && from <= s.history[i].time <= to
                && DbValid(s.history[i].table, id, s.history[i].time)
  }

  /** A validation in flight found its key valid when it read it. */
  predicate GoodPending(s: State, p: Pending, now: int) {
    p.key.status == Active && p.readAt <= now && ValidWithin(s, p.key.id, p.readAt, p.readAt)
  }

  /** A cached key was active and valid when the table was read for it. */
  predicate GoodEntry(cfg: Config, s: State, id: nat, e: Entry, now: int) {
    && e.text == Encode(cfg.codec, CachedKey(id, Active))
    && e.readAt <= e.at <= now && ValidWithin(s, id, e.readAt, e.readAt)
  }

  ghost predicate CacheInv(cfg: Config, s: State, now: int) {
    && (forall i :: 0 <= i < |s.pending| ==> GoodPending(s, s.pending[i], now))
    && (forall id :: id in s.cache ==> GoodEntry(cfg, s, id, s.cache[id], now))
  }

  lemma HistoryGrows(s: State, t: State, id: nat, at: int)
    requires ValidWithin(s, id, at, at) && s.history <= t.history
    ensures ValidWithin(t, id, at, at)
  {
    var i :| 0 <= i < |s.history| && at <= s.history[i].time <= at
             && DbValid(s.history[i].table, id, s.history[i].time);
    assert t.history[i] == s.history[i];
  }

  lemma GoodPendingLater(s: State, t: State, p: Pending, before: int, now: int)
    requires GoodPending(s, p, before) && before <= now && s.history <= t.history
    ensures GoodPending(t, p, now)
  {
    HistoryGrows(s, t, p.key.id, p.readAt);
  }

  lemma WithoutMember(xs: seq<Pending>, i: nat, k: nat)
    requires i < |xs| && k < |Without(xs, i)|
    ensures Without(xs, i)[k] == xs[if k < i then k else k + 1]
  {}

  lemma PendingSource(cfg: Config, s: State, e: Event, k: nat)
    requires k < |Next(cfg, s, e).pending|
    ensures var p := Next(cfg, s, e).pending[k];
            || p in s.pending
            || (e.op == Read(p.key.id) && p == Pending(CachedKey(p.key.id, Active), e.now)
                && DbValid(s.table, p.key.id, e.now))
  {
    if (e.op.Store? || e.op.Abandon?) && e.op.i < |s.pending| { WithoutMember(s.pending, e.op.i, k); }
  }

  lemma PendingStep(cfg: Config, s: State, e: Event, before: int, k: nat)
    requires CacheInv(cfg, s, before) && before <= e.now && k < |Next(cfg, s, e).pending|
    ensures GoodPending(Next(cfg, s, e), Next(cfg, s, e).pending[k], e.now)
  {
    var t := Next(cfg, s, e);
    PendingSource(cfg, s, e, k);
    if t.pending[k] in s.pending {
      GoodPendingLater(s, t, t.pending[k], before, e.now);
    } else {
      assert t.history[|s.history|] == Snapshot(e.now, s.table);
    }
  }

  lemma EntryStep(cfg: Config, s: State, e: Event, before: int, id: nat)
    requires CacheInv(cfg, s, before) && before <= e.now && id in Next(cfg, s, e).cache
    ensures GoodEntry(cfg, Next(cfg, s, e), id, Next(cfg, s, e).cache[id], e.now)
  {
    var t := Next(cfg, s, e);
    if e.op.Store? && e.op.i < |s.pending| && s.pending[e.op.i].key.id == id {
      assert GoodPending(s, s.pending[e.op.i], before);
      HistoryGrows(s, t, id, s.pending[e.op.i].readAt);
    } else {
      assert id in s.cache && t.cache[id] == s.cache[id];
      HistoryGrows(s, t, id, s.cache[id].readAt);
    }
  }

  lemma {:induction false} CacheRun(cfg: Config, es: seq<Event>, now: int)
    requires Ordered(es, now)
    ensures CacheInv(cfg, Run(cfg, es), now)
  {
    if es != [] {
      var n := |es| - 1;
      var s := Run(cfg, es[..n]);
      CacheRun(cfg, es[..n], es[n].now);
      forall i | 0 <= i < |Run(cfg, es).pending| ensures GoodPending(Run(cfg, es), Run(cfg, es).pending[i], now) {
        PendingStep(cfg, s, es[n], es[n].now, i);
      }
      forall id | id in Run(cfg, es).cache ensures GoodEntry(cfg, Run(cfg, es), id, Run(cfg, es).cache[id], now) {
        EntryStep(cfg, s, es[n], es[n].now, id);
      }
    }
  }

  // ---- When validation agrees with the table ----

  /** In every run and at every time validation gives the table's verdict. */
  ghost predicate AlwaysAgrees(cfg: Config) {
    forall es: seq<Event>, id: nat, now: int ::
      Ordered(es, now) ==> (Accepts(cfg, Run(cfg, es), id, now) <==> DbValid(Run(cfg, es).table, id, now))
  }

  /** A key is validated, cached and then rotated with a rotation time that has passed. */
  function RotatedEvents(): seq<Event> {
    [] + [Event(Create, 0)] + [Event(Read(0), 0)] + [Event(Store(0), 0)] + [Event(Rotate(0, -1), 0)]
  }

  lemma RunNext(cfg: Config, es: seq<Event>, e: Event)
    ensures Run(cfg, es + [e]) == Next(cfg, Run(cfg, es), e)
  {
    assert (es + [e])[..|es|] == es;
  }

  lemma CreatedRun(cfg: Config)
    ensures var s := Run(cfg, [] + [Event(Create, 0)]);
            s.table == [NewKey()] && s.cache == map[] && s.pending == []
  {
    RunNext(cfg, [], Event(Create, 0));
  }

  lemma ReadRun(cfg: Config)
    ensures var s := Run(cfg, [] + [Event(Create, 0)] + [Event(Read(0), 0)]);
            s.table == [NewKey()] && s.cache == map[] && s.pending == [Pending(CachedKey(0, Active), 0)]
  {
    CreatedRun(cfg);
    RunNext(cfg, [] + [Event(Create, 0)], Event(Read(0), 0));
  }

  lemma StoredRun(cfg: Config)
    ensures var s := Run(cfg, [] + [Event(Create, 0)] + [Event(Read(0), 0)] + [Event(Store(0), 0)]);
            && s.table == [NewKey()] && 0 in s.cache
            && s.cache[0] == Entry(Encode(cfg.codec, CachedKey(0, Active)), 0, 0)
  {
    ReadRun(cfg);
    RunNext(cfg, [] + [Event(Create, 0)] + [Event(Read(0), 0)], Event(Store(0), 0));
  }

  lemma RotatedDisagrees(cfg: Config)
    requires cfg.codec == Intended
    ensures Ordered(RotatedEvents(), 0)
    ensures Accepts(cfg, Run(cfg, RotatedEvents()), 0, 0) && !DbValid(Run(cfg, RotatedEvents()).table, 0, 0)
  {
    StoredRun(cfg);
    RunNext(cfg, [] + [Event(Create, 0)] + [Event(Read(0), 0)] + [Event(Store(0), 0)], Event(Rotate(0, -1), 0));
  }

  /** Validation gives the table's verdict in every run exactly if a cached text never
      decodes: as written, where the key is marshalled twice, the cache is never used. */
  lemma AgreesIffUndecodable(cfg: Config)
    ensures AlwaysAgrees(cfg) <==> forall key: CachedKey :: Decode(Encode(cfg.codec, key)) == None
  {
    if cfg.codec == Intended {
      RotatedDisagrees(cfg);
      assert Decode(Encode(cfg.codec, CachedKey(0, Active))) != None;
      assert Ordered(RotatedEvents(), 0);
    } else {
      forall es: seq<Event>, id: nat, now: int | Ordered(es, now)
        ensures Accepts(cfg, Run(cfg, es), id, now) <==> DbValid(Run(cfg, es).table, id, now)
      {
        CacheRun(cfg, es, now);
      }
    }
  }

  // ---- How late rotations and revocations take effect ----

  /** Every validation caches its key at most `gap` after reading it. */
  predicate StoresWithin(cfg: Config, es: seq<Event>, gap: nat) {
    es == [] ||
    (var n, s := |es| - 1, Run(cfg, es[..|es| - 1]);
     && StoresWithin(cfg, es[..n], gap)
     && (es[n].op.Store? && es[n].op.i < |s.pending| ==> es[n].now - s.pending[es[n].op.i].readAt <= gap))
  }

  lemma {:induction false} EntriesWithin(cfg: Config, es: seq<Event>, gap: nat)
    requires StoresWithin(cfg, es, gap)
    ensures forall id :: id in Run(cfg, es).cache ==> Run(cfg, es).cache[id].at - Run(cfg, es).cache[id].readAt <= gap
  {
    if es != [] { EntriesWithin(cfg, es[..|es| - 1], gap); }
  }

  /** An accepted key was valid in the table at some moment within the last cache TTL
      and the time a validation takes, so a rotation, and a revocation that overlaps a
      validation, may take effect that much late. */
  lemma CachedAcceptance(cfg: Config, es: seq<Event>, id: nat, now: int, gap: nat)
    requires Ordered(es, now) && cfg.cacheTtl > 0 && StoresWithin(cfg, es, gap)
    requires Accepts(cfg, Run(cfg, es), id, now)
    ensures ValidWithin(Next(cfg, Run(cfg, es), Event(Read(id), now)), id, now - cfg.cacheTtl - gap, now)
  {
    var s := Run(cfg, es);
    var t := Next(cfg, s, Event(Read(id), now));
    CacheRun(cfg, es, now);
    EntriesWithin(cfg, es, gap);
    if CacheVerdict(cfg, s, id, now).Some? {
      var e := s.cache[id];
      assert GoodEntry(cfg, s, id, e, now);
      HistoryGrows(s, t, id, e.readAt);
      var i :| 0 <= i < |t.history| && e.readAt <= t.history[i].time <= e.readAt
               && DbValid(t.history[i].table, id, t.history[i].time);
      assert now - cfg.cacheTtl - gap <= t.history[i].time <= now;
    } else {
      assert t.history[|s.history|] == Snapshot(now, s.table);
    }
  }

  predicate InFlight(s: State, id: nat) { exists i :: 0 <= i < |s.pending| && s.pending[i].key.id == id }

  predicate Inactive(s: State, id: nat) { id < |s.table| && s.table[id].status != Active }

  /** A key that is not active, is not cached and is not being validated. */
  predicate Gone(s: State, id: nat) {
    Inactive(s, id) && id !in s.cache && !InFlight(s, id)
  }

  predicate Reactivates(e: Event, id: nat) { e.op == SetStatus(id, Active) }

  lemma GoneStep(cfg: Config, s: State, e: Event, id: nat)
    requires Gone(s, id) && !Reactivates(e, id)
    ensures Gone(Next(cfg, s, e), id)
  {
    var t := Next(cfg, s, e);
    if e.op.Store? && e.op.i < |s.pending| { assert s.pending[e.op.i].key.id != id; }
    forall i | 0 <= i < |t.pending| ensures t.pending[i].key.id != id {
      if k :| 0 <= k < |s.pending| && s.pending[k] == t.pending[i] {}
    }
  }

  /** Over `more`, a run continues `es`. */
  lemma {:induction false} GoneRun(cfg: Config, es: seq<Event>, more: seq<Event>, id: nat)
    requires Gone(Run(cfg, es), id) && forall i :: 0 <= i < |more| ==> !Reactivates(more[i], id)
    ensures Gone(Run(cfg, es + more), id)
  {
    if more == [] {
      assert es + more == es;
    } else {
      var n := |more| - 1;
      GoneRun(cfg, es, more[..n], id);
      assert es + more == (es + more[..n]) + [more[n]];
      RunNext(cfg, es + more[..n], more[n]);
      GoneStep(cfg, Run(cfg, es + more[..n]), more[n], id);
    }
  }

  /** Some continuation that does not reactivate the key accepts it. */
  ghost predicate AcceptedLater(cfg: Config, es: seq<Event>, id: nat) {
    exists more: seq<Event>, now: int ::
      && Ordered(es + more, now) && (forall i :: 0 <= i < |more| ==> !Reactivates(more[i], id))
      && Accepts(cfg, Run(cfg, es + more), id, now)
  }

  /** Once a key was made inactive and its cache entry deleted, as SetKeyStatus does, the
      key can still be accepted before somebody reactivates it exactly if cached texts
      decode and some validation read the key before the update and has not cached it
      yet.  So a revocation that overlaps no validation acts at once and for good. */
  lemma RevocationHoldsIff(cfg: Config, es: seq<Event>, id: nat, now: int)
    requires Ordered(es, now)
    requires Inactive(Run(cfg, es), id) && id !in Run(cfg, es).cache
    ensures AcceptedLater(cfg, es, id) <==> cfg.codec == Intended && InFlight(Run(cfg, es), id)
  {
    var s := Run(cfg, es);
    if cfg.codec == Intended && InFlight(s, id) {
      CacheRun(cfg, es, now);
      var i :| 0 <= i < |s.pending| && s.pending[i].key.id == id;
      StoredAccepted(cfg, es, id, i, now);
    }
    if AcceptedLater(cfg, es, id) {
      var more: seq<Event>, later: int :|
        && Ordered(es + more, later) && (forall i :: 0 <= i < |more| ==> !Reactivates(more[i], id))
        && Accepts(cfg, Run(cfg, es + more), id, later);
      if !InFlight(s, id) { GoneRun(cfg, es, more, id); }
      if cfg.codec == AsWritten {
        CacheRun(cfg, es + more, later);
        InactiveRun(cfg, es, more, id);
      }
    }
  }

  lemma StatusDropped(cfg: Config, es: seq<Event>, id: nat, status: Status, t1: int, t2: int)
    requires id < |Run(cfg, es).table|
    ensures var s := Run(cfg, es);
            var t := Run(cfg, es + [Event(SetStatus(id, status), t1)] + [Event(Drop(id), t2)]);
            && t.table == s.table[id := s.table[id].(status := status)]
            && t.cache == s.cache - {id} && t.pending == s.pending
  {
    RunNext(cfg, es, Event(SetStatus(id, status), t1));
    RunNext(cfg, es + [Event(SetStatus(id, status), t1)], Event(Drop(id), t2));
  }

  /** Over every run: once a key was revoked or suspended and its cache entry deleted, it is
      refused; and it can be accepted again before somebody reactivates it exactly if
      cached texts decode and a validation that read it before has not cached it yet. */
  lemma RevokedIff(cfg: Config, es: seq<Event>, id: nat, status: Status, t1: int, t2: int, now: int)
    requires id < |Run(cfg, es).table| && status != Active
    requires Ordered(es + [Event(SetStatus(id, status), t1)] + [Event(Drop(id), t2)], now)
    ensures var revoked := es + [Event(SetStatus(id, status), t1)] + [Event(Drop(id), t2)];
            && !Accepts(cfg, Run(cfg, revoked), id, now)
            && (AcceptedLater(cfg, revoked, id) <==> cfg.codec == Intended && InFlight(Run(cfg, es), id))
  {
    var revoked := es + [Event(SetStatus(id, status), t1)] + [Event(Drop(id), t2)];
    StatusDropped(cfg, es, id, status, t1, t2);
    RevocationHoldsIff(cfg, revoked, id, now);
    assert InFlight(Run(cfg, revoked), id) <==> InFlight(Run(cfg, es), id);
  }

  /** Once a key was reactivated and its cache entry deleted it is accepted again, a rotated
      one until its rotation time. */
  lemma ReactivatedIff(cfg: Config, es: seq<Event>, id: nat, t1: int, t2: int, now: int)
    requires id < |Run(cfg, es).table|
    ensures var key := Run(cfg, es).table[id];
            Accepts(cfg, Run(cfg, es + [Event(SetStatus(id, Active), t1)] + [Event(Drop(id), t2)]), id, now)
            <==> key.rotateAt == None || now <= key.rotateAt.value
  {
    StatusDropped(cfg, es, id, Active, t1, t2);
  }

  /** A cache entry decides exactly while it decodes and its TTL has not ended. */
  lemma EntryDecidesIff(cfg: Config, s: State, id: nat, now: int)
    ensures CacheVerdict(cfg, s, id, now).Some?
       <==> && id in s.cache && s.cache[id].text.Value?
            && (cfg.cacheTtl == 0 || now < s.cache[id].at + cfg.cacheTtl
                || (cfg.lastInstant && now == s.cache[id].at + cfg.cacheTtl))
    ensures CacheVerdict(cfg, s, id, now).Some? ==>
              CacheVerdict(cfg, s, id, now).value == (s.cache[id].text.value.status == Active)
  {}

  lemma StoredAccepted(cfg: Config, es: seq<Event>, id: nat, i: nat, now: int)
    requires Ordered(es, now) && CacheInv(cfg, Run(cfg, es), now) && cfg.codec == Intended
    requires i < |Run(cfg, es).pending| && Run(cfg, es).pending[i].key.id == id
    ensures AcceptedLater(cfg, es, id)
  {
    var s, more := Run(cfg, es), [Event(Store(i), now)];
    assert GoodPending(s, s.pending[i], now);
    RunNext(cfg, es, more[0]);
    assert Accepts(cfg, Run(cfg, es + more), id, now) by {
      assert Run(cfg, es + more).cache[id] == Entry(Value(s.pending[i].key), now, s.pending[i].readAt);
    }
    assert Ordered(es + more, now) && !Reactivates(more[0], id);
  }

  lemma InactiveStep(cfg: Config, s: State, e: Event, id: nat)
    requires Inactive(s, id) && !Reactivates(e, id)
    ensures Inactive(Next(cfg, s, e), id)
  {}

  lemma {:induction false} InactiveRun(cfg: Config, es: seq<Event>, more: seq<Event>, id: nat)
    requires Inactive(Run(cfg, es), id) && forall i :: 0 <= i < |more| ==> !Reactivates(more[i], id)
    ensures Inactive(Run(cfg, es + more), id)
  {
    if more == [] {
      assert es + more == es;
    } else {
      var n := |more| - 1;
      InactiveRun(cfg, es, more[..n], id);
      assert es + more == (es + more[..n]) + [more[n]];
      RunNext(cfg, es + more[..n], more[n]);
      InactiveStep(cfg, Run(cfg, es + more[..n]), more[n], id);
    }
  }

  // ---- The service ----

  class Service {
    const cfg: Config
    var table: Table
    var cache: map<nat, Entry>

    constructor (cfg: Config)
      ensures this.cfg == cfg && Now([]) == INIT
    {
      this.cfg, table, cache := cfg, [], map[];
    }

    /** The state with `pending` validations elsewhere. */
    ghost function Now(pending: seq<Pending>): State
      reads this
    {
      State(table, cache, pending, [])
    }

    method CreateAPIKey(ghost pending: seq<Pending>, ghost now: int) returns (id: nat)
      modifies this`table
      ensures id == |old(table)| && table == old(table) + [Key(Active, None, None)] && cache == old(cache)
      ensures Now(pending) == Apply(cfg, old(Now(pending)), Event(Create, now))
    {
      id := |table|;
      table := table + [NewKey()];
    }

    /** Insert the successor, then link the old key to it, in one transaction. */
    method RotateAPIKey(oldId: nat, rotateAt: int, ghost pending: seq<Pending>, ghost now: int) returns (newId: nat)
      requires oldId < |table|
      modifies this`table
      ensures newId == |old(table)| < |table| && table[oldId].successor == Some(newId)
      ensures table == old(table)[oldId := Key(old(table)[oldId].status, Some(newId), Some(rotateAt))]
                       + [Key(Active, None, None)]
      ensures Now(pending) == Apply(cfg, old(Now(pending)), Event(Rotate(oldId, rotateAt), now))
    {
      newId := |table|;
      table := table + [NewKey()];
      table := table[oldId := table[oldId].(successor := Some(newId), rotateAt := Some(rotateAt))];
    }

    /** UPDATE, then DEL. */
    method SetKeyStatus(id: nat, status: Status, ghost pending: seq<Pending>, ghost now: int) returns (found: bool)
      modifies this
      ensures found <==> id < |old(table)|
      ensures !found ==> table == old(table) && cache == old(cache)
      ensures found ==> table == old(table)[id := old(table)[id].(status := status)] && cache == old(cache) - {id}
      ensures Now(pending)
           == if !found then old(Now(pending))
              else Apply(cfg, Apply(cfg, old(Now(pending)), Event(SetStatus(id, status), now)), Event(Drop(id), now))
    {
      if id >= |table| { return false; }
      table := table[id := table[id].(status := status)];
      cache := cache - {id};
      return true;
    }

    /** GET, SELECT and SET of one undisturbed validation; `later` is the time of the SET. */
    method ValidateKey(id: nat, now: int, later: int, ghost pending: seq<Pending>) returns (ok: bool)
      modifies this`cache
      ensures ok <==> Accepts(cfg, old(Now(pending)), id, now)
      ensures table == old(table)
      ensures CacheVerdict(cfg, old(Now(pending)), id, now) == None ==>
                && (ok <==> id < |table| && table[id].status == Active
                            && (table[id].rotateAt == None || now <= table[id].rotateAt.value))
                && cache == if ok then old(cache)[id := Entry(Encode(cfg.codec, CachedKey(id, Active)), later, now)]
                            else old(cache)
      ensures Now(pending)
           == if CacheVerdict(cfg, old(Now(pending)), id, now).Some? || !ok then old(Now(pending))
              else Apply(cfg, Apply(cfg, old(Now(pending)), Event(Read(id), now)), Event(Store(|pending|), later))
    {
      if id in cache && Lives(cfg, cache[id].at, now) {
        var key := Decode(cache[id].text);
        if key.Some? { return key.value.status == Active; }
      }
      if id >= |table| || table[id].status != Active { return false; }
      if table[id].rotateAt.Some? && now > table[id].rotateAt.value { return false; }
      ghost var read := Apply(cfg, Now(pending), Event(Read(id), now));
      assert read.pending[..|pending|] == pending && read.pending[|pending| + 1..] == [];
      cache := cache[id := Entry(Encode(cfg.codec, CachedKey(id, table[id].status)), later, now)];
      return true;
    }
  }
}
