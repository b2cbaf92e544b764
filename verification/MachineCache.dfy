/** CheckMachineBinding: the registration table of one key with the five-minute cache in
    front of it.  Each check is one atomic step; there are no database errors. */
module MachineCache {
  import opened Wrappers

  const MACHINE_CACHE_TTL := 300000

  /** A cached verdict and the time it was stored. */
  datatype Entry = Entry(allowed: bool, at: int)

  /** The table as it stood after one step. */
  datatype Snapshot = Snapshot(time: int, registered: set<string>, limit: Option<int>)

  datatype Binding = Binding(
    registered: set<string>,
    limit: Option<int>,
    cache: map<string, Entry>,
    history: seq<Snapshot>)

  function Init(limit: Option<int>): Binding { Binding({}, limit, map[], []) }

  /** Is a cached verdict still there? */
  predicate Live(e: Entry, now: int, lastInstant: bool) {
    Alive(e.at + MACHINE_CACHE_TTL, now, lastInstant)
  }

  predicate Full(registered: set<string>, limit: Option<int>) { limit.Some? && |registered| >= limit.value }

  datatype Operation = Check(account: string) | Remove(account: string) | SetLimit(limit: Option<int>) | Flush

  datatype Event = Event(op: Operation, now: int)

  predicate Hit(s: Binding, account: string, now: int, lastInstant: bool) {
    account in s.cache && Live(s.cache[account], now, lastInstant)
  }

  /** Is a check with this account let through? */
  predicate Allowed(s: Binding, account: string, now: int, lastInstant: bool) {
    if account == "" then s.registered == {}
    else if Hit(s, account, now, lastInstant) then s.cache[account].allowed
    else account in s.registered || !Full(s.registered, s.limit)
  }

  /** What a check does to table and cache. */
  function Checked(s: Binding, account: string, now: int, lastInstant: bool): Binding {
    if account == "" || Hit(s, account, now, lastInstant) then s
    else if account in s.registered then s.(cache := s.cache[account := Entry(true, now)])
    else if Full(s.registered, s.limit) then s.(cache := s.cache[account := Entry(false, now)])
    else s.(registered := s.registered + {account}, cache := s.cache[account := Entry(true, now)])
  }

  function Apply(s: Binding, e: Event, lastInstant: bool): Binding {
    match e.op
    case Check(account) => Checked(s, account, e.now, lastInstant)
    case Remove(account) => s.(registered := s.registered - {account})
    case SetLimit(limit) => s.(limit := limit)
    case Flush => s.(cache := map[])
  }

  function Next(s: Binding, e: Event, lastInstant: bool): Binding {
    var t := Apply(s, e, lastInstant);
    t.(history := s.history + [Snapshot(e.now, t.registered, t.limit)])
  }

  /** The clock never runs backwards. */
  predicate Ordered(es: seq<Event>) { forall i, j :: 0 <= i < j < |es| ==> es[i].now <= es[j].now }

  function Run(s: Binding, es: seq<Event>, lastInstant: bool): Binding {
    if es == [] then s else Next(Run(s, es[..|es| - 1], lastInstant), es[|es| - 1], lastInstant)
  }

  /** What the verdict for an account says about the table. */
  predicate Supports(snap: Snapshot, account: string, allowed: bool) {
    if allowed then account in snap.registered
    else account !in snap.registered && Full(snap.registered, snap.limit)
  }

  /** At some moment in [from, to] the table supported the verdict. */
  predicate SupportedWithin(s: Binding, account: string, allowed: bool, from: int, to: int) {
    exists i :: 0 <= i < |s.history| && from <= s.history[i].time <= to && Supports(s.history[i], account, allowed)
  }

  ghost predicate CacheInv(s: Binding, now: int) {
    forall a :: a in s.cache ==>
      a != "" && s.cache[a].at <= now && SupportedWithin(s, a, s.cache[a].allowed, s.cache[a].at, s.cache[a].at)
  }

  lemma SupportGrows(s: Binding, t: Binding, account: string, allowed: bool, from: int, to: int)
    requires SupportedWithin(s, account, allowed, from, to) && s.history <= t.history
    ensures SupportedWithin(t, account, allowed, from, to)
  {
    var i :| 0 <= i < |s.history| && from <= s.history[i].time <= to && Supports(s.history[i], account, allowed);
    assert t.history[i] == s.history[i];
  }

  lemma CacheStep(s: Binding, e: Event, before: int, lastInstant: bool)
    requires CacheInv(s, before) && before <= e.now
    ensures CacheInv(Next(s, e, lastInstant), e.now)
  {
    var t := Next(s, e, lastInstant);
    forall a | a in t.cache
      ensures a != "" && t.cache[a].at <= e.now
      ensures SupportedWithin(t, a, t.cache[a].allowed, t.cache[a].at, t.cache[a].at)
    {
      if a in s.cache && t.cache[a] == s.cache[a] {
        SupportGrows(s, t, a, t.cache[a].allowed, t.cache[a].at, t.cache[a].at);
      } else {
        var n := |s.history|;
        assert t.history[n].time == t.cache[a].at && Supports(t.history[n], a, t.cache[a].allowed);
      }
    }
  }

  lemma {:induction false} CacheRun(limit: Option<int>, es: seq<Event>, now: int, lastInstant: bool)
    requires Ordered(es) && (es != [] ==> es[|es| - 1].now <= now)
    ensures CacheInv(Run(Init(limit), es, lastInstant), now)
  {
    if es != [] {
      var n := |es| - 1;
      CacheRun(limit, es[..n], es[n].now, lastInstant);
      CacheStep(Run(Init(limit), es[..n], lastInstant), es[n], es[n].now, lastInstant);
    }
  }

  /** Bounded staleness: after any run of checks, removals, limit changes and flushes, a
      check of a non-empty account at time `now` is allowed only if the account was
      registered, and denied only if the limit was full without it, at some moment of
      the last five minutes. */
  lemma VerdictAtMostFiveMinutesOld(limit: Option<int>, es: seq<Event>, account: string,
                                    now: int, lastInstant: bool)
    requires Ordered(es) && (es != [] ==> es[|es| - 1].now <= now) && account != ""
    ensures var s := Run(Init(limit), es, lastInstant);
            SupportedWithin(Next(s, Event(Check(account), now), lastInstant), account,
                            Allowed(s, account, now, lastInstant), now - MACHINE_CACHE_TTL, now)
  {
    CacheRun(limit, es, now, lastInstant);
    var s := Run(Init(limit), es, lastInstant);
    var t := Next(s, Event(Check(account), now), lastInstant);
    var allowed := Allowed(s, account, now, lastInstant);
    if Hit(s, account, now, lastInstant) {
      SupportGrows(s, t, account, allowed, s.cache[account].at, s.cache[account].at);
      var i :| 0 <= i < |t.history| && t.history[i].time == s.cache[account].at
               && Supports(t.history[i], account, allowed);
      assert now - MACHINE_CACHE_TTL <= t.history[i].time <= now;
    } else {
      assert Supports(t.history[|s.history|], account, allowed) && t.history[|s.history|].time == now;
    }
  }

  // ---- When a removal or a new limit takes effect ----

  /** The verdict of the table, without the cache. */
  predicate TableAllows(s: Binding, account: string) {
    account in s.registered || !Full(s.registered, s.limit)
  }

  /** The position of the latest check of the account that asked the table, since the
      last flush; -1 if there is none.  A check asks the table unless an earlier one that
      did is still within the TTL. */
  function LatestAsked(es: seq<Event>, account: string, lastInstant: bool): int
    ensures -1 <= LatestAsked(es, account, lastInstant) < |es|
  {
    if es == [] then -1
    else
      var n := |es| - 1;
      var before := LatestAsked(es[..n], account, lastInstant);
      match es[n].op
      case Flush => -1
      case Check(a) =>
        if a == account && !(before >= 0 && StillCached(es[before].now, es[n].now, lastInstant)) then n else before
      case _ => before
  }

  /** Is a verdict cached at `at` still there at `now`? */
  predicate StillCached(at: int, now: int, lastInstant: bool) { Alive(at + MACHINE_CACHE_TTL, now, lastInstant) }

  /** The cache entry of an account is exactly the table's verdict at its latest asked check. */
  predicate EntryIsLatest(limit: Option<int>, es: seq<Event>, account: string, lastInstant: bool) {
    var s := Run(Init(limit), es, lastInstant);
    var i := LatestAsked(es, account, lastInstant);
    CachedFor(s, account) == if i < 0 then None
                             else Some(Entry(TableAllows(Run(Init(limit), es[..i], lastInstant), account), es[i].now))
  }

  /** What a cache says about an account. */
  function CachedFor(s: Binding, account: string): Option<Entry> {
    if account in s.cache then Some(s.cache[account]) else None
  }

  lemma EntryStep(s: Binding, e: Event, account: string, lastInstant: bool)
    requires account != ""
    ensures CachedFor(Next(s, e, lastInstant), account)
         == if e.op.Flush? then None
            else if e.op == Check(account) && !Hit(s, account, e.now, lastInstant)
              then Some(Entry(TableAllows(s, account), e.now))
            else CachedFor(s, account)
  {}

  lemma {:induction false} LatestRun(limit: Option<int>, es: seq<Event>, account: string, lastInstant: bool)
    requires account != ""
    ensures EntryIsLatest(limit, es, account, lastInstant)
  {
    if es != [] {
      var n := |es| - 1;
      var i := LatestAsked(es[..n], account, lastInstant);
      LatestRun(limit, es[..n], account, lastInstant);
      EntryStep(Run(Init(limit), es[..n], lastInstant), es[n], account, lastInstant);
      if i >= 0 { assert es[..n][..i] == es[..i]; }
    }
  }

  /** Over every run of checks, removals, limit changes and flushes, a check agrees with
      the table exactly if the latest check that asked the table since the last flush has
      expired or already gave the verdict that the table gives now. */
  lemma VerdictIsTablesIff(limit: Option<int>, es: seq<Event>, account: string,
                           now: int, lastInstant: bool)
    requires account != ""
    ensures
      var s := Run(Init(limit), es, lastInstant);
      var i := LatestAsked(es, account, lastInstant);
      (Allowed(s, account, now, lastInstant) <==> TableAllows(s, account))
      <==>
      (i < 0 || !StillCached(es[i].now, now, lastInstant)
       || (TableAllows(Run(Init(limit), es[..i], lastInstant), account) <==> TableAllows(s, account)))
  {
    LatestRun(limit, es, account, lastInstant);
  }

  /** A removal or a new limit takes effect at the next check of an account exactly if
      the latest check that asked the table before it has expired or gave the verdict
      that the changed table gives. */
  lemma ChangeInEffectIff(limit: Option<int>, es: seq<Event>, change: Event, account: string,
                          now: int, lastInstant: bool)
    requires account != "" && (change.op == Remove(account) || change.op.SetLimit?)
    ensures
      var before := Run(Init(limit), es, lastInstant);
      var after := Run(Init(limit), es + [change], lastInstant);
      var i := LatestAsked(es, account, lastInstant);
      && (TableAllows(after, account) <==>
            if change.op.Remove? then !Full(before.registered - {account}, before.limit)
            else account in before.registered || !Full(before.registered, change.op.limit))
      && ((Allowed(after, account, now, lastInstant) <==> TableAllows(after, account)) <==>
            (i < 0 || !StillCached(es[i].now, now, lastInstant)
             || (TableAllows(Run(Init(limit), es[..i], lastInstant), account) <==> TableAllows(after, account))))
  {
    var all := es + [change];
    assert all[..|es|] == es;
    VerdictIsTablesIff(limit, all, account, now, lastInstant);
    var i := LatestAsked(es, account, lastInstant);
    assert LatestAsked(all, account, lastInstant) == i;
    if i >= 0 { assert all[..i] == es[..i] && all[i] == es[i]; }
  }

  /** A removed account registers itself again at its next check exactly if that check asks
      the table and a slot is free. */
  lemma RemovedComesBackIff(limit: Option<int>, es: seq<Event>, removal: Event, account: string,
                            now: int, lastInstant: bool)
    requires account != "" && removal.op == Remove(account)
    ensures
      var before := Run(Init(limit), es, lastInstant);
      var after := Run(Init(limit), es + [removal], lastInstant);
      var i := LatestAsked(es, account, lastInstant);
      account in Checked(after, account, now, lastInstant).registered
      <==>
      (i < 0 || !StillCached(es[i].now, now, lastInstant)) && !Full(before.registered - {account}, before.limit)
  {
    RunNext(limit, es, removal, lastInstant);
    LatestRun(limit, es, account, lastInstant);
  }

  lemma RunNext(limit: Option<int>, es: seq<Event>, e: Event, lastInstant: bool)
    ensures Run(Init(limit), es + [e], lastInstant) == Next(Run(Init(limit), es, lastInstant), e, lastInstant)
  {
    assert (es + [e])[..|es|] == es;
  }

  /** An account that was removed, and whose slot another account has taken, is still
      allowed for exactly the rest of its five minutes. */
  lemma RemovedStillAllowed(a: string, b: string, at: int, change: int, now: int, lastInstant: bool)
    requires a != "" && b != "" && a != b
    ensures
      var es := [] + [Event(Check(a), at)] + [Event(Remove(a), change)] + [Event(Check(b), change)];
      var s := Run(Init(Some(1)), es, lastInstant);
      && s.registered == {b} && !TableAllows(s, a)
      && (Allowed(s, a, now, lastInstant) <==> now - at < 300000 || (lastInstant && now - at == 300000))
  {
    RunNext(Some(1), [], Event(Check(a), at), lastInstant);
    RunNext(Some(1), [] + [Event(Check(a), at)], Event(Remove(a), change), lastInstant);
    RunNext(Some(1), [] + [Event(Check(a), at)] + [Event(Remove(a), change)], Event(Check(b), change), lastInstant);
    assert {a} - {a} == {} && {} + {b} == {b};
  }

  /** An account refused for want of a slot stays refused for exactly the rest of its
      five minutes after the limit was raised. */
  lemma RaisedStillDenied(a: string, b: string, at: int, change: int, now: int, lastInstant: bool)
    requires a != "" && b != "" && a != b
    ensures
      var es := [] + [Event(Check(b), at)] + [Event(Check(a), at)] + [Event(SetLimit(Some(2)), change)];
      var s := Run(Init(Some(1)), es, lastInstant);
      && s.registered == {b} && TableAllows(s, a)
      && (!Allowed(s, a, now, lastInstant) <==> now - at < 300000 || (lastInstant && now - at == 300000))
  {
    RunNext(Some(1), [], Event(Check(b), at), lastInstant);
    RunNext(Some(1), [] + [Event(Check(b), at)], Event(Check(a), at), lastInstant);
    RunNext(Some(1), [] + [Event(Check(b), at)] + [Event(Check(a), at)], Event(SetLimit(Some(2)), change), lastInstant);
    assert {} + {b} == {b};
  }

  // ---- The service ----

  datatype Registration = Registered | AlreadyThere | LimitReached

  class Service {
    const lastInstant: bool
    var registered: set<string>
    var limit: Option<int>
    var cache: map<string, Entry>

    constructor (limit: Option<int>, lastInstant: bool)
      ensures State([]) == Init(limit) && this.lastInstant == lastInstant
    {
      this.lastInstant := lastInstant;
      this.registered, this.limit, this.cache := {}, limit, map[];
    }

    ghost function State(history: seq<Snapshot>): Binding
      reads this
    {
      Binding(registered, limit, cache, history)
    }

    /** Less than five minutes ago the account's verdict was cached. */
    predicate Cached(cache: map<string, Entry>, account: string, now: int) {
      account in cache && (now - cache[account].at < 300000 || (lastInstant && now - cache[account].at == 300000))
    }

    method RegisterMachine(account: string) returns (r: Registration)
      modifies this`registered
      ensures r == AlreadyThere <==> account in old(registered)
      ensures r == LimitReached
         <==> account !in old(registered) && limit.Some? && |old(registered)| >= limit.value
      ensures registered == if r == Registered then old(registered) + {account} else old(registered)
    {
      if account in registered { return AlreadyThere; }
      if limit.Some? {
        if |registered| >= limit.value { return LimitReached; }
      }
      registered := registered + {account};
      return Registered;
    }

    /** Without an account number: allowed while no account is registered.  With one: a
        cached verdict, or else the table's, which takes a free slot and is cached. */
    method CheckMachineBinding(account: string, now: int, ghost history: seq<Snapshot>) returns (allowed: bool)
      modifies this
      ensures limit == old(limit)
      ensures account == "" ==> (allowed <==> old(registered) == {})
      ensures account == "" || Cached(old(cache), account, now) ==> registered == old(registered) && cache == old(cache)
      ensures account != "" && Cached(old(cache), account, now) ==> (allowed <==> old(cache)[account].allowed)
      ensures account != "" && !Cached(old(cache), account, now) ==>
                && (allowed <==> account in old(registered) || limit == None || |old(registered)| < limit.value)
                && registered == (if allowed then old(registered) + {account} else old(registered))
                && cache == old(cache)[account := Entry(allowed, now)]
      ensures allowed <==> Allowed(old(State(history)), account, now, lastInstant)
      ensures State(history) == Checked(old(State(history)), account, now, lastInstant)
    {
      if account == "" {
        return |registered| == 0;
      }
      if account in cache && Live(cache[account], now, lastInstant) {
        return cache[account].allowed;
      }
      if account in registered {
        cache := cache[account := Entry(true, now)];
        return true;
      }
      var r := RegisterMachine(account);
      if r == LimitReached {
        cache := cache[account := Entry(false, now)];
        return false;
      }
      cache := cache[account := Entry(true, now)];
      return true;
    }
  }
}
