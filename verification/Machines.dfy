/** Machine binding: the check-then-insert limit of one API key under concurrency. */
module Machines {
  /** `pending` holds the accounts of registrations that have passed the limit check and
      have not inserted yet. */
  datatype Table = Table(registered: set<nat>, pending: seq<nat>)

  datatype Step =
    | Count(account: nat)   // SELECT COUNT(*) below the limit
    | Insert(i: nat)        // INSERT; the unique constraint absorbs a duplicate
    | Abandon(i: nat)       // the request dies between check and insert
    | Remove(account: nat)

  function Without(xs: seq<nat>, i: nat): seq<nat>
    requires i < |xs|
  {
    xs[..i] + xs[i + 1..]
  }

  /** At most `width` registrations are ever between their check and their insert. */
  predicate Enabled(limit: int, width: nat, t: Table, e: Step) {
    match e
    case Count(_) => |t.registered| < limit && |t.pending| < width
    case Insert(i) => i < |t.pending|
    case Abandon(i) => i < |t.pending|
    case Remove(_) => true
  }

  function Next(limit: int, width: nat, t: Table, e: Step): Table
    requires Enabled(limit, width, t, e)
  {
    match e
    case Count(account) => t.(pending := t.pending + [account])
    case Insert(i) => Table(t.registered + {t.pending[i]}, Without(t.pending, i))
    case Abandon(i) => t.(pending := Without(t.pending, i))
    case Remove(account) => t.(registered := t.registered - {account})
  }

  predicate Valid(limit: int, width: nat, t: Table, es: seq<Step>)
    decreases |es|
  {
    es == [] || (Enabled(limit, width, t, es[0]) && Valid(limit, width, Next(limit, width, t, es[0]), es[1..]))
  }

  function Run(limit: int, width: nat, t: Table, es: seq<Step>): Table
    requires Valid(limit, width, t, es)
    decreases |es|
  {
    if es == [] then t else Run(limit, width, Next(limit, width, t, es[0]), es[1..])
  }

  /** Registered and about to be registered. */
  function Claimed(t: Table): nat { |t.registered| + |t.pending| }

  function Bound(limit: int, width: nat): int { if width == 0 then limit else limit - 1 + width }

  lemma ClaimedStep(limit: int, width: nat, t: Table, e: Step)
    requires Enabled(limit, width, t, e) && Claimed(t) <= Bound(limit, width)
    ensures Claimed(Next(limit, width, t, e)) <= Bound(limit, width)
  {
    match e
    case Count(_) =>
    case Abandon(_) =>
    case Insert(i) => assert t.registered + {t.pending[i]} == t.registered + ({t.pending[i]} - t.registered);
    case Remove(account) =>
      var rest := t.registered - {account};
      assert t.registered == rest + (t.registered * {account});
  }

  /** In every interleaving, registrations plus pending inserts stay within
      limit - 1 + width. */
  lemma {:induction false} LimitUnderConcurrency(limit: int, width: nat, t: Table, es: seq<Step>)
    requires Valid(limit, width, t, es) && t.pending == [] && |t.registered| <= limit
    ensures Claimed(Run(limit, width, t, es)) <= Bound(limit, width)
  {
    ClaimedRun(limit, width, t, es);
  }

  lemma {:induction false} ClaimedRun(limit: int, width: nat, t: Table, es: seq<Step>)
    requires Valid(limit, width, t, es) && Claimed(t) <= Bound(limit, width)
    ensures Claimed(Run(limit, width, t, es)) <= Bound(limit, width)
    decreases |es|
  {
    if es != [] {
      ClaimedStep(limit, width, t, es[0]);
      ClaimedRun(limit, width, Next(limit, width, t, es[0]), es[1..]);
    }
  }

  /** At the limit no registration passes its check until a registered account is removed;
      removing frees that one slot and leaves every other account. */
  lemma RemovalFreesSlot(limit: int, width: nat, t: Table, account: nat, other: nat)
    requires account in t.registered && |t.registered| == limit
    ensures !Enabled(limit, width, t, Count(other))
    ensures var after := Next(limit, width, t, Remove(account));
            && account !in after.registered && after.registered + {account} == t.registered
            && after.pending == t.pending
            && (Enabled(limit, width, after, Count(other)) <==> |t.pending| < width)
  {}

  /** A registration that dies after its check gives up its claim, one that inserts turns it
      into a registered account. */
  lemma ClaimIsUsedOnce(limit: int, width: nat, t: Table, i: nat)
    requires i < |t.pending|
    ensures var dead, done := Next(limit, width, t, Abandon(i)), Next(limit, width, t, Insert(i));
            && multiset(dead.pending) == multiset(done.pending) == multiset(t.pending) - multiset{t.pending[i]}
            && dead.registered == t.registered
            && forall a :: a in done.registered <==> a in t.registered || a == t.pending[i]
  {
    WithoutOne(t.pending, i);
  }

  lemma WithoutOne(xs: seq<nat>, i: nat)
    requires i < |xs|
    ensures multiset(Without(xs, i)) == multiset(xs) - multiset{xs[i]}
  {
    assert xs == xs[..i] + ([xs[i]] + xs[i + 1..]);
    assert multiset(xs) == multiset(xs[..i]) + multiset{xs[i]} + multiset(xs[i + 1..]);
  }

  // ---- The bound is reached ----

  /** The accounts 0, ..., n - 1. */
  function Below(n: nat): (accounts: set<nat>)
    ensures |accounts| == n && forall i :: i in accounts ==> i < n
  {
    if n == 0 then {} else Below(n - 1) + {n - 1}
  }

  /** n registrations of the accounts from `first` on check the limit one after another. */
  function Counts(first: nat, n: nat): seq<Step>
    decreases n
  {
    if n == 0 then [] else [Count(first)] + Counts(first + 1, n - 1)
  }

  function Inserts(n: nat): seq<Step> { if n == 0 then [] else [Insert(0)] + Inserts(n - 1) }

  function From(first: nat, n: nat): seq<nat>
    decreases n
  {
    if n == 0 then [] else [first] + From(first + 1, n - 1)
  }

  lemma {:induction false} CountsRun(limit: int, width: nat, t: Table, first: nat, n: nat)
    requires |t.registered| < limit && |t.pending| + n <= width
    ensures Valid(limit, width, t, Counts(first, n))
    ensures Run(limit, width, t, Counts(first, n)) == t.(pending := t.pending + From(first, n))
    decreases n
  {
    if n > 0 {
      var t1, es := Next(limit, width, t, Count(first)), Counts(first, n);
      CountsRun(limit, width, t1, first + 1, n - 1);
      assert es[0] == Count(first) && es[1..] == Counts(first + 1, n - 1);
      assert Run(limit, width, t, es) == Run(limit, width, t1, es[1..]);
      assert t1.pending + From(first + 1, n - 1) == t.pending + ([first] + From(first + 1, n - 1));
    } else {
      assert t.pending + [] == t.pending;
    }
  }

  /** The pending accounts are new and pairwise different. */
  predicate NewAccounts(t: Table) {
    && (forall i :: 0 <= i < |t.pending| ==> t.pending[i] !in t.registered)
    && (forall i, j :: 0 <= i < j < |t.pending| ==> t.pending[i] != t.pending[j])
  }

  lemma InsertFirst(limit: int, width: nat, t: Table)
    requires NewAccounts(t) && t.pending != []
    ensures var t1 := Next(limit, width, t, Insert(0));
            && NewAccounts(t1) && |t1.pending| == |t.pending| - 1 && |t1.registered| == |t.registered| + 1
  {
    assert Without(t.pending, 0) == t.pending[1..];
  }

  lemma {:induction false} InsertsRun(limit: int, width: nat, t: Table)
    requires NewAccounts(t)
    ensures Valid(limit, width, t, Inserts(|t.pending|))
    ensures |Run(limit, width, t, Inserts(|t.pending|)).registered| == Claimed(t)
    decreases |t.pending|
  {
    if t.pending != [] {
      var t1, es := Next(limit, width, t, Insert(0)), Inserts(|t.pending|);
      InsertFirst(limit, width, t);
      InsertsRun(limit, width, t1);
      assert es[0] == Insert(0) && es[1..] == Inserts(|t1.pending|);
    }
  }

  lemma {:induction false} FromShape(first: nat, n: nat)
    ensures |From(first, n)| == n && forall i :: 0 <= i < n ==> From(first, n)[i] == first + i
    decreases n
  {
    if n > 0 { FromShape(first + 1, n - 1); }
  }

  lemma {:induction false} RunAppend(limit: int, width: nat, t: Table, es: seq<Step>, fs: seq<Step>)
    requires Valid(limit, width, t, es) && Valid(limit, width, Run(limit, width, t, es), fs)
    ensures Valid(limit, width, t, es + fs)
    ensures Run(limit, width, t, es + fs) == Run(limit, width, Run(limit, width, t, es), fs)
    decreases |es|
  {
    if es == [] {
      assert es + fs == fs;
    } else {
      RunAppend(limit, width, Next(limit, width, t, es[0]), es[1..], fs);
      assert (es + fs)[1..] == es[1..] + fs;
    }
  }

  /** One slot below the limit, `width` new accounts that check together all get in. */
  lemma BoundReached(limit: int, width: nat, registered: set<nat>, first: nat)
    requires |registered| == limit - 1 && forall a :: a in registered ==> a < first
    ensures var t := Table(registered, []);
            var es := Counts(first, width) + Inserts(width);
            && Valid(limit, width, t, es)
            && |Run(limit, width, t, es).registered| == limit - 1 + width
  {
    var t, t1 := Table(registered, []), Table(registered, From(first, width));
    CountsRun(limit, width, t, first, width);
    FromShape(first, width);
    assert [] + From(first, width) == From(first, width);
    assert Run(limit, width, t, Counts(first, width)) == t1;
    InsertsRun(limit, width, t1);
    RunAppend(limit, width, t, Counts(first, width), Inserts(width));
  }

  ghost predicate NeverExceeded(limit: int, width: nat) {
    forall t: Table, es: seq<Step> ::
      Valid(limit, width, t, es) && t.pending == [] && |t.registered| <= limit ==>
        |Run(limit, width, t, es).registered| <= limit
  }

  /** A positive machine limit holds in every interleaving exactly when no two
      registrations may overlap between check and insert. */
  lemma LimitHoldsIffSerial(limit: nat, width: nat)
    requires limit >= 1
    ensures NeverExceeded(limit, width) <==> width <= 1
  {
    if width <= 1 {
      forall t: Table, es: seq<Step> | Valid(limit, width, t, es) && t.pending == [] && |t.registered| <= limit
        ensures |Run(limit, width, t, es).registered| <= limit
      {
        LimitUnderConcurrency(limit, width, t, es);
      }
    } else {
      BoundReached(limit, width, Below(limit - 1), limit - 1);
    }
  }
}
