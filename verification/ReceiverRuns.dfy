/** Every run of publishes, polls and restarts of one receiver. */
module ReceiverRuns {
  import opened Wrappers
  import opened Receiver

  /** `acted[k]` is the publication number of the k-th signal acted on, at `actedAt[k]`;
      `cut[k]` if the terminal died before it was logged. */
  datatype World = World(
    published: seq<Signal>,
    log: seq<Entry>,
    file: seq<Entry>,
    acted: seq<nat>,
    actedAt: seq<int>,
    cut: seq<bool>,
    clock: int)

  function Init(clock: int): World { World([], [], [], [], [], [], clock) }

  datatype Event =
    | Publish(sig: Signal)
    | Poll(now: int, later: int)  // clock readings of the mark and of its cleanup
    | Cut(now: int)               // a poll that dies behind the order, and a restart
    | Restart

  /** The slot holds the last published signal for ever. */
  function Slot(w: World): Option<Signal> {
    if w.published == [] then None else Some(w.published[|w.published| - 1])
  }

  /** The clock never runs backwards, and one poll takes less than a day. */
  predicate Enabled(w: World, e: Event) {
    && (e.Poll? ==> w.clock <= e.now <= e.later < e.now + DAY)
    && (e.Cut? ==> w.clock <= e.now && Unlogged(w))
  }

  /** A poll finds something to act on. */
  predicate Unlogged(w: World) { Slot(w).Some? && !InLog(w.log, Slot(w).value) }

  /** The signal in the slot is acted on. */
  function Act(w: World, now: int, died: bool): World {
    w.(acted := w.acted + [if w.published == [] then 0 else |w.published| - 1],
       actedAt := w.actedAt + [now],
       cut := w.cut + [died])
  }

  /** PollAndAct, SetLatestSignal and LoadProcessedSignals on values. */
  function Next(w: World, e: Event): World {
    match e
    case Publish(sig) => w.(published := w.published + [sig])
    case Restart => w.(log := w.file)
    case Cut(now) => Act(w, now, true).(log := w.file, clock := now)
    case Poll(now, later) =>
      if !Unlogged(w) then w.(clock := later)
      else
        var log := Marked(w.log, Slot(w).value, now, later);
        Act(w, now, false).(log := log, file := log, clock := later)
  }

  predicate Valid(w: World, es: seq<Event>)
    decreases |es|
  {
    es == [] || (Enabled(w, es[0]) && Valid(Next(w, es[0]), es[1..]))
  }

  function Run(w: World, es: seq<Event>): World
    decreases |es|
  {
    if es == [] then w else Run(Next(w, es[0]), es[1..])
  }

  /** The log entry that acting on the k-th signal wrote. */
  ghost function EntryOf(w: World, k: nat): Entry
    requires k < |w.acted| == |w.actedAt| && w.acted[k] < |w.published|
  {
    var sig := w.published[w.acted[k]];
    Entry(sig.ticket, sig.kind, w.actedAt[k])
  }

  ghost predicate WellFormed(w: World) {
    && w.file == w.log
    && |w.acted| == |w.actedAt| == |w.cut|
    && (forall k :: 0 <= k < |w.acted| ==> w.acted[k] < |w.published| && w.actedAt[k] <= w.clock)
  }

  /** A signal acted on and logged is remembered for a day. */
  ghost predicate Remembered(w: World)
    requires WellFormed(w)
  {
    forall k :: 0 <= k < |w.acted| && !w.cut[k] ==> EntryOf(w, k) in w.log || w.actedAt[k] <= w.clock - DAY
  }

  /** The latest signal acted on and logged is remembered for ever. */
  ghost predicate LastRemembered(w: World)
    requires WellFormed(w)
  {
    forall k :: 0 <= k < |w.acted| && !w.cut[k] && (forall j :: k < j < |w.acted| ==> w.cut[j]) ==>
      EntryOf(w, k) in w.log
  }

  /** Signals are acted on in the order of their publication, and one that was logged is
      never acted on again. */
  ghost predicate InOrder(w: World)
    requires WellFormed(w)
  {
    forall i, j :: 0 <= i < j < |w.acted| ==> w.acted[i] <= w.acted[j] && (w.acted[i] == w.acted[j] ==> w.cut[i])
  }

  /** Behind a logged act, the next act on the same (ticket, type) is at least a day later. */
  ghost predicate Spaced(w: World)
    requires WellFormed(w)
  {
    forall i, j :: 0 <= i < j < |w.acted| && !w.cut[i] && w.published[w.acted[i]] == w.published[w.acted[j]] ==>
      w.actedAt[j] - w.actedAt[i] >= DAY
  }

  ghost predicate Inv(w: World) {
    WellFormed(w) && Remembered(w) && LastRemembered(w) && InOrder(w) && Spaced(w)
  }

  lemma EntryMatches(w: World, k: nat)
    requires WellFormed(w) && k < |w.acted| && EntryOf(w, k) in w.log
    ensures InLog(w.log, w.published[w.acted[k]])
  {
    InLogMember(w.log, w.published[w.acted[k]]);
    assert Matches(EntryOf(w, k), w.published[w.acted[k]]);
  }

  /** The last logged act before position n, if any. */
  function LastLogged(w: World, n: nat): (k: int)
    requires n <= |w.cut|
    ensures -1 <= k < n && (k >= 0 ==> !w.cut[k]) && forall j :: k < j < n ==> w.cut[j]
  {
    if n == 0 then -1 else if !w.cut[n - 1] then n - 1 else LastLogged(w, n - 1)
  }

  /** What the slot holds was not acted on and logged before. */
  lemma SlotIsFresh(w: World, k: nat)
    requires Inv(w) && Unlogged(w) && k < |w.acted|
    ensures w.acted[k] <= |w.published| - 1 && (w.acted[k] == |w.published| - 1 ==> w.cut[k])
    ensures w.published[w.acted[k]] == Slot(w).value && !w.cut[k] ==> w.actedAt[k] <= w.clock - DAY
  {
    if !w.cut[k] {
      var last := LastLogged(w, |w.acted|);
      EntryMatches(w, last);
      if EntryOf(w, k) in w.log { EntryMatches(w, k); }
    }
  }

  lemma ActedInOrder(w: World, now: int, died: bool)
    requires Inv(w) && Unlogged(w) && w.clock <= now
    ensures var t := Act(w, now, died).(clock := now);
            WellFormed(t) && InOrder(t) && Spaced(t)
  {
    var t := Act(w, now, died).(clock := now);
    forall k | 0 <= k < |w.acted|
      ensures w.acted[k] <= t.acted[|w.acted|] && (w.acted[k] == t.acted[|w.acted|] ==> w.cut[k])
      ensures w.published[w.acted[k]] == Slot(w).value && !w.cut[k] ==> now - w.actedAt[k] >= DAY
    {
      SlotIsFresh(w, k);
    }
  }

  lemma CutStep(w: World, now: int)
    requires Inv(w) && Enabled(w, Cut(now))
    ensures Inv(Next(w, Cut(now)))
  {
    var t := Next(w, Cut(now));
    assert t == Act(w, now, true).(clock := now);
    ActedInOrder(w, now, true);
    forall k | 0 <= k < |t.acted| && !t.cut[k]
      ensures EntryOf(t, k) in t.log || t.actedAt[k] <= t.clock - DAY
      ensures (forall j :: k < j < |t.acted| ==> t.cut[j]) ==> EntryOf(t, k) in t.log
    {
      assert EntryOf(t, k) == EntryOf(w, k) && !w.cut[k];
      if forall j :: k < j < |t.acted| ==> t.cut[j] {
        assert forall j :: k < j < |w.acted| ==> w.cut[j] == t.cut[j];
      }
    }
  }

  /** What compaction keeps of the acts. */
  lemma MarkedRemembers(w: World, now: int, later: int, k: nat)
    requires Inv(w) && Enabled(w, Poll(now, later)) && Unlogged(w)
    requires k <= |w.acted| && (k < |w.acted| ==> !w.cut[k])
    ensures var sig := Slot(w).value;
            var log := Marked(w.log, sig, now, later);
            if k < |w.acted| then EntryOf(w, k) in log || w.actedAt[k] <= later - DAY
            else Entry(sig.ticket, sig.kind, now) in log
  {
    var own := Entry(Slot(w).value.ticket, Slot(w).value.kind, now);
    var grown := w.log + [own];
    if k < |w.acted| {
      YoungerMember(grown, later - DAY, EntryOf(w, k));
    } else {
      YoungerMember(grown, later - DAY, own);
      assert grown[|w.log|] == own;
    }
  }

  lemma ActStep(w: World, now: int, later: int)
    requires Inv(w) && Enabled(w, Poll(now, later)) && Unlogged(w)
    ensures Inv(Next(w, Poll(now, later)))
  {
    var t := Next(w, Poll(now, later));
    var n := |w.acted|;
    ActedInOrder(w, now, false);
    forall k | 0 <= k < |t.acted| && !t.cut[k]
      ensures EntryOf(t, k) in t.log || t.actedAt[k] <= t.clock - DAY
      ensures (forall j :: k < j < |t.acted| ==> t.cut[j]) ==> EntryOf(t, k) in t.log
    {
      assert !t.cut[n];
      MarkedRemembers(w, now, later, k);
      if k < n { assert EntryOf(t, k) == EntryOf(w, k); }
    }
  }

  lemma Step(w: World, e: Event)
    requires Inv(w) && Enabled(w, e)
    ensures Inv(Next(w, e))
  {
    if e.Cut? {
      CutStep(w, e.now);
    } else if e.Poll? && Unlogged(w) {
      ActStep(w, e.now, e.later);
    } else {
      var t := Next(w, e);
      assert forall k :: 0 <= k < |w.acted| ==> t.published[t.acted[k]] == w.published[w.acted[k]];
      assert forall k :: 0 <= k < |w.acted| ==> EntryOf(t, k) == EntryOf(w, k);
    }
  }

  lemma {:induction false} RunInv(w: World, es: seq<Event>)
    requires Inv(w) && Valid(w, es)
    ensures Inv(Run(w, es))
    decreases |es|
  {
    if es != [] {
      Step(w, es[0]);
      RunInv(Next(w, es[0]), es[1..]);
    }
  }

  /** In every run signals are acted on in the order of their publication.  One that was
      logged is never acted on again, however long it stays in the slot and however often
      the EA restarts, and the next act on its (ticket, type) is at least 24 hours later;
      so without a death between order and log entry the acts are a strictly increasing
      subsequence of the publications. */
  lemma ActedAtMostOnce(clock: int, es: seq<Event>)
    requires Valid(Init(clock), es)
    ensures var w := Run(Init(clock), es);
            && WellFormed(w) && InOrder(w) && Spaced(w)
            && ((forall e :: e in es ==> !e.Cut?) ==> Increasing(w))
  {
    RunInv(Init(clock), es);
    if forall e :: e in es ==> !e.Cut? { NeverCut(Init(clock), es); }
  }

  ghost predicate Increasing(w: World) {
    forall i, j :: 0 <= i < j < |w.acted| ==> w.acted[i] < w.acted[j]
  }

  lemma {:induction false} NeverCut(w: World, es: seq<Event>)
    requires true !in w.cut && forall e :: e in es ==> !e.Cut?
    ensures true !in Run(w, es).cut
    decreases |es|
  {
    if es != [] { NeverCut(Next(w, es[0]), es[1..]); }
  }

  /** Event j is a poll, cut short or not, between the k-th publication and the next one,
      at a moment when the published (ticket, type) is not in the log. */
  predicate PollsUnlogged(clock: int, es: seq<Event>, j: nat, k: nat)
    requires j < |es|
  {
    var w := Run(Init(clock), es[..j]);
    (es[j].Poll? || es[j].Cut?) && |w.published| == k + 1 && !InLog(w.log, w.published[k])
  }

  lemma {:induction false} RunSnoc(w: World, es: seq<Event>, e: Event)
    ensures Run(w, es + [e]) == Next(Run(w, es), e)
    ensures Valid(w, es + [e]) <==> Valid(w, es) && Enabled(Run(w, es), e)
    decreases |es|
  {
    if es == [] {
      assert es + [e] == [e];
    } else {
      assert (es + [e])[1..] == es[1..] + [e];
      RunSnoc(Next(w, es[0]), es[1..], e);
    }
  }

  lemma ActedNext(w: World, e: Event, k: nat)
    requires Enabled(w, e)
    ensures k in Next(w, e).acted
       <==> k in w.acted || ((e.Poll? || e.Cut?) && |w.published| == k + 1 && !InLog(w.log, w.published[k]))
  {
    var t := Next(w, e);
    if t.acted != w.acted { assert t.acted[|w.acted|] == |w.published| - 1; }
  }

  /** The k-th publication is acted on if and only if some poll falls between it and the
      next publication while its (ticket, type) is not in the log. */
  lemma {:induction false} ActedOnIff(clock: int, es: seq<Event>, k: nat)
    requires Valid(Init(clock), es)
    ensures k in Run(Init(clock), es).acted <==> exists j :: 0 <= j < |es| && PollsUnlogged(clock, es, j, k)
  {
    if es != [] {
      var n := |es| - 1;
      var before := es[..n];
      assert es == before + [es[n]];
      RunSnoc(Init(clock), before, es[n]);
      ActedOnIff(clock, before, k);
      ActedNext(Run(Init(clock), before), es[n], k);
      forall j | 0 <= j < n ensures PollsUnlogged(clock, before, j, k) <==> PollsUnlogged(clock, es, j, k) {
        assert before[..j] == es[..j];
      }
      assert PollsUnlogged(clock, es, n, k)
        <==> (es[n].Poll? || es[n].Cut?) && |Run(Init(clock), before).published| == k + 1
             && !InLog(Run(Init(clock), before).log, Run(Init(clock), before).published[k]);
    }
  }

  /** After any run, the next signal that is published and polled is acted on, as the latest
      publication, exactly if its (ticket, type) is not logged; then it is logged. */
  lemma NewSignalActedOnIff(clock: int, es: seq<Event>, sig: Signal, now: int, later: int)
    requires Valid(Init(clock), es + [Publish(sig)] + [Poll(now, later)])
    ensures var w := Run(Init(clock), es);
            var t := Run(Init(clock), es + [Publish(sig)] + [Poll(now, later)]);
            var logged := exists e :: e in w.log && e.ticket == sig.ticket && e.kind == sig.kind;
            && t.published == w.published + [sig]
            && t.acted == (if logged then w.acted else w.acted + [|w.published|])
            && exists e :: e in t.file && e.ticket == sig.ticket && e.kind == sig.kind && (!logged ==> e.at == now)
  {
    var w := Run(Init(clock), es);
    var t := Run(Init(clock), es + [Publish(sig)] + [Poll(now, later)]);
    RunSnoc(Init(clock), es, Publish(sig));
    RunSnoc(Init(clock), es + [Publish(sig)], Poll(now, later));
    InLogMember(w.log, sig);
    RunInv(Init(clock), es);
    if !InLog(w.log, sig) {
      var own := Entry(sig.ticket, sig.kind, now);
      assert (w.log + [own])[|w.log|] == own;
      YoungerMember(w.log + [own], later - DAY, own);
      assert own in t.file;
    }
  }

  /** Nothing is lost by a restart between polls. */
  lemma RestartKeepsLog(clock: int, es: seq<Event>)
    requires Valid(Init(clock), es)
    ensures Next(Run(Init(clock), es), Restart) == Run(Init(clock), es)
  {
    RunInv(Init(clock), es);
  }

  /** Which keys an act leaves blocked, exactly: its own, and those acted on less than
      a day before its cleanup.  Every other key is acted on again when republished. */
  lemma BlockedAfterAct(w: World, now: int, later: int, sig: Signal)
    requires Enabled(w, Poll(now, later)) && Slot(w).Some? && !InLog(w.log, Slot(w).value)
    ensures InLog(Next(w, Poll(now, later)).log, sig)
       <==> sig == Slot(w).value || exists e :: e in w.log && Matches(e, sig) && e.at > later - DAY
  {
    var own := Entry(Slot(w).value.ticket, Slot(w).value.kind, now);
    var grown := w.log + [own];
    var log := Next(w, Poll(now, later)).log;
    assert grown[|w.log|] == own;
    forall e ensures e in log <==> (e in w.log || e == own) && e.at > later - DAY {
      YoungerMember(grown, later - DAY, e);
    }
    InLogMember(log, sig);
    assert Matches(own, sig) <==> sig == Slot(w).value;
  }
}
