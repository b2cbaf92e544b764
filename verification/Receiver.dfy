/** The receiver EA: a log of processed signals kept in memory and in a file, and the
    poll loop that acts on the latest published signal of a symbol. */
module Receiver {
  import opened Wrappers

  datatype Signal = Signal(ticket: int, kind: string)

  datatype Entry = Entry(ticket: int, kind: string, at: int)

  const DAY := 24 * 3600

  predicate Matches(e: Entry, sig: Signal) { e.ticket == sig.ticket && e.kind == sig.kind }

  predicate InLog(log: seq<Entry>, sig: Signal) {
    exists i :: 0 <= i < |log| && Matches(log[i], sig)
  }

  lemma InLogMember(log: seq<Entry>, sig: Signal)
    ensures InLog(log, sig) <==> exists e :: e in log && Matches(e, sig)
  {
    if InLog(log, sig) {
      var i :| 0 <= i < |log| && Matches(log[i], sig);
      assert log[i] in log;
    }
  }

  /** The entries younger than the cutoff, in order. */
  function Younger(log: seq<Entry>, cutoff: int): seq<Entry> {
    if log == [] then []
    else Younger(log[..|log| - 1], cutoff)
         + if log[|log| - 1].at > cutoff then [log[|log| - 1]] else []
  }

  /** The log after acting on `sig` at `now`, with the cleanup reading the clock at `later`. */
  function Marked(log: seq<Entry>, sig: Signal, now: int, later: int): seq<Entry> {
    Younger(log + [Entry(sig.ticket, sig.kind, now)], later - DAY)
  }

  lemma {:induction false} YoungerLength(log: seq<Entry>, cutoff: int)
    ensures |Younger(log, cutoff)| <= |log|
    ensures |Younger(log, cutoff)| == |log| ==> Younger(log, cutoff) == log
  {
    if log != [] {
      var n := |log| - 1;
      YoungerLength(log[..n], cutoff);
      assert log == log[..n] + [log[n]];
      if log[n].at > cutoff {
        assert Younger(log, cutoff) == Younger(log[..n], cutoff) + [log[n]];
      } else {
        assert Younger(log, cutoff) == Younger(log[..n], cutoff);
      }
    }
  }

  /** Filtering keeps exactly the young entries. */
  lemma YoungerNext(log: seq<Entry>, i: nat, cutoff: int)
    requires i < |log|
    ensures Younger(log[..i + 1], cutoff) == Younger(log[..i], cutoff) + if log[i].at > cutoff then [log[i]] else []
  {
    assert log[..i + 1][..i] == log[..i];
  }

  lemma {:induction false} YoungerMember(log: seq<Entry>, cutoff: int, e: Entry)
    ensures e in Younger(log, cutoff) <==> e in log && e.at > cutoff
  {
    if log != [] {
      var init, last := log[..|log| - 1], log[|log| - 1];
      YoungerMember(init, cutoff, e);
      assert log == init + [last];
    }
  }

  /** An entry is kept exactly if it is less than a day older than the clock reading. */
  lemma YoungerOne(e: Entry, now: int)
    ensures Younger([e], now - DAY) == if now - e.at < 86400 then [e] else []
  {
    assert [e][..0] == [];
  }

  /** Compaction keeps the order: it treats a log piece by piece. */
  lemma {:induction false} YoungerConcat(log: seq<Entry>, more: seq<Entry>, cutoff: int)
    ensures Younger(log + more, cutoff) == Younger(log, cutoff) + Younger(more, cutoff)
  {
    if more == [] {
      assert log + more == log;
    } else {
      var n := |more| - 1;
      YoungerConcat(log, more[..n], cutoff);
      assert (log + more)[..|log| + n] == log + more[..n];
    }
  }

  class Receiver {
    var processedSignals: array<Entry>
    var processedCount: nat
    var file: seq<Entry>

    ghost predicate Valid()
      reads this
    {
      processedSignals.Length == processedCount
    }

    ghost function Log(): seq<Entry>
      reads this, processedSignals
    {
      processedSignals[..]
    }

    constructor ()
      ensures Valid() && Log() == [] && file == [] && fresh(processedSignals)
    {
      processedSignals := new Entry[0];
      processedCount, file := 0, [];
    }

    /** ArrayResize: keep the first entries, in a new block of memory. */
    method Resize(n: nat)
      modifies this`processedSignals
      ensures processedSignals.Length == n && fresh(processedSignals)
      ensures forall i :: 0 <= i < n && i < old(processedSignals.Length) ==>
                processedSignals[i] == old(processedSignals[i])
    {
      var a, from := new Entry[n], processedSignals;
      for i := 0 to if n < from.Length then n else from.Length
        invariant forall k :: 0 <= k < i ==> a[k] == from[k]
      {
        a[i] := from[i];
      }
      processedSignals := a;
    }

    /** Keep the first n entries. */
    method Truncate(n: nat)
      requires Valid() && n <= processedCount
      modifies this`processedSignals, this`processedCount
      ensures Valid() && Log() == old(Log())[..n] && fresh(processedSignals)
    {
      processedCount := n;
      Resize(n);
    }

    method IsAlreadyProcessed(sig: Signal) returns (found: bool)
      requires Valid()
      ensures found <==> InLog(Log(), sig)
      ensures found <==> exists e :: e in Log() && e.ticket == sig.ticket && e.kind == sig.kind
    {
      for i := 0 to processedCount
        invariant forall k :: 0 <= k < i ==> !Matches(processedSignals[k], sig)
      {
        if Matches(processedSignals[i], sig) {
          assert Matches(Log()[i], sig);
          InLogMember(Log(), sig);
          return true;
        }
      }
      InLogMember(Log(), sig);
      return false;
    }

    method SaveProcessedSignals()
      requires Valid()
      modifies this`file
      ensures file == Log()
    {
      file := [];
      for i := 0 to processedCount
        invariant file == processedSignals[..i]
      {
        file := file + [processedSignals[i]];
      }
    }

    method LoadProcessedSignals()
      modifies this`processedSignals, this`processedCount
      ensures Valid() && Log() == file && fresh(processedSignals)
    {
      processedCount := 0;
      Resize(0);
      for i := 0 to |file|
        invariant Valid() && processedCount == i && Log() == file[..i] && fresh(processedSignals)
      {
        Resize(processedCount + 1);
        processedSignals[processedCount] := file[i];
        processedCount := processedCount + 1;
        assert Log() == file[..i] + [file[i]];
      }
    }

    /** In-place compaction is an order-preserving filter, and the file follows. */
    method CleanupOldSignals(now: int)
      requires Valid() && file == Log()
      modifies this, processedSignals
      ensures Valid() && Log() == Younger(old(Log()), now - DAY) && file == Log()
      ensures processedSignals == old(processedSignals) || fresh(processedSignals)
    {
      var cutoff := now - DAY;
      var newCount := 0;
      ghost var log := Log();
      for i := 0 to processedCount
        invariant Valid() && processedSignals == old(processedSignals) && file == log
        invariant processedCount == |log|
        invariant newCount <= i && processedSignals[..newCount] == Younger(log[..i], cutoff)
        invariant forall k :: i <= k < |log| ==> processedSignals[k] == log[k]
      {
        YoungerNext(log, i, cutoff);
        if processedSignals[i].at > cutoff {
          if newCount != i {
            processedSignals[newCount] := processedSignals[i];
          }
          newCount := newCount + 1;
        }
      }
      assert log[..|log|] == log;
      YoungerLength(log, cutoff);
      if newCount < processedCount {
        Truncate(newCount);
        SaveProcessedSignals();
      }
    }

    method MarkAsProcessed(sig: Signal, now: int, later: int)
      requires Valid()
      modifies this, processedSignals
      ensures Valid() && Log() == Marked(old(Log()), sig, now, later) && file == Log()
      ensures fresh(processedSignals)
    {
      ghost var log := Log();
      Resize(processedCount + 1);
      processedSignals[processedCount] := Entry(sig.ticket, sig.kind, now);
      processedCount := processedCount + 1;
      assert Log() == log + [Entry(sig.ticket, sig.kind, now)];
      SaveProcessedSignals();
      CleanupOldSignals(later);
    }

    /** One poll of the slot; `acted` tells whether the signal was passed to the broker. */
    method PollAndAct(slot: Option<Signal>, now: int, later: int) returns (acted: bool)
      requires Valid() && file == Log()
      modifies this, processedSignals
      ensures Valid() && file == Log()
      ensures acted <==> slot.Some? && !InLog(old(Log()), slot.value)
      ensures Log() == if acted then Marked(old(Log()), slot.value, now, later) else old(Log())
    {
      if slot == None { return false; }
      var found := IsAlreadyProcessed(slot.value);
      if found { return false; }
      MarkAsProcessed(slot.value, now, later);
      return true;
    }
  }
}
