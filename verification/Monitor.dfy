/** The monitor EA: ScanTrades diffs the array of known tickets against the live
    positions and emits OPEN, MODIFY, PARTIAL and CLOSE signals. */
module Monitor {
  import opened Wrappers

  datatype TicketState = TicketState(ticket: nat, lot: real, sl: real, tp: real)

  datatype Position =
    Position(ticket: nat, lot: real, sl: real, tp: real, symbol: string, buy: bool, price: real)

  /** A deal of the account history; `out` for DEAL_ENTRY_OUT and DEAL_ENTRY_INOUT. */
  datatype Deal = Deal(position: nat, out: bool, price: real, symbol: string, volume: real, buy: bool)

  datatype Kind = OPEN | MODIFY | PARTIAL | CLOSE

  datatype Signal = Signal(ticket: nat, kind: Kind, symbol: string, buy: bool,
                           price: real, sl: real, tp: real, lot: real)

  const STOP_TOLERANCE := 0.000001
  const LOT_TOLERANCE := 0.001

  function Abs(x: real): real { if x < 0.0 then -x else x }

  // ---- What a scan computes ----

  /** The position the downward search for a ticket finds. */
  function FindPosition(book: seq<Position>, ticket: nat): Option<Position> {
    if book == [] then None
    else if book[|book| - 1].ticket == ticket then Some(book[|book| - 1])
    else FindPosition(book[..|book| - 1], ticket)
  }

  /** The newest closing deal of a position. */
  function FindClose(deals: seq<Deal>, ticket: nat): Option<Deal> {
    if deals == [] then None
    else if deals[|deals| - 1].position == ticket && deals[|deals| - 1].out then Some(deals[|deals| - 1])
    else FindClose(deals[..|deals| - 1], ticket)
  }

  predicate StopsMoved(k: TicketState, p: Position) {
    Abs(p.sl - k.sl) > STOP_TOLERANCE || Abs(p.tp - k.tp) > STOP_TOLERANCE
  }

  predicate LotShrunk(k: TicketState, p: Position) { p.lot < k.lot - LOT_TOLERANCE }

  function Updated(k: TicketState, p: Position): TicketState {
    TicketState(k.ticket,
                if LotShrunk(k, p) then p.lot else k.lot,
                if StopsMoved(k, p) then p.sl else k.sl,
                if StopsMoved(k, p) then p.tp else k.tp)
  }

  function Report(p: Position, kind: Kind): Signal {
    Signal(p.ticket, kind, p.symbol, p.buy, p.price, p.sl, p.tp, p.lot)
  }

  function UpdateSignals(k: TicketState, p: Position): seq<Signal> {
    (if StopsMoved(k, p) then [Report(p, MODIFY)] else [])
    + (if LotShrunk(k, p) then [Report(p, PARTIAL)] else [])
  }

  /** Is the disappearance of this ticket reported? */
  predicate CloseFound(deals: seq<Deal>, ticket: nat) {
    FindClose(deals, ticket).Some? && FindClose(deals, ticket).value.price > 0.0
  }

  function CloseSignals(deals: seq<Deal>, ticket: nat): seq<Signal> {
    if CloseFound(deals, ticket) then
      var d := FindClose(deals, ticket).value;
      [Signal(ticket, CLOSE, d.symbol, d.buy, d.price, 0.0, 0.0, d.volume)]
    else []
  }

  /** What the first loop leaves of one known ticket, and what it sends for it. */
  function Survivor(k: TicketState, book: seq<Position>): seq<TicketState> {
    match FindPosition(book, k.ticket) { case None => [] case Some(p) => [Updated(k, p)] }
  }

  function TicketSignals(k: TicketState, book: seq<Position>, deals: seq<Deal>): seq<Signal> {
    match FindPosition(book, k.ticket)
    case None => CloseSignals(deals, k.ticket)
    case Some(p) => UpdateSignals(k, p)
  }

  /** What the first loop makes of the known tickets. */
  function Surviving(known: seq<TicketState>, book: seq<Position>): seq<TicketState> {
    if known == [] then []
    else Surviving(known[..|known| - 1], book) + Survivor(known[|known| - 1], book)
  }

  /** What the first loop sends, last known ticket first. */
  function UpdateAndClose(known: seq<TicketState>, book: seq<Position>, deals: seq<Deal>): seq<Signal> {
    if known == [] then []
    else TicketSignals(known[|known| - 1], book, deals) + UpdateAndClose(known[..|known| - 1], book, deals)
  }

  lemma SplitAt(all: seq<TicketState>, known: seq<TicketState>, i: nat, tail: seq<TicketState>)
    requires i < |known| && all == known[..i + 1] + tail
    ensures i < |all| && all[i] == known[i] && all[..i] == known[..i] && all[i + 1..] == tail
  {}

  /** One turn of the first loop, with `tail` and `out` the results of the turns before. */
  lemma FirstLoopNext(known: seq<TicketState>, i: nat, book: seq<Position>, deals: seq<Deal>,
                      tail: seq<TicketState>, out: seq<Signal>)
    requires i < |known|
    ensures Surviving(known[..i + 1], book) + tail
         == Surviving(known[..i], book) + (Survivor(known[i], book) + tail)
    ensures out + UpdateAndClose(known[..i + 1], book, deals)
         == out + TicketSignals(known[i], book, deals) + UpdateAndClose(known[..i], book, deals)
  {
    assert known[..i + 1][..i] == known[..i];
    assert Surviving(known[..i + 1], book) == Surviving(known[..i], book) + Survivor(known[i], book);
    assert UpdateAndClose(known[..i + 1], book, deals)
        == TicketSignals(known[i], book, deals) + UpdateAndClose(known[..i], book, deals);
    Reassociate(Surviving(known[..i], book), Survivor(known[i], book), tail);
    Reassociate(out, TicketSignals(known[i], book, deals), UpdateAndClose(known[..i], book, deals));
  }

  predicate IsKnown(known: seq<TicketState>, ticket: nat) {
    exists i :: 0 <= i < |known| && known[i].ticket == ticket
  }

  function StateOf(p: Position): TicketState { TicketState(p.ticket, p.lot, p.sl, p.tp) }

  predicate IsNew(known: seq<TicketState>, p: Position) { p.ticket != 0 && !IsKnown(known, p.ticket) }

  /** What the second loop makes of the known tickets. */
  function WithOpened(known: seq<TicketState>, book: seq<Position>): seq<TicketState>
    decreases |book|
  {
    if book == [] then known
    else
      var p := book[|book| - 1];
      WithOpened(if IsNew(known, p) then known + [StateOf(p)] else known, book[..|book| - 1])
  }

  function OpenSignals(known: seq<TicketState>, book: seq<Position>): seq<Signal>
    decreases |book|
  {
    if book == [] then []
    else
      var p := book[|book| - 1];
      if IsNew(known, p) then [Report(p, OPEN)] + OpenSignals(known + [StateOf(p)], book[..|book| - 1])
      else OpenSignals(known, book[..|book| - 1])
  }

  function Scanned(known: seq<TicketState>, book: seq<Position>): seq<TicketState> {
    WithOpened(Surviving(known, book), book)
  }

  function ScanSignals(known: seq<TicketState>, book: seq<Position>, deals: seq<Deal>): seq<Signal> {
    UpdateAndClose(known, book, deals) + OpenSignals(Surviving(known, book), book)
  }

  /** What loading the state file keeps: the tickets still open. */
  function StillOpen(known: seq<TicketState>, book: seq<Position>): seq<TicketState> {
    if known == [] then []
    else
      var k := known[|known| - 1];
      StillOpen(known[..|known| - 1], book) + if FindPosition(book, k.ticket).Some? then [k] else []
  }

  lemma Reassociate<T>(a: seq<T>, b: seq<T>, c: seq<T>)
    ensures (a + b) + c == a + (b + c)
  {}

  // ---- The EA ----

  class Monitor {
    var knownTickets: array<TicketState>
    var ticketCount: nat
    var file: seq<TicketState>
    var sent: seq<Signal>

    ghost predicate Valid()
      reads this
    {
      knownTickets.Length == ticketCount
    }

    ghost function Known(): seq<TicketState>
      reads this, knownTickets
    {
      knownTickets[..]
    }

    constructor ()
      ensures Valid() && Known() == [] && file == [] && sent == [] && fresh(knownTickets)
    {
      knownTickets := new TicketState[0];
      ticketCount, file, sent := 0, [], [];
    }

    method SendSignal(sig: Signal)
      modifies this`sent
      ensures sent == old(sent) + [sig]
    {
      sent := sent + [sig];
    }

    method SaveStateToFile()
      requires Valid()
      modifies this`file
      ensures file == Known()
    {
      file := [];
      for i := 0 to ticketCount
        invariant file == knownTickets[..i]
      {
        file := file + [knownTickets[i]];
      }
    }

    method IsKnownTicket(ticket: nat) returns (found: bool)
      requires Valid()
      ensures found <==> IsKnown(Known(), ticket)
    {
      for i := 0 to ticketCount
        invariant forall k :: 0 <= k < i ==> knownTickets[k].ticket != ticket
      {
        if knownTickets[i].ticket == ticket {
          assert Known()[i].ticket == ticket;
          return true;
        }
      }
      return false;
    }

    /** ArrayResize to `n` elements. */
    method Resize(n: nat)
      modifies this`knownTickets
      ensures knownTickets.Length == n && fresh(knownTickets)
      ensures forall i :: 0 <= i < n && i < old(knownTickets.Length) ==> knownTickets[i] == old(knownTickets[i])
    {
      var a, from := new TicketState[n], knownTickets;
      for i := 0 to if n < from.Length then n else from.Length
        invariant forall k :: 0 <= k < i ==> a[k] == from[k]
      {
        a[i] := from[i];
      }
      knownTickets := a;
    }

    method AddKnownTicket(k: TicketState)
      requires Valid()
      modifies this`knownTickets, this`ticketCount
      ensures Valid() && Known() == old(Known()) + [k] && fresh(knownTickets)
    {
      ghost var known := Known();
      Resize(ticketCount + 1);
      knownTickets[ticketCount] := k;
      ticketCount := ticketCount + 1;
      assert Known() == known + [k];
    }

    /** Shift the tail left in place, then shrink. */
    method RemoveKnownTicket(index: nat)
      requires Valid() && index < ticketCount
      modifies this`knownTickets, this`ticketCount, knownTickets
      ensures Valid() && fresh(knownTickets)
      ensures Known() == old(Known()[..index] + Known()[index + 1..])
    {
      ghost var known := Known();
      for i := index to ticketCount - 1
        invariant Valid() && knownTickets == old(knownTickets) && ticketCount == old(ticketCount)
        invariant forall k :: 0 <= k < index ==> knownTickets[k] == known[k]
        invariant forall k :: index <= k < i ==> knownTickets[k] == known[k + 1]
        invariant forall k :: i <= k < ticketCount ==> knownTickets[k] == known[k]
      {
        knownTickets[i] := knownTickets[i + 1];
      }
      ticketCount := ticketCount - 1;
      Resize(ticketCount);
      assert Known() == known[..index] + known[index + 1..];
    }

    /** The first loop's work on ticket i when its position `p` is still open. */
    method UpdateTicket(i: nat, p: Position)
      requires Valid() && i < ticketCount && knownTickets[i].ticket == p.ticket
      modifies this`file, this`sent, knownTickets
      ensures Known() == old(Known())[i := Updated(old(knownTickets[i]), p)]
      ensures sent == old(sent) + UpdateSignals(old(knownTickets[i]), p)
      ensures file == Known() || (file == old(file) && Known() == old(Known()) && sent == old(sent))
    {
      if Abs(p.sl - knownTickets[i].sl) > STOP_TOLERANCE || Abs(p.tp - knownTickets[i].tp) > STOP_TOLERANCE {
        SendSignal(Report(p, MODIFY));
        knownTickets[i] := knownTickets[i].(sl := p.sl);
        knownTickets[i] := knownTickets[i].(tp := p.tp);
        SaveStateToFile();
      }
      if p.lot < knownTickets[i].lot - LOT_TOLERANCE {
        SendSignal(Report(p, PARTIAL));
        knownTickets[i] := knownTickets[i].(lot := p.lot);
        SaveStateToFile();
      }
    }

    /** The first loop's work on ticket i when its position is gone. */
    method DropTicket(i: nat, deals: seq<Deal>)
      requires Valid() && i < ticketCount
      modifies this, knownTickets
      ensures Valid() && fresh(knownTickets)
      ensures Known() == old(Known()[..i] + Known()[i + 1..]) && file == Known()
      ensures sent == old(sent) + CloseSignals(deals, old(knownTickets[i]).ticket)
    {
      var ticket := knownTickets[i].ticket;
      var close := None;
      var d := |deals|;
      assert deals[..d] == deals;
      while d > 0 && close == None
        invariant 0 <= d <= |deals|
        invariant close == None ==> FindClose(deals, ticket) == FindClose(deals[..d], ticket)
        invariant close.Some? ==> FindClose(deals, ticket) == close
        decreases d
      {
        d := d - 1;
        assert deals[..d + 1][..d] == deals[..d];
        if deals[d].position == ticket && deals[d].out { close := Some(deals[d]); }
      }
      if close.Some? && close.value.price > 0.0 {
        var deal := close.value;
        SendSignal(Signal(ticket, CLOSE, deal.symbol, deal.buy, deal.price, 0.0, 0.0, deal.volume));
      }
      RemoveKnownTicket(i);
      SaveStateToFile();
    }

    method Find(book: seq<Position>, ticket: nat) returns (p: Option<Position>)
      ensures p == FindPosition(book, ticket)
      ensures p.Some? ==> p.value.ticket == ticket
    {
      var j := |book|;
      assert book[..j] == book;
      while j > 0
        invariant 0 <= j <= |book| && FindPosition(book, ticket) == FindPosition(book[..j], ticket)
      {
        j := j - 1;
        assert book[..j + 1][..j] == book[..j];
        if book[j].ticket == ticket { return Some(book[j]); }
      }
      return None;
    }

    /** One turn of the first loop. */
    method ScanKnown(i: nat, book: seq<Position>, deals: seq<Deal>)
      requires Valid() && i < ticketCount
      modifies this, knownTickets
      ensures Valid() && (knownTickets == old(knownTickets) || fresh(knownTickets))
      ensures file == Known() || (file == old(file) && Known() == old(Known()) && sent == old(sent))
      ensures Known() == old(Known()[..i] + Survivor(Known()[i], book) + Known()[i + 1..])
      ensures sent == old(sent) + TicketSignals(old(Known()[i]), book, deals)
    {
      var p := Find(book, knownTickets[i].ticket);
      if p.Some? {
        UpdateTicket(i, p.value);
      } else {
        DropTicket(i, deals);
      }
    }

    method DetectUpdatesAndCloses(book: seq<Position>, deals: seq<Deal>)
      requires Valid()
      modifies this, knownTickets
      ensures Valid() && (knownTickets == old(knownTickets) || fresh(knownTickets))
      ensures file == Known() || (file == old(file) && Known() == old(Known()) && sent == old(sent))
      ensures Known() == Surviving(old(Known()), book)
      ensures sent == old(sent) + UpdateAndClose(old(Known()), book, deals)
    {
      ghost var known := Known();
      ghost var tail: seq<TicketState> := [];
      ghost var out: seq<Signal> := [];
      var i := ticketCount;
      assert known[..i] == known;
      while i > 0
        invariant Valid() && (knownTickets == old(knownTickets) || fresh(knownTickets))
        invariant file == Known() || (file == old(file) && Known() == old(Known()) && sent == old(sent))
        invariant 0 <= i <= |known| && Known() == known[..i] + tail
        invariant Surviving(known, book) == Surviving(known[..i], book) + tail
        invariant UpdateAndClose(known, book, deals) == out + UpdateAndClose(known[..i], book, deals)
        invariant sent == old(sent) + out
      {
        i := i - 1;
        FirstLoopNext(known, i, book, deals, tail, out);
        SplitAt(Known(), known, i, tail);
        ScanKnown(i, book, deals);
        Reassociate(known[..i], Survivor(known[i], book), tail);
        Reassociate(old(sent), out, TicketSignals(known[i], book, deals));
        tail := Survivor(known[i], book) + tail;
        out := out + TicketSignals(known[i], book, deals);
      }
    }

    method DetectOpens(book: seq<Position>)
      requires Valid()
      modifies this, knownTickets
      ensures Valid() && (knownTickets == old(knownTickets) || fresh(knownTickets))
      ensures file == Known() || (file == old(file) && Known() == old(Known()) && sent == old(sent))
      ensures Known() == WithOpened(old(Known()), book)
      ensures sent == old(sent) + OpenSignals(old(Known()), book)
    {
      ghost var known := Known();
      ghost var out: seq<Signal> := [];
      var j := |book|;
      assert book[..j] == book;
      while j > 0
        invariant Valid() && (knownTickets == old(knownTickets) || fresh(knownTickets))
        invariant file == Known() || (file == old(file) && Known() == old(Known()) && sent == old(sent))
        invariant 0 <= j <= |book| && WithOpened(known, book) == WithOpened(Known(), book[..j])
        invariant OpenSignals(known, book) == out + OpenSignals(Known(), book[..j])
        invariant sent == old(sent) + out
      {
        j := j - 1;
        assert book[..j + 1][..j] == book[..j];
        var p := book[j];
        if p.ticket != 0 {
          var seen := IsKnownTicket(p.ticket);
          if !seen {
            AddKnownTicket(StateOf(p));
            SendSignal(Report(p, OPEN));
            SaveStateToFile();
            out := out + [Report(p, OPEN)];
          }
        }
      }
    }

    /** One timer tick against a book that does not change during it; the state file is
        rewritten whenever anything changed. */
    method ScanTrades(book: seq<Position>, deals: seq<Deal>)
      requires Valid()
      modifies this, knownTickets
      ensures Valid()
      ensures file == Known() || (file == old(file) && Known() == old(Known()) && sent == old(sent))
      ensures Known() == Scanned(old(Known()), book)
      ensures sent == old(sent) + ScanSignals(old(Known()), book, deals)
    {
      ghost var known := Known();
      DetectUpdatesAndCloses(book, deals);
      DetectOpens(book);
      Reassociate(old(sent), UpdateAndClose(known, book, deals), OpenSignals(Surviving(known, book), book));
    }

    method LoadStateFromFile(book: seq<Position>)
      modifies this`knownTickets, this`ticketCount
      ensures Valid() && Known() == StillOpen(file, book)
    {
      ticketCount := 0;
      Resize(0);
      for i := 0 to |file|
        invariant Valid() && fresh(knownTickets) && Known() == StillOpen(file[..i], book)
      {
        assert file[..i + 1][..i] == file[..i];
        var p := Find(book, file[i].ticket);
        if p.Some? { AddKnownTicket(file[i]); }
      }
      assert file[..|file|] == file;
    }
  }
}
