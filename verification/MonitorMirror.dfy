/** Event sourcing: folding the monitor's signals rebuilds its known tickets. */
module MonitorMirror {
  import opened Wrappers
  import opened Monitor

  datatype Copy = Copy(lot: real, sl: real, tp: real)

  type Mirror = map<nat, Copy>

  /** What a faithful copier does with one signal; a ticket it does not hold is ignored. */
  function Apply(m: Mirror, sig: Signal): Mirror {
    match sig.kind
    case OPEN => m[sig.ticket := Copy(sig.lot, sig.sl, sig.tp)]
    case CLOSE => m - {sig.ticket}
    case MODIFY =>
      if sig.ticket in m then m[sig.ticket := m[sig.ticket].(sl := sig.sl, tp := sig.tp)] else m
    case PARTIAL =>
      if sig.ticket in m then m[sig.ticket := m[sig.ticket].(lot := sig.lot)] else m
  }

  function Fold(m: Mirror, sigs: seq<Signal>): Mirror
    decreases |sigs|
  {
    if sigs == [] then m else Fold(Apply(m, sigs[0]), sigs[1..])
  }

  lemma {:induction false} FoldConcat(m: Mirror, a: seq<Signal>, b: seq<Signal>)
    ensures Fold(m, a + b) == Fold(Fold(m, a), b)
    decreases |a|
  {
    if a == [] {
      assert a + b == b;
    } else {
      assert (a + b)[1..] == a[1..] + b;
      FoldConcat(Apply(m, a[0]), a[1..], b);
    }
  }

  function CopyOf(k: TicketState): Copy { Copy(k.lot, k.sl, k.tp) }

  predicate DistinctTickets(known: seq<TicketState>) {
    forall i, j :: 0 <= i < j < |known| ==> known[i].ticket != known[j].ticket
  }

  function Tickets(known: seq<TicketState>): set<nat> { set i | 0 <= i < |known| :: known[i].ticket }

  /** The mirror holds exactly the known tickets, with their values, and the orphans:
      copies whose source vanished without a CLOSE signal. */
  predicate Mirrors(m: Mirror, known: seq<TicketState>, orphans: set<nat>) {
    && DistinctTickets(known)
    && m.Keys == Tickets(known) + orphans
    && Tickets(known) !! orphans
    && Agrees(m, known)
  }

  // ---- One elementary change ----

  lemma TicketsSplit(a: seq<TicketState>, b: seq<TicketState>)
    ensures Tickets(a + b) == Tickets(a) + Tickets(b)
  {
    var ab := a + b;
    assert forall i :: 0 <= i < |a| ==> ab[i] == a[i];
    assert forall i :: 0 <= i < |b| ==> ab[|a| + i] == b[i];
  }

  /** Distinctness of a sequence with a marked element. */
  lemma DistinctAround(a: seq<TicketState>, k: TicketState, b: seq<TicketState>)
    ensures DistinctTickets(a + ([k] + b)) <==> DistinctTickets(a + b) && k.ticket !in Tickets(a + b)
  {
    var all, rest := a + ([k] + b), a + b;
    assert forall i :: 0 <= i < |a| ==> all[i] == rest[i];
    assert forall i :: |a| <= i < |rest| ==> all[i + 1] == rest[i];
    assert all[|a|] == k;
    if DistinctTickets(all) {
      forall i, j | 0 <= i < j < |rest| ensures rest[i].ticket != rest[j].ticket {
        assert all[if i < |a| then i else i + 1].ticket != all[if j < |a| then j else j + 1].ticket;
      }
    }
    if DistinctTickets(rest) && k.ticket !in Tickets(rest) {
      forall i, j | 0 <= i < j < |all| ensures all[i].ticket != all[j].ticket {
        if i != |a| { assert all[i] == rest[if i < |a| then i else i - 1]; }
        if j != |a| { assert all[j] == rest[if j < |a| then j else j - 1]; }
      }
    }
  }

  lemma TicketsAround(a: seq<TicketState>, k: TicketState, b: seq<TicketState>)
    ensures Tickets(a + ([k] + b)) == Tickets(a + b) + {k.ticket}
  {
    TicketsSplit(a, b);
    TicketsSplit([k], b);
    TicketsSplit(a, [k] + b);
    assert Tickets([k]) == {k.ticket} by { assert [k][0].ticket == k.ticket; }
  }

  /** The mirror holds the values of the known tickets. */
  predicate Agrees(m: Mirror, known: seq<TicketState>) {
    forall i :: 0 <= i < |known| ==> known[i].ticket in m && m[known[i].ticket] == CopyOf(known[i])
  }

  lemma AgreesAround(m: Mirror, a: seq<TicketState>, k: TicketState, b: seq<TicketState>)
    ensures Agrees(m, a + ([k] + b)) <==> k.ticket in m && m[k.ticket] == CopyOf(k) && Agrees(m, a + b)
  {
    var all, rest := a + ([k] + b), a + b;
    assert forall i :: 0 <= i < |a| ==> all[i] == rest[i];
    assert forall i :: |a| <= i < |rest| ==> all[i + 1] == rest[i];
    assert forall i :: |a| < i < |all| ==> all[i] == rest[i - 1];
    assert all[|a|] == k;
  }

  /** A mirror of known tickets with a marked element, split at that element. */
  lemma MirrorsAround(m: Mirror, a: seq<TicketState>, k: TicketState, b: seq<TicketState>, orphans: set<nat>)
    ensures Mirrors(m, a + ([k] + b), orphans)
       <==> k.ticket in m && m[k.ticket] == CopyOf(k) && k.ticket !in orphans
            && Mirrors(m - {k.ticket}, a + b, orphans)
  {
    DistinctAround(a, k, b);
    TicketsAround(a, k, b);
    AgreesAround(m, a, k, b);
    if k.ticket !in Tickets(a + b) {
      assert Agrees(m, a + b) <==> Agrees(m - {k.ticket}, a + b);
    }
  }

  lemma FoldUpdate(m: Mirror, k: TicketState, p: Position)
    requires k.ticket in m && m[k.ticket] == CopyOf(k) && p.ticket == k.ticket
    ensures Fold(m, UpdateSignals(k, p)) == m[k.ticket := CopyOf(Updated(k, p))]
  {
    var s1 := if StopsMoved(k, p) then [Report(p, MODIFY)] else [];
    var s2 := if LotShrunk(k, p) then [Report(p, PARTIAL)] else [];
    FoldConcat(m, s1, s2);
    var m1 := if StopsMoved(k, p) then Apply(m, Report(p, MODIFY)) else m;
    assert Fold(m, s1) == m1;
    assert Fold(m1, s2) == if LotShrunk(k, p) then Apply(m1, Report(p, PARTIAL)) else m1;
  }

  lemma FoldClose(m: Mirror, deals: seq<Deal>, ticket: nat)
    ensures Fold(m, CloseSignals(deals, ticket)) == if CloseFound(deals, ticket) then m - {ticket} else m
  {}

  lemma {:induction false} FoundTicket(book: seq<Position>, ticket: nat)
    ensures FindPosition(book, ticket).Some? ==> FindPosition(book, ticket).value.ticket == ticket
  {
    if book != [] { FoundTicket(book[..|book| - 1], ticket); }
  }

  // ---- The first loop ----

  /** Tickets that vanish from the book without a closing deal in the history. */
  function Unreported(known: seq<TicketState>, book: seq<Position>, deals: seq<Deal>): set<nat> {
    set i | 0 <= i < |known| && FindPosition(book, known[i].ticket).None? && !CloseFound(deals, known[i].ticket)
      :: known[i].ticket
  }

  function LastUnreported(k: TicketState, book: seq<Position>, deals: seq<Deal>): set<nat> {
    if FindPosition(book, k.ticket).None? && !CloseFound(deals, k.ticket) then {k.ticket} else {}
  }

  lemma UnreportedSplit(init: seq<TicketState>, k: TicketState, book: seq<Position>, deals: seq<Deal>)
    ensures Unreported(init + [k], book, deals) == Unreported(init, book, deals) + LastUnreported(k, book, deals)
  {
    var all := init + [k];
    assert all[|init|] == k;
    assert forall i :: 0 <= i < |init| ==> all[i] == init[i];
  }

  lemma TicketStep(m: Mirror, init: seq<TicketState>, k: TicketState, tail: seq<TicketState>,
                   orphans: set<nat>, book: seq<Position>, deals: seq<Deal>)
    requires Mirrors(m, init + ([k] + tail), orphans)
    ensures Mirrors(Fold(m, TicketSignals(k, book, deals)), init + (Survivor(k, book) + tail),
                    orphans + LastUnreported(k, book, deals))
  {
    MirrorsAround(m, init, k, tail, orphans);
    match FindPosition(book, k.ticket)
    case Some(p) =>
      FoundTicket(book, k.ticket);
      FoldUpdate(m, k, p);
      var k' := Updated(k, p);
      var m' := m[k.ticket := CopyOf(k')];
      assert m' - {k.ticket} == m - {k.ticket};
      MirrorsAround(m', init, k', tail, orphans);
      assert LastUnreported(k, book, deals) == {};
      assert orphans + {} == orphans;
    case None =>
      FoldClose(m, deals, k.ticket);
      assert [] + tail == tail;
      if CloseFound(deals, k.ticket) { assert orphans + {} == orphans; }
  }

  lemma {:induction false} FirstLoop(m: Mirror, known: seq<TicketState>, tail: seq<TicketState>, orphans: set<nat>,
                                     book: seq<Position>, deals: seq<Deal>)
    requires Mirrors(m, known + tail, orphans)
    ensures Mirrors(Fold(m, UpdateAndClose(known, book, deals)), Surviving(known, book) + tail,
                    orphans + Unreported(known, book, deals))
    decreases |known|
  {
    if known == [] {
      assert orphans + {} == orphans;
    } else {
      var n := |known| - 1;
      var init, k := known[..n], known[n];
      assert known == init + [k] && known + tail == init + ([k] + tail);
      TicketStep(m, init, k, tail, orphans, book, deals);
      var m1 := Fold(m, TicketSignals(k, book, deals));
      var orphans1 := orphans + LastUnreported(k, book, deals);
      FirstLoop(m1, init, Survivor(k, book) + tail, orphans1, book, deals);
      FoldConcat(m, TicketSignals(k, book, deals), UpdateAndClose(init, book, deals));
      UnreportedSplit(init, k, book, deals);
      assert orphans1 + Unreported(init, book, deals) == orphans + Unreported(known, book, deals);
      Reassociate(Surviving(init, book), Survivor(k, book), tail);
    }
  }

  // ---- The second loop ----

  /** The live tickets of a book. */
  function Live(book: seq<Position>): set<nat> { set j | 0 <= j < |book| && book[j].ticket != 0 :: book[j].ticket }

  lemma LiveSplit(init: seq<Position>, p: Position)
    ensures Live(init + [p]) == Live(init) + (if p.ticket == 0 then {} else {p.ticket})
  {
    var all := init + [p];
    assert all[|init|] == p;
    assert forall i :: 0 <= i < |init| ==> all[i] == init[i];
  }

  /** Opening a new position. */
  lemma OpenedMirrors(m: Mirror, known: seq<TicketState>, orphans: set<nat>, p: Position)
    requires Mirrors(m, known, orphans) && IsNew(known, p)
    ensures Mirrors(m[p.ticket := CopyOf(StateOf(p))], known + [StateOf(p)], orphans - {p.ticket})
    ensures Tickets(known + [StateOf(p)]) == Tickets(known) + {p.ticket}
  {
    var k := StateOf(p);
    var m1 := m[p.ticket := CopyOf(k)];
    assert p.ticket !in Tickets(known);
    assert m1 - {k.ticket} == m - {k.ticket} && known + [] == known && [k] + [] == [k];
    MirrorsAround(m1, known, k, [], orphans - {p.ticket});
    TicketsSplit(known, [k]);
    assert Tickets([k]) == {p.ticket} by { assert [k][0].ticket == p.ticket; }
  }

  lemma {:induction false} SecondLoop(m: Mirror, known: seq<TicketState>, orphans: set<nat>, book: seq<Position>)
    requires Mirrors(m, known, orphans)
    ensures Mirrors(Fold(m, OpenSignals(known, book)), WithOpened(known, book), orphans - Live(book))
    ensures Tickets(WithOpened(known, book)) == Tickets(known) + Live(book)
    decreases |book|
  {
    if book == [] {
      assert orphans - {} == orphans && Tickets(known) + {} == Tickets(known);
    } else {
      var n := |book| - 1;
      var init, p := book[..n], book[n];
      assert book == init + [p];
      LiveSplit(init, p);
      if IsNew(known, p) {
        var k := StateOf(p);
        OpenedMirrors(m, known, orphans, p);
        SecondLoop(m[p.ticket := CopyOf(k)], known + [k], orphans - {p.ticket}, init);
        assert orphans - {p.ticket} - Live(init) == orphans - Live(book);
      } else {
        SecondLoop(m, known, orphans, init);
        if p.ticket != 0 {
          var i :| 0 <= i < |known| && known[i].ticket == p.ticket;
          assert p.ticket in Tickets(known) && p.ticket !in orphans;
        }
        assert orphans - Live(init) == orphans - Live(book);
      }
    }
  }

  /** The orphans after a scan. */
  function OrphansAfter(orphans: set<nat>, known: seq<TicketState>, book: seq<Position>, deals: seq<Deal>): set<nat> {
    orphans + Unreported(known, book, deals) - Live(book)
  }

  lemma ScanMirrors(m: Mirror, known: seq<TicketState>, orphans: set<nat>, book: seq<Position>,
                    deals: seq<Deal>)
    requires Mirrors(m, known, orphans)
    ensures Mirrors(Fold(m, ScanSignals(known, book, deals)), Scanned(known, book),
                    OrphansAfter(orphans, known, book, deals))
  {
    assert known + [] == known && Surviving(known, book) + [] == Surviving(known, book);
    FirstLoop(m, known, [], orphans, book, deals);
    FoldConcat(m, UpdateAndClose(known, book, deals), OpenSignals(Surviving(known, book), book));
    SecondLoop(Fold(m, UpdateAndClose(known, book, deals)), Surviving(known, book),
               orphans + Unreported(known, book, deals), book);
  }

  // ---- Single tickets ----

  lemma {:induction false} SearchBack(whole: seq<Position>, n: nat, ticket: nat)
    requires n <= |whole| && forall j :: n <= j < |whole| ==> whole[j].ticket != ticket
    ensures FindPosition(whole, ticket) == FindPosition(whole[..n], ticket)
    decreases |whole|
  {
    if n < |whole| {
      SearchBack(whole[..|whole| - 1], n, ticket);
      assert whole[..|whole| - 1][..n] == whole[..n];
    } else {
      assert whole[..n] == whole;
    }
  }

  lemma IsKnownGrows(known: seq<TicketState>, p: Position, ticket: nat)
    requires IsKnown(known, ticket) || ticket == p.ticket
    ensures IsKnown(known + [StateOf(p)], ticket)
  {
    var grown := known + [StateOf(p)];
    if ticket == p.ticket {
      assert grown[|known|].ticket == ticket;
    } else {
      var i :| 0 <= i < |known| && known[i].ticket == ticket;
      assert grown[i].ticket == ticket;
    }
  }

  lemma {:induction false} SurvivorSource(known: seq<TicketState>, book: seq<Position>, k: TicketState)
    requires k in Surviving(known, book)
    ensures exists j :: 0 <= j < |known| && Survivor(known[j], book) == [k]
  {
    var n := |known| - 1;
    if k in Surviving(known[..n], book) {
      SurvivorSource(known[..n], book, k);
      var j :| 0 <= j < n && Survivor(known[..n][j], book) == [k];
      assert Survivor(known[j], book) == [k];
    } else {
      assert Survivor(known[n], book) == [k];
    }
  }

  lemma {:induction false} SurvivorStays(known: seq<TicketState>, book: seq<Position>, j: nat)
    requires j < |known| && FindPosition(book, known[j].ticket).Some?
    ensures Updated(known[j], FindPosition(book, known[j].ticket).value) in Surviving(known, book)
  {
    var n := |known| - 1;
    if j < n {
      SurvivorStays(known[..n], book, j);
    } else {
      assert Surviving(known, book)[|Surviving(known[..n], book)|] in Surviving(known, book);
    }
  }
}
