/** Exactly which signals a scan sends, said in terms of the book, the deal history and
    the tickets known before the scan. */
module MonitorSignals {
  import opened Wrappers
  import opened Monitor
  import opened MonitorMirror

  // ---- What the downward searches find ----

  /** Position j is the last one of the book with this ticket. */
  predicate LastAt(book: seq<Position>, ticket: nat, j: int) {
    0 <= j < |book| && book[j].ticket == ticket && forall l :: j < l < |book| ==> book[l].ticket != ticket
  }

  lemma {:induction false} FindPositionAt(book: seq<Position>, ticket: nat) returns (j: int)
    ensures FindPosition(book, ticket).Some? ==> LastAt(book, ticket, j) && book[j] == FindPosition(book, ticket).value
    ensures FindPosition(book, ticket) == None ==> forall l :: 0 <= l < |book| ==> book[l].ticket != ticket
  {
    j := |book| - 1;
    if book != [] && book[j].ticket != ticket {
      var n := j;
      j := FindPositionAt(book[..n], ticket);
      assert forall l :: 0 <= l < n ==> book[..n][l] == book[l];
    }
  }

  /** The search finds the last position with the ticket, and nothing only if there is none. */
  lemma FindPositionIff(book: seq<Position>, ticket: nat, p: Position)
    ensures FindPosition(book, ticket) == Some(p) <==> exists j :: LastAt(book, ticket, j) && book[j] == p
    ensures FindPosition(book, ticket) == None <==> forall j :: 0 <= j < |book| ==> book[j].ticket != ticket
  {
    var j := FindPositionAt(book, ticket);
    if l :| LastAt(book, ticket, l) && book[l] == p { assert l == j; }
  }

  /** Deal i is the newest closing deal of this position. */
  predicate NewestClose(deals: seq<Deal>, ticket: nat, i: int) {
    && 0 <= i < |deals| && deals[i].position == ticket && deals[i].out
    && forall j :: i < j < |deals| ==> !(deals[j].position == ticket && deals[j].out)
  }

  lemma {:induction false} FindCloseAt(deals: seq<Deal>, ticket: nat) returns (i: int)
    ensures FindClose(deals, ticket).Some? ==>
              NewestClose(deals, ticket, i) && deals[i] == FindClose(deals, ticket).value
    ensures FindClose(deals, ticket) == None ==>
              forall l :: 0 <= l < |deals| ==> !(deals[l].position == ticket && deals[l].out)
  {
    i := |deals| - 1;
    if deals != [] && !(deals[i].position == ticket && deals[i].out) {
      var n := i;
      i := FindCloseAt(deals[..n], ticket);
      assert forall l :: 0 <= l < n ==> deals[..n][l] == deals[l];
    }
  }

  /** The search finds the newest closing deal of the position, and nothing only if there
      is none. */
  lemma FindCloseIff(deals: seq<Deal>, ticket: nat, d: Deal)
    ensures FindClose(deals, ticket) == Some(d) <==> exists i :: NewestClose(deals, ticket, i) && deals[i] == d
    ensures FindClose(deals, ticket) == None
       <==> forall i :: 0 <= i < |deals| ==> !(deals[i].position == ticket && deals[i].out)
  {
    var i := FindCloseAt(deals, ticket);
    if l :| NewestClose(deals, ticket, l) && deals[l] == d { assert l == i; }
  }

  // ---- The signals of a scan ----

  predicate Describes(sig: Signal, p: Position) {
    && sig.ticket == p.ticket && sig.symbol == p.symbol && sig.buy == p.buy && sig.price == p.price
    && sig.sl == p.sl && sig.tp == p.tp && sig.lot == p.lot
  }

  predicate KnownAt(known: seq<TicketState>, i: int, ticket: nat) {
    0 <= i < |known| && known[i].ticket == ticket
  }

  /** A stop moved by more than 1e-6. */
  predicate StopChanged(k: TicketState, p: Position) {
    p.sl - k.sl > 0.000001 || k.sl - p.sl > 0.000001 || p.tp - k.tp > 0.000001 || k.tp - p.tp > 0.000001
  }

  /** The volume fell by more than 0.001. */
  predicate VolumeFell(k: TicketState, p: Position) { k.lot - p.lot > 0.001 }

  /** A CLOSE carries the closing deal's own fields and no stops. */
  predicate Closes(sig: Signal, d: Deal) {
    && sig.ticket == d.position && sig.symbol == d.symbol && sig.buy == d.buy && sig.price == d.price
    && sig.lot == d.volume && sig.sl == 0.0 && sig.tp == 0.0
  }

  /** The reason for a signal. */
  ghost predicate Warranted(sig: Signal, known: seq<TicketState>, book: seq<Position>, deals: seq<Deal>) {
    match sig.kind
    case OPEN =>
      && sig.ticket != 0 && (forall i :: 0 <= i < |known| ==> known[i].ticket != sig.ticket)
      && exists j :: LastAt(book, sig.ticket, j) && Describes(sig, book[j])
    case MODIFY =>
      exists i, j :: KnownAt(known, i, sig.ticket) && LastAt(book, sig.ticket, j)
                     && Describes(sig, book[j]) && StopChanged(known[i], book[j])
    case PARTIAL =>
      exists i, j :: KnownAt(known, i, sig.ticket) && LastAt(book, sig.ticket, j)
                     && Describes(sig, book[j]) && VolumeFell(known[i], book[j])
    case CLOSE =>
      && (exists i :: KnownAt(known, i, sig.ticket))
      && (forall j :: 0 <= j < |book| ==> book[j].ticket != sig.ticket)
      && exists d :: NewestClose(deals, sig.ticket, d) && deals[d].price > 0.0 && Closes(sig, deals[d])
  }

  // ---- Every signal is warranted ----

  lemma UpdateTruthful(known: seq<TicketState>, i: nat, book: seq<Position>, deals: seq<Deal>, sig: Signal)
    requires i < |known| && FindPosition(book, known[i].ticket).Some?
    requires sig in UpdateSignals(known[i], FindPosition(book, known[i].ticket).value)
    ensures Warranted(sig, known, book, deals)
  {
    var ticket := known[i].ticket;
    var p := FindPosition(book, ticket).value;
    FindPositionIff(book, ticket, p);
    var j :| LastAt(book, ticket, j) && book[j] == p;
    assert KnownAt(known, i, ticket) && Describes(sig, book[j]);
    if sig.kind == MODIFY { assert StopChanged(known[i], book[j]); } else { assert VolumeFell(known[i], book[j]); }
  }

  lemma CloseTruthful(known: seq<TicketState>, i: nat, book: seq<Position>, deals: seq<Deal>, sig: Signal)
    requires i < |known| && FindPosition(book, known[i].ticket) == None
    requires sig in CloseSignals(deals, known[i].ticket)
    ensures Warranted(sig, known, book, deals)
  {
    var ticket := known[i].ticket;
    var deal := FindClose(deals, ticket).value;
    FindCloseIff(deals, ticket, deal);
    var d :| NewestClose(deals, ticket, d) && deals[d] == deal;
    assert KnownAt(known, i, ticket) && Closes(sig, deals[d]);
    if book != [] { FindPositionIff(book, ticket, book[0]); }
  }

  lemma {:induction false} FirstLoopTruthful(known: seq<TicketState>, n: nat, book: seq<Position>, deals: seq<Deal>,
                                             sig: Signal)
    requires n <= |known| && sig in UpdateAndClose(known[..n], book, deals)
    ensures Warranted(sig, known, book, deals)
    decreases n
  {
    assert known[..n][..n - 1] == known[..n - 1];
    if sig in TicketSignals(known[n - 1], book, deals) {
      if FindPosition(book, known[n - 1].ticket).Some? {
        UpdateTruthful(known, n - 1, book, deals, sig);
      } else {
        CloseTruthful(known, n - 1, book, deals, sig);
      }
    } else {
      FirstLoopTruthful(known, n - 1, book, deals, sig);
    }
  }

  /** The second loop reports each new position as it stands, and only new ones. */
  lemma {:induction false} SecondLoopTruthful(known: seq<TicketState>, whole: seq<Position>, n: nat, sig: Signal)
    requires n <= |whole| && sig in OpenSignals(known, whole[..n])
    requires forall j :: n <= j < |whole| && whole[j].ticket != 0 ==> IsKnown(known, whole[j].ticket)
    ensures sig.kind == OPEN && sig.ticket != 0 && !IsKnown(known, sig.ticket)
    ensures exists j :: LastAt(whole, sig.ticket, j) && Describes(sig, whole[j])
    decreases n
  {
    var p := whole[n - 1];
    assert whole[..n][..n - 1] == whole[..n - 1];
    if !IsNew(known, p) {
      SecondLoopTruthful(known, whole, n - 1, sig);
    } else if sig == Report(p, OPEN) {
      assert LastAt(whole, p.ticket, n - 1);
    } else {
      var grown := known + [StateOf(p)];
      forall j | n - 1 <= j < |whole| && whole[j].ticket != 0 ensures IsKnown(grown, whole[j].ticket) {
        IsKnownGrows(known, p, whole[j].ticket);
      }
      SecondLoopTruthful(grown, whole, n - 1, sig);
      if IsKnown(known, sig.ticket) { IsKnownGrows(known, p, sig.ticket); }
    }
  }

  /** A known ticket survives the first loop exactly if it is still in the book. */
  lemma SurvivingKnown(known: seq<TicketState>, book: seq<Position>, ticket: nat)
    ensures IsKnown(Surviving(known, book), ticket) <==> IsKnown(known, ticket) && FindPosition(book, ticket).Some?
  {
    var s := Surviving(known, book);
    if IsKnown(s, ticket) {
      var i :| 0 <= i < |s| && s[i].ticket == ticket;
      SurvivorSource(known, book, s[i]);
    }
    if IsKnown(known, ticket) && FindPosition(book, ticket).Some? {
      var i :| 0 <= i < |known| && known[i].ticket == ticket;
      SurvivorStays(known, book, i);
    }
  }

  /** Every signal of a scan carries the live position as it stands or the newest closing
      deal of its own ticket, and is sent for the reason its type names. */
  lemma SignalsAreTruthful(known: seq<TicketState>, book: seq<Position>, deals: seq<Deal>, sig: Signal)
    requires sig in ScanSignals(known, book, deals)
    ensures Warranted(sig, known, book, deals)
  {
    assert known[..|known|] == known && book[..|book|] == book;
    if sig in UpdateAndClose(known, book, deals) {
      FirstLoopTruthful(known, |known|, book, deals, sig);
    } else {
      SecondLoopTruthful(Surviving(known, book), book, |book|, sig);
      SurvivingKnown(known, book, sig.ticket);
      var j :| LastAt(book, sig.ticket, j) && Describes(sig, book[j]);
      FindPositionIff(book, sig.ticket, book[j]);
    }
  }

  // ---- Every warranted signal is sent ----

  lemma {:induction false} FirstLoopSends(known: seq<TicketState>, i: nat, book: seq<Position>, deals: seq<Deal>,
                                          sig: Signal)
    requires i < |known| && sig in TicketSignals(known[i], book, deals)
    ensures sig in UpdateAndClose(known, book, deals)
    decreases |known|
  {
    var n := |known| - 1;
    if i < n { FirstLoopSends(known[..n], i, book, deals, sig); }
  }

  lemma {:induction false} SecondLoopSends(known: seq<TicketState>, whole: seq<Position>, n: nat, j: nat)
    requires j < n <= |whole| && LastAt(whole, whole[j].ticket, j)
    requires whole[j].ticket != 0 && !IsKnown(known, whole[j].ticket)
    ensures Report(whole[j], OPEN) in OpenSignals(known, whole[..n])
    decreases n
  {
    var p := whole[n - 1];
    assert whole[..n][..n - 1] == whole[..n - 1];
    if j < n - 1 {
      assert p.ticket != whole[j].ticket;
      if IsNew(known, p) {
        SecondLoopSends(known + [StateOf(p)], whole, n - 1, j);
      } else {
        SecondLoopSends(known, whole, n - 1, j);
      }
    }
  }

  lemma UpdateSent(known: seq<TicketState>, book: seq<Position>, deals: seq<Deal>, sig: Signal, i: nat, j: nat)
    requires KnownAt(known, i, sig.ticket) && LastAt(book, sig.ticket, j) && Describes(sig, book[j])
    requires (sig.kind == MODIFY && StopChanged(known[i], book[j]))
          || (sig.kind == PARTIAL && VolumeFell(known[i], book[j]))
    ensures sig in UpdateAndClose(known, book, deals)
  {
    FindPositionIff(book, sig.ticket, book[j]);
    assert sig == Report(book[j], sig.kind) && sig in UpdateSignals(known[i], book[j]);
    FirstLoopSends(known, i, book, deals, sig);
  }

  lemma CloseSent(known: seq<TicketState>, book: seq<Position>, deals: seq<Deal>, sig: Signal)
    requires sig.kind == CLOSE && Warranted(sig, known, book, deals)
    ensures sig in UpdateAndClose(known, book, deals)
  {
    var i :| KnownAt(known, i, sig.ticket);
    var d :| NewestClose(deals, sig.ticket, d) && deals[d].price > 0.0 && Closes(sig, deals[d]);
    FindCloseIff(deals, sig.ticket, deals[d]);
    if FindPosition(book, sig.ticket).Some? {
      FindPositionIff(book, sig.ticket, FindPosition(book, sig.ticket).value);
    }
    assert sig in CloseSignals(deals, sig.ticket);
    FirstLoopSends(known, i, book, deals, sig);
  }

  lemma OpenSent(known: seq<TicketState>, book: seq<Position>, deals: seq<Deal>, sig: Signal)
    requires sig.kind == OPEN && Warranted(sig, known, book, deals)
    ensures sig in OpenSignals(Surviving(known, book), book)
  {
    var j :| LastAt(book, sig.ticket, j) && Describes(sig, book[j]);
    SurvivingKnown(known, book, sig.ticket);
    SecondLoopSends(Surviving(known, book), book, |book|, j);
    assert book[..|book|] == book && sig == Report(book[j], OPEN);
  }

  /** A scan sends exactly the warranted signals: an OPEN for each new position, a MODIFY or
      PARTIAL for each known ticket whose stops moved or whose volume fell by more than
      the tolerance, and a CLOSE for each vanished ticket with a closing deal. */
  lemma ScanSignalsIff(known: seq<TicketState>, book: seq<Position>, deals: seq<Deal>, sig: Signal)
    ensures sig in ScanSignals(known, book, deals) <==> Warranted(sig, known, book, deals)
  {
    if sig in ScanSignals(known, book, deals) { SignalsAreTruthful(known, book, deals, sig); }
    if Warranted(sig, known, book, deals) {
      match sig.kind
      case OPEN => OpenSent(known, book, deals, sig);
      case CLOSE => CloseSent(known, book, deals, sig);
      case MODIFY =>
        var i, j :| KnownAt(known, i, sig.ticket) && LastAt(book, sig.ticket, j)
                    && Describes(sig, book[j]) && StopChanged(known[i], book[j]);
        UpdateSent(known, book, deals, sig, i, j);
      case PARTIAL =>
        var i, j :| KnownAt(known, i, sig.ticket) && LastAt(book, sig.ticket, j)
                    && Describes(sig, book[j]) && VolumeFell(known[i], book[j]);
        UpdateSent(known, book, deals, sig, i, j);
    }
  }

  // ---- Loading ----

  /** Loading keeps a saved ticket exactly if it is still in the book. */
  lemma StillOpenOne(k: TicketState, book: seq<Position>)
    ensures StillOpen([k], book) == if exists j :: 0 <= j < |book| && book[j].ticket == k.ticket then [k] else []
  {
    assert [k][..0] == [];
    if FindPosition(book, k.ticket).Some? {
      FindPositionIff(book, k.ticket, FindPosition(book, k.ticket).value);
    } else if book != [] {
      FindPositionIff(book, k.ticket, book[0]);
    }
  }

  /** It decides each ticket by itself and keeps the order. */
  lemma {:induction false} StillOpenConcat(a: seq<TicketState>, b: seq<TicketState>, book: seq<Position>)
    ensures StillOpen(a + b, book) == StillOpen(a, book) + StillOpen(b, book)
  {
    if b == [] {
      assert a + b == a && StillOpen(a, book) + [] == StillOpen(a, book);
    } else {
      var n := |b| - 1;
      assert (a + b)[..|a| + n] == a + b[..n] && (a + b)[|a| + n] == b[n];
      StillOpenConcat(a, b[..n], book);
    }
  }
}
