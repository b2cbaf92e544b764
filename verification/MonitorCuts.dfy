/** Deaths of the monitor between a signal and the state file: a scan as a series of
    reports, each sent and then saved, any of which may be cut short. */
module MonitorCuts {
  import opened Wrappers
  import opened Monitor
  import opened MonitorMirror
  import opened MonitorRuns

  /** One report of a scan about the known ticket i or a new position. */
  datatype Step =
    | Modify(i: nat, p: Position)
    | Partial(i: nat, p: Position)
    | Gone(i: nat, deals: seq<Deal>)
    | Opened(p: Position)

  predicate Due(known: seq<TicketState>, r: Step) {
    match r
    case Modify(i, p) => i < |known| && known[i].ticket == p.ticket && StopsMoved(known[i], p)
    case Partial(i, p) => i < |known| && known[i].ticket == p.ticket && LotShrunk(known[i], p)
    case Gone(i, _) => i < |known|
    case Opened(p) => IsNew(known, p)
  }

  function TicketOf(known: seq<TicketState>, r: Step): nat
    requires Due(known, r)
  {
    match r case Opened(p) => p.ticket case _ => known[r.i].ticket
  }

  /** The array after a report. */
  function Recorded(known: seq<TicketState>, r: Step): seq<TicketState>
    requires Due(known, r)
  {
    match r
    case Modify(i, p) => known[i := known[i].(sl := p.sl, tp := p.tp)]
    case Partial(i, p) => known[i := known[i].(lot := p.lot)]
    case Gone(i, _) => known[..i] + known[i + 1..]
    case Opened(p) => known + [StateOf(p)]
  }

  function Reported(known: seq<TicketState>, r: Step): seq<Signal>
    requires Due(known, r)
  {
    match r
    case Modify(_, p) => [Report(p, MODIFY)]
    case Partial(_, p) => [Report(p, PARTIAL)]
    case Gone(i, deals) => CloseSignals(deals, known[i].ticket)
    case Opened(p) => [Report(p, OPEN)]
  }

  // ---- A scan is a series of reports ----

  predicate AllDue(known: seq<TicketState>, steps: seq<Step>)
    decreases |steps|
  {
    steps != [] ==> Due(known, steps[0]) && AllDue(Recorded(known, steps[0]), steps[1..])
  }

  function ArrayAfter(known: seq<TicketState>, steps: seq<Step>): seq<TicketState>
    requires AllDue(known, steps)
    decreases |steps|
  {
    if steps == [] then known else ArrayAfter(Recorded(known, steps[0]), steps[1..])
  }

  function SignalsOf(known: seq<TicketState>, steps: seq<Step>): seq<Signal>
    requires AllDue(known, steps)
    decreases |steps|
  {
    if steps == [] then [] else Reported(known, steps[0]) + SignalsOf(Recorded(known, steps[0]), steps[1..])
  }

  /** Running steps leads from one array to another and sends these signals. */
  ghost predicate Leads(known: seq<TicketState>, steps: seq<Step>, after: seq<TicketState>, sent: seq<Signal>) {
    AllDue(known, steps) && ArrayAfter(known, steps) == after && SignalsOf(known, steps) == sent
  }

  lemma LeadsFirst(a: seq<TicketState>, r: Step, s: seq<Step>, b: seq<TicketState>, x: seq<Signal>)
    requires Due(a, r) && Leads(Recorded(a, r), s, b, x)
    ensures Leads(a, [r] + s, b, Reported(a, r) + x)
  {
    assert ([r] + s)[1..] == s;
  }

  lemma HeadFirst<T>(s: seq<T>, t: seq<T>)
    requires s != []
    ensures [s[0]] + (s[1..] + t) == s + t
  {}

  lemma EmptyFirst<T>(t: seq<T>)
    ensures [] + t == t
  {}

  lemma {:induction false} LeadsOn(a: seq<TicketState>, s: seq<Step>, b: seq<TicketState>, x: seq<Signal>,
                                   t: seq<Step>, c: seq<TicketState>, y: seq<Signal>)
    requires Leads(a, s, b, x) && Leads(b, t, c, y)
    ensures Leads(a, s + t, c, x + y)
    decreases |s|
  {
    if s == [] {
      EmptyFirst(t);
      EmptyFirst(y);
    } else {
      var a1, rest := Recorded(a, s[0]), SignalsOf(Recorded(a, s[0]), s[1..]);
      LeadsOn(a1, s[1..], b, rest, t, c, y);
      LeadsFirst(a, s[0], s[1..] + t, c, rest + y);
      HeadFirst(s, t);
      Reassociate(Reported(a, s[0]), rest, y);
    }
  }

  lemma LeadsOne(known: seq<TicketState>, r: Step)
    requires Due(known, r)
    ensures Leads(known, [r], Recorded(known, r), Reported(known, r))
  {
    assert [r][1..] == [];
    assert Reported(known, r) + [] == Reported(known, r);
  }

  /** What one turn of the first loop reports. */
  function TurnSteps(i: nat, k: TicketState, book: seq<Position>, deals: seq<Deal>): seq<Step> {
    match FindPosition(book, k.ticket)
    case None => [Gone(i, deals)]
    case Some(p) =>
      (if StopsMoved(k, p) then [Modify(i, p)] else []) + (if LotShrunk(k, p) then [Partial(i, p)] else [])
  }

  lemma {:induction false} FoundAsks(book: seq<Position>, ticket: nat)
    requires FindPosition(book, ticket).Some?
    ensures FindPosition(book, ticket).value.ticket == ticket
  {
    if book[|book| - 1].ticket != ticket { FoundAsks(book[..|book| - 1], ticket); }
  }

  lemma UpdateLeads(known: seq<TicketState>, i: nat, p: Position)
    requires i < |known| && known[i].ticket == p.ticket
    ensures var k := known[i];
            var steps := (if StopsMoved(k, p) then [Modify(i, p)] else [])
                         + (if LotShrunk(k, p) then [Partial(i, p)] else []);
            Leads(known, steps, known[i := Updated(k, p)], UpdateSignals(k, p))
  {
    var k := known[i];
    var moved := if StopsMoved(k, p) then known[i := k.(sl := p.sl, tp := p.tp)] else known;
    var s := if StopsMoved(k, p) then [Modify(i, p)] else [];
    var t := if LotShrunk(k, p) then [Partial(i, p)] else [];
    var x := if StopsMoved(k, p) then [Report(p, MODIFY)] else [];
    var y := if LotShrunk(k, p) then [Report(p, PARTIAL)] else [];
    if StopsMoved(k, p) { LeadsOne(known, Modify(i, p)); }
    assert Leads(known, s, moved, x);
    if LotShrunk(k, p) { LeadsOne(moved, Partial(i, p)); }
    assert Leads(moved, t, known[i := Updated(k, p)], y);
    LeadsOn(known, s, moved, x, t, known[i := Updated(k, p)], y);
  }

  lemma GoneLeads(known: seq<TicketState>, i: nat, deals: seq<Deal>)
    requires i < |known|
    ensures Leads(known, [Gone(i, deals)], known[..i] + known[i + 1..], CloseSignals(deals, known[i].ticket))
  {
    LeadsOne(known, Gone(i, deals));
  }

  lemma TurnLeads(known: seq<TicketState>, i: nat, book: seq<Position>, deals: seq<Deal>)
    requires i < |known|
    ensures Leads(known, TurnSteps(i, known[i], book, deals), known[..i] + (Survivor(known[i], book) + known[i + 1..]),
                  TicketSignals(known[i], book, deals))
  {
    var k := known[i];
    match FindPosition(book, k.ticket)
    case None =>
      GoneLeads(known, i, deals);
      assert Survivor(k, book) + known[i + 1..] == known[i + 1..];
    case Some(p) =>
      FoundAsks(book, k.ticket);
      UpdateLeads(known, i, p);
      assert known[i := Updated(k, p)] == known[..i] + ([Updated(k, p)] + known[i + 1..]);
  }

  function FirstSteps(known: seq<TicketState>, book: seq<Position>, deals: seq<Deal>): seq<Step> {
    if known == [] then []
    else
      var n := |known| - 1;
      TurnSteps(n, known[n], book, deals) + FirstSteps(known[..n], book, deals)
  }

  lemma {:induction false} FirstLeads(known: seq<TicketState>, tail: seq<TicketState>, book: seq<Position>,
                                      deals: seq<Deal>)
    ensures Leads(known + tail, FirstSteps(known, book, deals), Surviving(known, book) + tail,
                  UpdateAndClose(known, book, deals))
    decreases |known|
  {
    if known != [] {
      var n := |known| - 1;
      var all, rest := known + tail, Survivor(known[n], book) + tail;
      assert all[n] == known[n] && all[..n] == known[..n] && all[n + 1..] == tail;
      TurnLeads(all, n, book, deals);
      FirstLeads(known[..n], rest, book, deals);
      LeadsOn(all, TurnSteps(n, known[n], book, deals), known[..n] + rest, TicketSignals(known[n], book, deals),
              FirstSteps(known[..n], book, deals), Surviving(known[..n], book) + rest,
              UpdateAndClose(known[..n], book, deals));
      Reassociate(Surviving(known[..n], book), Survivor(known[n], book), tail);
    } else {
      assert Surviving(known, book) + tail == known + tail;
    }
  }

  function OpenSteps(known: seq<TicketState>, book: seq<Position>): seq<Step>
    decreases |book|
  {
    if book == [] then []
    else
      var p := book[|book| - 1];
      if IsNew(known, p) then [Opened(p)] + OpenSteps(known + [StateOf(p)], book[..|book| - 1])
      else OpenSteps(known, book[..|book| - 1])
  }

  lemma {:induction false} OpenLeads(known: seq<TicketState>, book: seq<Position>)
    ensures Leads(known, OpenSteps(known, book), WithOpened(known, book), OpenSignals(known, book))
    decreases |book|
  {
    if book != [] {
      var init, p := book[..|book| - 1], book[|book| - 1];
      if IsNew(known, p) {
        var grown := known + [StateOf(p)];
        OpenLeads(grown, init);
        LeadsOne(known, Opened(p));
        LeadsOn(known, [Opened(p)], grown, [Report(p, OPEN)], OpenSteps(grown, init), WithOpened(grown, init),
                OpenSignals(grown, init));
      } else {
        OpenLeads(known, init);
      }
    }
  }

  /** A whole scan is a series of due reports with the scan's array and signals. */
  lemma ScanIsReports(known: seq<TicketState>, book: seq<Position>,
                      deals: seq<Deal>) returns (steps: seq<Step>)
    ensures Leads(known, steps, Scanned(known, book), ScanSignals(known, book, deals))
  {
    FirstLeads(known, [], book, deals);
    assert known + [] == known && Surviving(known, book) + [] == Surviving(known, book);
    OpenLeads(Surviving(known, book), book);
    steps := FirstSteps(known, book, deals) + OpenSteps(Surviving(known, book), book);
    LeadsOn(known, FirstSteps(known, book, deals), Surviving(known, book), UpdateAndClose(known, book, deals),
            OpenSteps(Surviving(known, book), book), Scanned(known, book), OpenSignals(Surviving(known, book), book));
  }

  // ---- Runs with deaths ----

  datatype State = State(known: seq<TicketState>, file: seq<TicketState>, sent: seq<Signal>)

  const START := State([], [], [])

  datatype Move =
    | Done(r: Step)                        // sent, recorded and saved
    | Cut(r: Step, book: seq<Position>)    // sent; dead before the save; started again on this book
    | Again(book: seq<Position>)           // a restart between reports

  /** A position that was gone when the EA started is not opened again: ticket numbers are
      not reused. */
  predicate Possible(s: State, e: Move) {
    !e.Again? ==> Due(s.known, e.r) && (e.r.Opened? ==> !IsKnown(s.file, e.r.p.ticket))
  }

  function Moved(s: State, e: Move): State
    requires Possible(s, e)
  {
    match e
    case Done(r) => State(Recorded(s.known, r), Recorded(s.known, r), s.sent + Reported(s.known, r))
    case Cut(r, book) => State(StillOpen(s.file, book), s.file, s.sent + Reported(s.known, r))
    case Again(book) => s.(known := StillOpen(s.file, book))
  }

  predicate Legal(es: seq<Move>)
    decreases |es|, 0
  {
    es != [] ==> Legal(es[..|es| - 1]) && Possible(After(es[..|es| - 1]), es[|es| - 1])
  }

  function After(es: seq<Move>): State
    requires Legal(es)
    decreases |es|, 1
  {
    if es == [] then START else Moved(After(es[..|es| - 1]), es[|es| - 1])
  }

  /** Which of a ticket's latest reports were sent and not saved. */
  datatype Torn = Torn(stops: bool, lot: bool, closed: bool)

  const WHOLE := Torn(false, false, false)

  function TornBy(s: State, e: Move, ticket: nat, before: Torn): Torn
    requires Possible(s, e)
  {
    if e.Again? || TicketOf(s.known, e.r) != ticket then before
    else
      match e.r
      case Modify(_, _) => before.(stops := e.Cut?)
      case Partial(_, _) => before.(lot := e.Cut?)
      case Gone(_, deals) => before.(closed := before.closed || (e.Cut? && CloseFound(deals, ticket)))
      case Opened(_) => WHOLE
  }

  function TornOf(es: seq<Move>, ticket: nat): Torn
    requires Legal(es)
  {
    if es == [] then WHOLE
    else TornBy(After(es[..|es| - 1]), es[|es| - 1], ticket, TornOf(es[..|es| - 1], ticket))
  }

  /** The mirror's copy of a ticket differs from its record exactly in what is torn. */
  predicate DiffersInTorn(m: Mirror, k: TicketState, torn: Torn) {
    && (k.ticket in m <==> !torn.closed)
    && (k.ticket in m ==>
          && (m[k.ticket].sl == k.sl && m[k.ticket].tp == k.tp <==> !torn.stops)
          && (m[k.ticket].lot == k.lot <==> !torn.lot))
  }

  function MirrorAt(s: State): Mirror { Fold(map[], s.sent) }

  function Lookup(m: Mirror, ticket: nat): Option<Copy> { if ticket in m then Some(m[ticket]) else None }

  /** What the signals of a report do to the mirror's copy of its ticket. */
  function Reflected(c: Option<Copy>, known: seq<TicketState>, r: Step): Option<Copy>
    requires Due(known, r)
  {
    match r
    case Modify(_, p) => if c == None then None else Some(c.value.(sl := p.sl, tp := p.tp))
    case Partial(_, p) => if c == None then None else Some(c.value.(lot := p.lot))
    case Gone(i, deals) => if CloseFound(deals, known[i].ticket) then None else c
    case Opened(p) => Some(CopyOf(StateOf(p)))
  }

  lemma MirrorReflects(m: Mirror, known: seq<TicketState>, r: Step, ticket: nat)
    requires Due(known, r)
    ensures Lookup(Fold(m, Reported(known, r)), ticket)
         == if ticket == TicketOf(known, r) then Reflected(Lookup(m, ticket), known, r) else Lookup(m, ticket)
  {
    var sigs := Reported(known, r);
    if sigs != [] { assert sigs[1..] == [] && Fold(m, sigs) == Apply(m, sigs[0]); }
  }

  lemma SentReflects(s: State, e: Move, ticket: nat)
    requires Possible(s, e) && !e.Again?
    ensures Lookup(MirrorAt(Moved(s, e)), ticket)
         == if ticket == TicketOf(s.known, e.r) then Reflected(Lookup(MirrorAt(s), ticket), s.known, e.r)
            else Lookup(MirrorAt(s), ticket)
  {
    FoldConcat(map[], s.sent, Reported(s.known, e.r));
    MirrorReflects(MirrorAt(s), s.known, e.r, ticket);
  }

  predicate Within(known: seq<TicketState>, file: seq<TicketState>) {
    forall i :: 0 <= i < |known| ==> known[i] in file
  }

  ghost predicate TornInv(s: State, es: seq<Move>)
    requires Legal(es)
  {
    && DistinctTickets(s.known) && DistinctTickets(s.file) && Within(s.known, s.file)
    && forall k :: k in s.file ==> DiffersInTorn(MirrorAt(s), k, TornOf(es, k.ticket))
  }

  lemma SameRecord(s: State, k: TicketState, i: nat)
    requires DistinctTickets(s.file) && Within(s.known, s.file)
    requires k in s.file && i < |s.known| && s.known[i].ticket == k.ticket
    ensures k == s.known[i]
  {
    assert s.known[i] in s.file;
    var a :| 0 <= a < |s.file| && s.file[a] == k;
    var b :| 0 <= b < |s.file| && s.file[b] == s.known[i];
  }

  /** A report that is not saved: the file keeps the old record. */
  lemma CutDiffers(s: State, es: seq<Move>, e: Move, k: TicketState)
    requires Legal(es) && TornInv(s, es) && Possible(s, e) && e.Cut? && k in s.file
    ensures DiffersInTorn(MirrorAt(Moved(s, e)), k, TornBy(s, e, k.ticket, TornOf(es, k.ticket)))
  {
    SentReflects(s, e, k.ticket);
    assert DiffersInTorn(MirrorAt(s), k, TornOf(es, k.ticket));
    assert IsKnown(s.file, k.ticket);
    if TicketOf(s.known, e.r) == k.ticket { SameRecord(s, k, e.r.i); }
  }

  lemma RecordedSource(known: seq<TicketState>, r: Step, j: nat) returns (l: nat)
    requires Due(known, r) && DistinctTickets(known) && j < |Recorded(known, r)|
    requires Recorded(known, r)[j].ticket != TicketOf(known, r)
    ensures l < |known| && known[l] == Recorded(known, r)[j]
  {
    l := if r.Gone? && j >= r.i then j + 1 else j;
  }

  /** A saved report: the record now is what was reported. */
  lemma DoneDiffers(s: State, es: seq<Move>, e: Move, j: nat)
    requires Legal(es) && TornInv(s, es) && Possible(s, e) && e.Done? && j < |Recorded(s.known, e.r)|
    ensures var k := Recorded(s.known, e.r)[j];
            DiffersInTorn(MirrorAt(Moved(s, e)), k, TornBy(s, e, k.ticket, TornOf(es, k.ticket)))
  {
    var k := Recorded(s.known, e.r)[j];
    SentReflects(s, e, k.ticket);
    if TicketOf(s.known, e.r) != k.ticket {
      var l := RecordedSource(s.known, e.r, j);
      assert s.known[l] in s.file;
    } else {
      match e.r
      case Modify(i, _) => assert j == i && s.known[i] in s.file;
      case Partial(i, _) => assert j == i && s.known[i] in s.file;
      case Opened(_) =>
      case Gone(_, _) =>
    }
  }

  lemma RecordedDistinct(known: seq<TicketState>, r: Step)
    requires Due(known, r) && DistinctTickets(known)
    ensures DistinctTickets(Recorded(known, r))
  {
    var after := Recorded(known, r);
    forall i, j | 0 <= i < j < |after| ensures after[i].ticket != after[j].ticket {
      if r.Gone? {
        assert after[i] == known[if i < r.i then i else i + 1] && after[j] == known[if j < r.i then j else j + 1];
      }
    }
  }

  lemma ReloadedWithin(file: seq<TicketState>, book: seq<Position>)
    requires DistinctTickets(file)
    ensures DistinctTickets(StillOpen(file, book)) && Within(StillOpen(file, book), file)
  {
    StillOpenDistinct(file, book);
    forall i | 0 <= i < |StillOpen(file, book)| ensures StillOpen(file, book)[i] in file {
      StillOpenMember(file, book, i);
    }
  }

  lemma TornStep(s: State, es: seq<Move>, e: Move)
    requires Legal(es) && s == After(es) && TornInv(s, es) && Possible(s, e)
    requires Legal(es + [e])
    ensures TornInv(Moved(s, e), es + [e])
  {
    var t := Moved(s, e);
    assert (es + [e])[..|es|] == es;
    match e
    case Done(r) =>
      RecordedDistinct(s.known, r);
      forall k | k in t.file ensures DiffersInTorn(MirrorAt(t), k, TornOf(es + [e], k.ticket)) {
        var j :| 0 <= j < |t.file| && t.file[j] == k;
        DoneDiffers(s, es, e, j);
      }
    case Cut(_, book) =>
      ReloadedWithin(s.file, book);
      forall k | k in t.file ensures DiffersInTorn(MirrorAt(t), k, TornOf(es + [e], k.ticket)) {
        CutDiffers(s, es, e, k);
      }
    case Again(book) =>
      ReloadedWithin(s.file, book);
  }

  lemma {:induction false} TornRun(es: seq<Move>)
    requires Legal(es)
    ensures TornInv(After(es), es)
  {
    if es != [] {
      var n := |es| - 1;
      TornRun(es[..n]);
      assert es == es[..n] + [es[n]];
      TornStep(After(es[..n]), es[..n], es[n]);
    }
  }

  /** Over every run of reports, restarts and deaths between a signal and its save: the
      fold of all signals agrees with the array on a known ticket exactly if its latest
      stop report, its latest volume report and its CLOSE, if any, were not cut short; and
      each part of the copy differs exactly if its own latest report was.  So after a
      death the copy stays wrong until the next report of the same kind about the ticket. */
  lemma AgreesUnlessTorn(es: seq<Move>, i: nat)
    requires Legal(es) && i < |After(es).known|
    ensures var s := After(es);
            var k, m := s.known[i], MirrorAt(s);
            && DiffersInTorn(m, k, TornOf(es, k.ticket))
            && (k.ticket in m && m[k.ticket] == CopyOf(k) <==> TornOf(es, k.ticket) == WHOLE)
  {
    TornRun(es);
    assert After(es).known[i] in After(es).file;
  }
}
