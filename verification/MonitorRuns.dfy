/** Every run of scans and restarts of the monitor. */
module MonitorRuns {
  import opened Monitor
  import opened MonitorMirror

  /** `seen` is the last volume each ticket was observed with. */
  datatype World = World(
    known: seq<TicketState>,
    file: seq<TicketState>,
    sent: seq<Signal>,
    orphans: set<nat>,
    seen: map<nat, real>)

  const INIT := World([], [], [], {}, map[])

  datatype Event =
    | Scan(book: seq<Position>, deals: seq<Deal>, saved: bool)
    | Restart(book: seq<Position>)

  function BookLots(book: seq<Position>): map<nat, real> {
    map j | 0 <= j < |book| && FindPosition(book, book[j].ticket).Some?
      :: book[j].ticket := FindPosition(book, book[j].ticket).value.lot
  }

  predicate Unchanged(w: World, book: seq<Position>, deals: seq<Deal>) {
    Scanned(w.known, book) == w.known && ScanSignals(w.known, book, deals) == []
  }

  /** Only a scan that changes nothing may leave the state file alone. */
  predicate Enabled(w: World, e: Event) {
    e.Scan? && !e.saved ==> Unchanged(w, e.book, e.deals)
  }

  function Next(w: World, e: Event): World {
    match e
    case Scan(book, deals, saved) =>
      var known := Scanned(w.known, book);
      World(known, if saved then known else w.file, w.sent + ScanSignals(w.known, book, deals),
            OrphansAfter(w.orphans, w.known, book, deals), w.seen + BookLots(book))
    case Restart(book) =>
      var known := StillOpen(w.file, book);
      w.(known := known, orphans := w.orphans + Tickets(w.known) - Tickets(known), seen := w.seen + BookLots(book))
  }

  predicate Valid(w: World, es: seq<Event>)
    decreases |es|
  {
    es == [] || (Enabled(w, es[0]) && Valid(Next(w, es[0]), es[1..]))
  }

  function Run(w: World, es: seq<Event>): World
    decreases |es|
  {
    if es == [] then w else Run(Next(w, es[0]), es[1..])
  }

  // ---- The mirror ----

  function MirrorOf(w: World): Mirror { Fold(map[], w.sent) }

  /** Both the array and the state file agree with the mirror. */
  predicate MirrorInv(w: World) {
    && Mirrors(MirrorOf(w), w.known, w.orphans)
    && Tickets(w.file) <= MirrorOf(w).Keys
    && Mirrors(MirrorOf(w), w.file, MirrorOf(w).Keys - Tickets(w.file))
  }

  lemma {:induction false} StillOpenMember(file: seq<TicketState>, book: seq<Position>, i: nat)
    requires i < |StillOpen(file, book)|
    ensures exists j :: 0 <= j < |file| && file[j] == StillOpen(file, book)[i]
  {
    var n := |file| - 1;
    if i < |StillOpen(file[..n], book)| {
      StillOpenMember(file[..n], book, i);
      var j :| 0 <= j < n && file[..n][j] == StillOpen(file, book)[i];
      assert file[j] == StillOpen(file, book)[i];
    }
  }

  lemma {:induction false} StillOpenDistinct(file: seq<TicketState>, book: seq<Position>)
    requires DistinctTickets(file)
    ensures DistinctTickets(StillOpen(file, book))
  {
    if file != [] {
      var n := |file| - 1;
      var kept := StillOpen(file[..n], book);
      StillOpenDistinct(file[..n], book);
      forall i | 0 <= i < |kept| ensures kept[i].ticket != file[n].ticket {
        StillOpenMember(file[..n], book, i);
      }
    }
  }

  lemma RestartMirrors(w: World, book: seq<Position>)
    requires MirrorInv(w)
    ensures MirrorInv(Next(w, Restart(book)))
  {
    var m := MirrorOf(w);
    var known := StillOpen(w.file, book);
    StillOpenDistinct(w.file, book);
    forall i | 0 <= i < |known| ensures known[i].ticket in m && m[known[i].ticket] == CopyOf(known[i]) {
      StillOpenMember(w.file, book, i);
    }
    assert m.Keys == Tickets(known) + (w.orphans + Tickets(w.known) - Tickets(known));
  }

  lemma ScanMirrorInv(w: World, book: seq<Position>, deals: seq<Deal>, saved: bool)
    requires MirrorInv(w) && Enabled(w, Scan(book, deals, saved))
    ensures MirrorInv(Next(w, Scan(book, deals, saved)))
  {
    var t := Next(w, Scan(book, deals, saved));
    FoldConcat(map[], w.sent, ScanSignals(w.known, book, deals));
    ScanMirrors(MirrorOf(w), w.known, w.orphans, book, deals);
    if saved {
      assert MirrorOf(t).Keys - Tickets(t.file) == t.orphans;
    } else {
      assert MirrorOf(t) == MirrorOf(w);
    }
  }

  lemma {:induction false} MirrorRun(w: World, es: seq<Event>)
    requires MirrorInv(w) && Valid(w, es)
    ensures MirrorInv(Run(w, es))
    decreases |es|
  {
    if es != [] {
      match es[0] {
        case Scan(book, deals, saved) => ScanMirrorInv(w, book, deals, saved);
        case Restart(book) => RestartMirrors(w, book);
      }
      MirrorRun(Next(w, es[0]), es[1..]);
    }
  }

  /** The mirror of a known-ticket array. */
  function AsMirror(known: seq<TicketState>): Mirror
    requires DistinctTickets(known)
  {
    map i | 0 <= i < |known| :: known[i].ticket := CopyOf(known[i])
  }

  lemma AsMirrorIff(m: Mirror, known: seq<TicketState>, orphans: set<nat>)
    requires Mirrors(m, known, orphans)
    ensures m == AsMirror(known) <==> orphans == {}
  {
    var a := AsMirror(known);
    assert a.Keys == Tickets(known);
    assert forall t :: t in a ==> t in m && m[t] == a[t];
    assert m.Keys == a.Keys + orphans;
  }

  /** In every run of scans and restarts, over any books and histories: the known
      tickets are distinct, folding all signals ever sent over an empty mirror gives
      their exact values, and the fold equals the array as a whole exactly when no
      ticket vanished unreported. */
  lemma FoldRebuildsKnown(es: seq<Event>)
    requires Valid(INIT, es)
    ensures var w := Run(INIT, es);
            && Mirrors(MirrorOf(w), w.known, w.orphans)
            && (MirrorOf(w) == AsMirror(w.known) <==> w.orphans == {})
  {
    MirrorRun(INIT, es);
    AsMirrorIff(MirrorOf(Run(INIT, es)), Run(INIT, es).known, Run(INIT, es).orphans);
  }

  /** A run of scans alone, with a closing deal in the history for every ticket that
      vanishes, never makes an orphan. */
  predicate ClosesReported(w: World, es: seq<Event>)
    decreases |es|
  {
    es != [] ==> && es[0].Scan?
                 && Unreported(w.known, es[0].book, es[0].deals) == {}
                 && ClosesReported(Next(w, es[0]), es[1..])
  }

  lemma {:induction false} NoOrphans(w: World, es: seq<Event>)
    requires w.orphans == {} && ClosesReported(w, es)
    ensures Run(w, es).orphans == {}
    decreases |es|
  {
    if es != [] { NoOrphans(Next(w, es[0]), es[1..]); }
  }

  lemma ScansRebuildKnown(es: seq<Event>)
    requires Valid(INIT, es) && ClosesReported(INIT, es)
    ensures DistinctTickets(Run(INIT, es).known)
    ensures Fold(map[], Run(INIT, es).sent) == AsMirror(Run(INIT, es).known)
  {
    FoldRebuildsKnown(es);
    NoOrphans(INIT, es);
  }

  // ---- Accuracy ----

  predicate StopsNear(k: TicketState, p: Position) {
    Abs(p.sl - k.sl) <= STOP_TOLERANCE && Abs(p.tp - k.tp) <= STOP_TOLERANCE
  }

  /** Every known ticket has a live position with stops within tolerance and a volume
      not more than the tolerance below the recorded one. */
  predicate Tracks(known: seq<TicketState>, book: seq<Position>) {
    forall i :: 0 <= i < |known| ==> TracksOne(known[i], book)
  }

  predicate TracksOne(k: TicketState, book: seq<Position>) {
    var p := FindPosition(book, k.ticket);
    p.Some? && k.ticket != 0 && StopsNear(k, p.value) && k.lot <= p.value.lot + LOT_TOLERANCE
  }

  predicate NonZero(known: seq<TicketState>) { forall i :: 0 <= i < |known| ==> known[i].ticket != 0 }

  lemma {:induction false} SurvivingTracks(known: seq<TicketState>, book: seq<Position>)
    requires NonZero(known)
    ensures Tracks(Surviving(known, book), book)
  {
    if known != [] { SurvivingTracks(known[..|known| - 1], book); }
  }

  /** A ticket recorded from the position that a search of the book finds. */
  predicate FromBook(k: TicketState, book: seq<Position>) {
    var p := FindPosition(book, k.ticket);
    k.ticket != 0 && p.Some? && k == StateOf(p.value)
  }

  /** After the second loop, having looked at whole[n..] already, a known ticket was
      known before or is recorded exactly as it stands in the book. */
  lemma {:induction false} OpenedSource(known: seq<TicketState>, whole: seq<Position>, n: nat, k: TicketState)
    requires n <= |whole| && k in WithOpened(known, whole[..n])
    requires forall j :: n <= j < |whole| && whole[j].ticket != 0 ==> IsKnown(known, whole[j].ticket)
    ensures k in known || FromBook(k, whole)
    decreases n
  {
    if n > 0 {
      var p := whole[n - 1];
      assert whole[..n][..n - 1] == whole[..n - 1];
      if IsNew(known, p) {
        SearchBack(whole, n, p.ticket);
        forall j | n - 1 <= j < |whole| && whole[j].ticket != 0
          ensures IsKnown(known + [StateOf(p)], whole[j].ticket)
        {
          IsKnownGrows(known, p, whole[j].ticket);
        }
        OpenedSource(known + [StateOf(p)], whole, n - 1, k);
      } else {
        OpenedSource(known, whole, n - 1, k);
      }
    }
  }

  lemma ScannedSource(known: seq<TicketState>, book: seq<Position>, k: TicketState)
    requires k in Scanned(known, book)
    ensures k in Surviving(known, book) || FromBook(k, book)
  {
    assert book[..|book|] == book;
    OpenedSource(Surviving(known, book), book, |book|, k);
  }

  lemma ScanTracks(known: seq<TicketState>, book: seq<Position>)
    requires NonZero(known)
    ensures Tracks(Scanned(known, book), book)
  {
    SurvivingTracks(known, book);
    var after := Scanned(known, book);
    forall i | 0 <= i < |after| ensures TracksOne(after[i], book) {
      ScannedSource(known, book, after[i]);
    }
  }

  /** A recorded volume follows the live one within the tolerance exactly when the live
      one did not grow past it: an increase is never reported. */
  lemma LotFollowsIffNotGrown(k: TicketState, p: Position)
    ensures Abs(Updated(k, p).lot - p.lot) <= LOT_TOLERANCE <==> p.lot <= k.lot + LOT_TOLERANCE
  {}

  // ---- Accuracy over every run ----

  predicate StopsAccurate(k: TicketState, book: seq<Position>) {
    FindPosition(book, k.ticket).Some? && StopsNear(k, FindPosition(book, k.ticket).value)
  }

  predicate LotAccurate(k: TicketState, book: seq<Position>) {
    FindPosition(book, k.ticket).Some? && Abs(k.lot - FindPosition(book, k.ticket).value.lot) <= LOT_TOLERANCE
  }

  /** The live volume of a known ticket exceeds the one last reported for it. */
  predicate GrewUnreported(w: World, ticket: nat, book: seq<Position>) {
    && ticket in Tickets(w.known) && ticket in MirrorOf(w) && FindPosition(book, ticket).Some?
    && FindPosition(book, ticket).value.lot > MirrorOf(w)[ticket].lot + LOT_TOLERANCE
  }

  lemma {:induction false} OpenedKeeps(known: seq<TicketState>, book: seq<Position>)
    ensures known <= WithOpened(known, book)
    decreases |book|
  {
    if book != [] {
      var p := book[|book| - 1];
      OpenedKeeps(if IsNew(known, p) then known + [StateOf(p)] else known, book[..|book| - 1]);
    }
  }

  /** A recorded ticket that was known before is the update of the one known before. */
  lemma KnownStays(w: World, book: seq<Position>, i: nat) returns (j: nat)
    requires MirrorInv(w) && DistinctTickets(Scanned(w.known, book)) && i < |Scanned(w.known, book)|
    requires Scanned(w.known, book)[i].ticket in Tickets(w.known)
    requires FindPosition(book, Scanned(w.known, book)[i].ticket).Some?
    ensures j < |w.known| && w.known[j].ticket == Scanned(w.known, book)[i].ticket
    ensures Scanned(w.known, book)[i] == Updated(w.known[j], FindPosition(book, w.known[j].ticket).value)
  {
    var known := Scanned(w.known, book);
    var l :| 0 <= l < |w.known| && w.known[l].ticket == known[i].ticket;
    j := l;
    var k := Updated(w.known[j], FindPosition(book, w.known[j].ticket).value);
    SurvivorStays(w.known, book, j);
    OpenedKeeps(Surviving(w.known, book), book);
    var m :| 0 <= m < |Surviving(w.known, book)| && Surviving(w.known, book)[m] == k;
    assert known[m] == k;
  }

  lemma LotAccurateIff(w: World, book: seq<Position>, i: nat)
    requires MirrorInv(w) && DistinctTickets(Scanned(w.known, book)) && i < |Scanned(w.known, book)|
    requires FindPosition(book, Scanned(w.known, book)[i].ticket).Some?
    ensures LotAccurate(Scanned(w.known, book)[i], book)
       <==> !GrewUnreported(w, Scanned(w.known, book)[i].ticket, book)
  {
    var k := Scanned(w.known, book)[i];
    if k.ticket in Tickets(w.known) {
      var j := KnownStays(w, book, i);
      LotFollowsIffNotGrown(w.known[j], FindPosition(book, k.ticket).value);
      assert MirrorOf(w)[k.ticket] == CopyOf(w.known[j]);
    } else {
      ScannedSource(w.known, book, k);
      if k in Surviving(w.known, book) {
        SurvivorSource(w.known, book, k);
        assert false;
      }
    }
  }

  /** After any run of scans and restarts over any books, a scan leaves exactly the live
      tickets known, each once, with stops within 1e-6 of the live position; and the
      volume is within 0.001 exactly if the live one did not grow past the volume last
      reported for the ticket.  No drift accumulates. */
  lemma ScanIsAccurate(es: seq<Event>, book: seq<Position>, deals: seq<Deal>)
    requires Valid(INIT, es)
    ensures var w := Run(INIT, es);
            var known := Scanned(w.known, book);
            && DistinctTickets(known)
            && Tickets(known) == Live(book)
            && (forall i :: 0 <= i < |known| ==> StopsAccurate(known[i], book))
            && (forall i :: 0 <= i < |known| ==>
                  (LotAccurate(known[i], book) <==> !GrewUnreported(w, known[i].ticket, book)))
  {
    var w := Run(INIT, es);
    var known := Scanned(w.known, book);
    MirrorRun(INIT, es);
    NonZeroRun(INIT, es);
    ScanMirrorInv(w, book, deals, true);
    ScanTracks(w.known, book);
    ScanTickets(w, book, deals);
    forall i | 0 <= i < |known|
      ensures StopsAccurate(known[i], book)
      ensures LotAccurate(known[i], book) <==> !GrewUnreported(w, known[i].ticket, book)
    {
      assert TracksOne(known[i], book);
      LotAccurateIff(w, book, i);
    }
  }

  lemma ScannedNonZero(known: seq<TicketState>, book: seq<Position>)
    requires NonZero(known)
    ensures NonZero(Scanned(known, book))
  {
    ScanTracks(known, book);
    var after := Scanned(known, book);
    forall i | 0 <= i < |after| ensures after[i].ticket != 0 { assert TracksOne(after[i], book); }
  }

  lemma {:induction false} NonZeroRun(w: World, es: seq<Event>)
    requires NonZero(w.known) && NonZero(w.file) && Valid(w, es)
    ensures NonZero(Run(w, es).known) && NonZero(Run(w, es).file)
    decreases |es|
  {
    if es != [] {
      match es[0] {
        case Scan(book, _, _) => ScannedNonZero(w.known, book);
        case Restart(book) =>
          forall i | 0 <= i < |StillOpen(w.file, book)| ensures StillOpen(w.file, book)[i].ticket != 0 {
            StillOpenMember(w.file, book, i);
          }
      }
      NonZeroRun(Next(w, es[0]), es[1..]);
    }
  }

  // ---- Accuracy over runs with volumes that never grow ----

  predicate LotsShrink(w: World, es: seq<Event>)
    decreases |es|
  {
    es != [] ==>
      && (forall t :: t in BookLots(es[0].book) && t in w.seen ==> BookLots(es[0].book)[t] <= w.seen[t])
      && LotsShrink(Next(w, es[0]), es[1..])
  }

  predicate Covers(known: seq<TicketState>, seen: map<nat, real>) {
    forall i :: 0 <= i < |known| ==> CoversOne(known[i], seen)
  }

  predicate CoversOne(k: TicketState, seen: map<nat, real>) {
    k.ticket != 0 && k.ticket in seen && seen[k.ticket] <= k.lot
  }

  predicate LotInv(w: World) { Covers(w.known, w.seen) && Covers(w.file, w.seen) }

  lemma {:induction false} BookLotOf(book: seq<Position>, ticket: nat)
    ensures FindPosition(book, ticket).Some? <==> ticket in BookLots(book)
    ensures FindPosition(book, ticket).Some? ==> BookLots(book)[ticket] == FindPosition(book, ticket).value.lot
  {
    SearchFinds(book, ticket);
    if FindPosition(book, ticket).Some? {
      var j :| 0 <= j < |book| && book[j].ticket == ticket;
    }
  }

  lemma {:induction false} SearchFinds(book: seq<Position>, ticket: nat)
    ensures FindPosition(book, ticket).Some? <==> exists j :: 0 <= j < |book| && book[j].ticket == ticket
  {
    if book != [] {
      var n := |book| - 1;
      SearchFinds(book[..n], ticket);
      if FindPosition(book[..n], ticket).Some? {
        var j :| 0 <= j < n && book[..n][j].ticket == ticket;
        assert book[j].ticket == ticket;
      }
      if j :| 0 <= j < |book| && book[j].ticket == ticket && j != n { assert book[..n][j].ticket == ticket; }
    }
  }

  lemma CoversLater(known: seq<TicketState>, seen: map<nat, real>, book: seq<Position>)
    requires Covers(known, seen)
    requires forall t :: t in BookLots(book) && t in seen ==> BookLots(book)[t] <= seen[t]
    ensures Covers(known, seen + BookLots(book))
  {}

  lemma {:induction false} SurvivingCovers(known: seq<TicketState>, seen: map<nat, real>, book: seq<Position>)
    requires Covers(known, seen + BookLots(book))
    ensures Covers(Surviving(known, book), seen + BookLots(book))
  {
    if known != [] {
      var n := |known| - 1;
      SurvivingCovers(known[..n], seen, book);
      BookLotOf(book, known[n].ticket);
    }
  }

  lemma ScannedCovers(known: seq<TicketState>, seen: map<nat, real>, book: seq<Position>)
    requires Covers(known, seen + BookLots(book))
    ensures Covers(Scanned(known, book), seen + BookLots(book))
  {
    SurvivingCovers(known, seen, book);
    var after := Scanned(known, book);
    forall i | 0 <= i < |after| ensures CoversOne(after[i], seen + BookLots(book)) {
      ScannedSource(known, book, after[i]);
      BookLotOf(book, after[i].ticket);
    }
  }

  lemma LotStep(w: World, e: Event)
    requires LotInv(w) && Enabled(w, e)
    requires forall t :: t in BookLots(e.book) && t in w.seen ==> BookLots(e.book)[t] <= w.seen[t]
    ensures LotInv(Next(w, e))
  {
    CoversLater(w.known, w.seen, e.book);
    CoversLater(w.file, w.seen, e.book);
    match e
    case Scan(book, _, _) => ScannedCovers(w.known, w.seen, book);
    case Restart(book) =>
      var known := StillOpen(w.file, book);
      forall i | 0 <= i < |known| ensures exists j :: 0 <= j < |w.file| && w.file[j] == known[i] {
        StillOpenMember(w.file, book, i);
      }
  }

  lemma {:induction false} LotRun(w: World, es: seq<Event>)
    requires LotInv(w) && Valid(w, es) && LotsShrink(w, es)
    ensures LotInv(Run(w, es))
    decreases |es|
  {
    if es != [] {
      LotStep(w, es[0]);
      LotRun(Next(w, es[0]), es[1..]);
    }
  }

  /** While no volume ever grows, every recorded volume is within 0.001 of the live one. */
  lemma ShrinkingVolumesFollow(es: seq<Event>, book: seq<Position>, deals: seq<Deal>)
    requires Valid(INIT, es) && LotsShrink(INIT, es)
    requires var seen := Run(INIT, es).seen;
             forall t :: t in BookLots(book) && t in seen ==> BookLots(book)[t] <= seen[t]
    ensures var known := Scanned(Run(INIT, es).known, book);
            forall i :: 0 <= i < |known| ==> LotAccurate(known[i], book)
  {
    var w := Run(INIT, es);
    LotRun(INIT, es);
    ScanTracks(w.known, book);
    LotStep(w, Scan(book, deals, true));
    LotsNear(Scanned(w.known, book), w.seen, book);
  }

  lemma LotsNear(known: seq<TicketState>, seen: map<nat, real>, book: seq<Position>)
    requires Tracks(known, book) && Covers(known, seen + BookLots(book))
    ensures forall i :: 0 <= i < |known| ==> LotAccurate(known[i], book)
  {
    forall i | 0 <= i < |known| ensures LotAccurate(known[i], book) {
      assert TracksOne(known[i], book) && CoversOne(known[i], seen + BookLots(book));
      BookLotOf(book, known[i].ticket);
    }
  }

  lemma ScanTickets(w: World, book: seq<Position>, deals: seq<Deal>)
    requires MirrorInv(w) && Tracks(Scanned(w.known, book), book)
    ensures Tickets(Scanned(w.known, book)) == Live(book)
  {
    var known := Scanned(w.known, book);
    var s := Surviving(w.known, book);
    assert w.known + [] == w.known && s + [] == s;
    FirstLoop(MirrorOf(w), w.known, [], w.orphans, book, deals);
    SecondLoop(Fold(MirrorOf(w), UpdateAndClose(w.known, book, deals)), s,
               w.orphans + Unreported(w.known, book, deals), book);
    forall t | t in Tickets(known) ensures t in Live(book) {
      SearchFinds(book, t);
      var j :| 0 <= j < |book| && book[j].ticket == t;
    }
  }
}
