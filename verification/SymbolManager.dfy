/** The symbol manager: keeps one consume loop running per watched symbol. */
module SymbolManager {
  import opened Wrappers

  const DEFAULT_SYMBOLS := [
    "EURUSD", "GBPUSD", "USDJPY", "XAUUSD",
    "USDCHF", "AUDUSD", "USDCAD", "NZDUSD",
    "GBPJPY", "EURJPY", "XAGUSD", "BTCUSD"]

  /** The cached list (empty on a miss or an error) and the active rows of the table
      (None on a database error). */
  datatype Source = Source(cached: seq<string>, rows: Option<seq<string>>)

  /** ListActiveSymbols, with its fallback. */
  function ActiveSymbols(rows: Option<seq<string>>): Option<seq<string>> {
    if rows == Some([]) then Some(DEFAULT_SYMBOLS) else rows
  }

  function Loaded(src: Source): Option<seq<string>> {
    if src.cached != [] then Some(src.cached) else ActiveSymbols(src.rows)
  }

  function Elements(xs: seq<string>): set<string> { set x | x in xs }

  /** The last list that loaded, or none. */
  function LastLoaded(loads: seq<Source>): set<string> {
    if loads == [] then {}
    else
      match Loaded(loads[|loads| - 1])
      case Some(symbols) => Elements(symbols)
      case None => LastLoaded(loads[..|loads| - 1])
  }

  /** A load fails exactly if the cache is empty and the table cannot be read. */
  predicate Fails(src: Source) { src.cached == [] && src.rows == None }

  /** The cached list comes first, then the active rows, then the defaults. */
  predicate Gives(src: Source, s: string) {
    || s in src.cached
    || (src.cached == [] && src.rows.Some? && s in src.rows.value)
    || (src.cached == [] && src.rows == Some([]) && s in DEFAULT_SYMBOLS)
  }

  /** The symbol was in load i, and every later load failed. */
  predicate LastGivenAt(loads: seq<Source>, s: string, i: nat) {
    i < |loads| && Gives(loads[i], s) && forall j :: i < j < |loads| ==> Fails(loads[j])
  }

  lemma LastLoadedStep(loads: seq<Source>, s: string)
    requires loads != []
    ensures var n := |loads| - 1;
            s in LastLoaded(loads) <==> Gives(loads[n], s) || (Fails(loads[n]) && s in LastLoaded(loads[..n]))
  {}

  lemma LastGivenStep(loads: seq<Source>, s: string, i: nat)
    requires i < |loads| - 1
    ensures LastGivenAt(loads, s, i) <==> LastGivenAt(loads[..|loads| - 1], s, i) && Fails(loads[|loads| - 1])
  {
    var init := loads[..|loads| - 1];
    assert forall j :: 0 <= j < |init| ==> init[j] == loads[j];
  }

  /** A symbol is in the last list that loaded exactly if some load gave it and every
      later one failed. */
  lemma {:induction false} LastLoadedIff(loads: seq<Source>, s: string)
    ensures s in LastLoaded(loads) <==> exists i :: LastGivenAt(loads, s, i)
  {
    if loads != [] {
      var n := |loads| - 1;
      LastLoadedIff(loads[..n], s);
      LastLoadedStep(loads, s);
      forall i: nat | i < n ensures LastGivenAt(loads, s, i) <==> LastGivenAt(loads[..n], s, i) && Fails(loads[n]) {
        LastGivenStep(loads, s, i);
      }
      assert LastGivenAt(loads, s, n) <==> Gives(loads[n], s);
    }
  }

  /** Contexts are numbered in creation order; `owners[c]` is the symbol context c was
      created for.  A context is cancelled exactly when it is not its owner's running
      one, so each running symbol has one live context and every other is cancelled. */
  predicate OneContextEach(running: map<string, nat>, cancelled: seq<bool>, owners: seq<string>) {
    && |owners| == |cancelled|
    && (forall s :: s in running ==> running[s] < |owners| && owners[running[s]] == s)
    && (forall c :: 0 <= c < |owners| ==> (cancelled[c] <==> !(owners[c] in running && running[owners[c]] == c)))
  }

  /** A running symbol has exactly one live context, a stopped one none. */
  lemma LiveContexts(running: map<string, nat>, cancelled: seq<bool>, owners: seq<string>, s: string)
    requires OneContextEach(running, cancelled, owners)
    ensures (exists c :: 0 <= c < |owners| && owners[c] == s && !cancelled[c]) <==> s in running
    ensures forall c :: 0 <= c < |owners| && owners[c] == s && !cancelled[c] ==> s in running && c == running[s]
  {
    if s in running { assert owners[running[s]] == s && !cancelled[running[s]]; }
  }

  /** The consumer's list is duplicate-free and contains every symbol ever started. */
  predicate Lists(symbols: seq<string>, owners: seq<string>) {
    Distinct(symbols) && forall c :: 0 <= c < |owners| ==> owners[c] in symbols
  }

  class Manager {
    var running: map<string, nat>  // symbol to context
    var cancelled: seq<bool>       // one flag per context ever created
    var symbols: seq<string>       // the consumer's list
    ghost var owners: seq<string>

    ghost predicate Valid()
      reads this
    {
      OneContextEach(running, cancelled, owners) && Lists(symbols, owners)
    }

    constructor ()
      ensures Valid() && running == map[]
    {
      running, cancelled, symbols, owners := map[], [], [], [];
    }

    method AddSymbol(sym: string)
      requires Distinct(symbols)
      modifies this`symbols
      ensures symbols == if sym in old(symbols) then old(symbols) else old(symbols) + [sym]
      ensures Distinct(symbols) && sym in symbols
    {
      for i := 0 to |symbols|
        invariant sym !in symbols[..i] && symbols == old(symbols)
      {
        if symbols[i] == sym { return; }
      }
      symbols := symbols + [sym];
    }

    method StartLocked(sym: string)
      requires Valid()
      modifies this
      ensures Valid() && old(owners) <= owners
      ensures sym in old(running) ==> running == old(running) && owners == old(owners)
      ensures sym !in old(running) ==> running == old(running)[sym := |old(owners)|] && owners == old(owners) + [sym]
    {
      if sym in running { return; }
      AddSymbol(sym);
      running := running[sym := |cancelled|];
      cancelled := cancelled + [false];
      owners := owners + [sym];
    }

    method Cancel(sym: string)
      requires Valid() && sym in running
      modifies this`running, this`cancelled
      ensures Valid() && running == old(running) - {sym}
      ensures cancelled == old(cancelled)[old(running)[sym] := true]
    {
      cancelled := cancelled[running[sym] := true];
      running := running - {sym};
    }

    /** Start what is wanted and not running, then stop what runs and is not wanted.  A
        symbol that stays keeps its context. */
    method Sync(src: Source)
      requires Valid()
      modifies this
      ensures Valid() && old(owners) <= owners
      ensures Loaded(src) == None ==> running == old(running) && owners == old(owners)
      ensures Loaded(src).Some? ==> running.Keys == Elements(Loaded(src).value)
      ensures src.cached != [] ==> running.Keys == set s | s in src.cached
      ensures src.cached == [] && src.rows.Some? && src.rows.value != [] ==>
                running.Keys == set s | s in src.rows.value
      ensures src.cached == [] && src.rows == Some([]) ==> running.Keys == set s | s in DEFAULT_SYMBOLS
      ensures src.cached == [] && src.rows == None ==> running == old(running) && cancelled == old(cancelled)
      ensures forall s :: s in old(running) && s in running ==> running[s] == old(running)[s]
    {
      if Loaded(src) == None { return; }
      var desired := Elements(Loaded(src).value);
      StartAll(desired);
      StopOthers(desired);
    }

    method StartAll(desired: set<string>)
      requires Valid()
      modifies this
      ensures Valid() && old(owners) <= owners
      ensures running.Keys == old(running).Keys + desired
      ensures forall s :: s in old(running) ==> running[s] == old(running)[s]
    {
      var todo := desired;
      while todo != {}
        invariant Valid() && old(owners) <= owners && todo <= desired
        invariant running.Keys == old(running).Keys + (desired - todo)
        invariant forall s :: s in old(running) ==> running[s] == old(running)[s]
        decreases todo
      {
        var sym :| sym in todo;
        StartLocked(sym);
        todo := todo - {sym};
      }
    }

    method StopOthers(desired: set<string>)
      requires Valid() && desired <= running.Keys
      modifies this`running, this`cancelled
      ensures Valid() && running.Keys == desired
      ensures forall s :: s in desired ==> running[s] == old(running)[s]
    {
      var todo := running.Keys - desired;
      while todo != {}
        invariant Valid() && running.Keys == desired + todo && todo !! desired
        invariant forall s :: s in desired ==> running[s] == old(running)[s]
        decreases todo
      {
        var sym :| sym in todo;
        Cancel(sym);
        todo := todo - {sym};
      }
    }

    /** Start's initial load and any number of ticks: the running symbols are exactly the
        last list that loaded. */
    method Start(initial: Source, ticks: seq<Source>)
      requires Valid() && running == map[]
      modifies this
      ensures Valid() && old(owners) <= owners && running.Keys == LastLoaded([initial] + ticks)
    {
      ghost var loads := [initial] + ticks;
      StartInitial(initial);
      assert loads[..1] == [initial];
      for i := 0 to |ticks|
        invariant Valid() && old(owners) <= owners && running.Keys == LastLoaded(loads[..i + 1])
      {
        assert loads[..i + 2][..i + 1] == loads[..i + 1] && loads[i + 1] == ticks[i];
        Sync(ticks[i]);
      }
      assert loads[..|ticks| + 1] == loads;
    }

    method StartInitial(initial: Source)
      requires Valid() && running == map[]
      modifies this
      ensures Valid() && old(owners) <= owners && running.Keys == LastLoaded([initial])
    {
      assert [initial][..0] == [];
      var first := Loaded(initial);
      if first == None { return; }
      for i := 0 to |first.value|
        invariant Valid() && old(owners) <= owners && running.Keys == Elements(first.value[..i])
      {
        assert first.value[..i + 1] == first.value[..i] + [first.value[i]];
        StartLocked(first.value[i]);
      }
      assert first.value[..|first.value|] == first.value;
    }
  }
}
