/** The scopes column: Postgres reads the printed text into a TEXT[] value and prints
    that value again when a key is loaded. */
module ScopeColumn {
  import opened Wrappers
  import opened SymbolName
  import opened Scopes

  datatype Element = Null | Text(text: string)

  /** White space to the array reader: ASCII only. */
  predicate Blank(c: char) { c == ' ' || 9 <= c as int <= 13 }

  predicate Mark(c: char) { c == '"' || c == '\\' || Brace(c) || c == ',' }

  predicate Delimiter(c: char) { c == ',' || c == '}' }

  /** NULL in any case. */
  predicate NullWord(s: string) { ToUpper(s) == "NULL" }

  function SkipBlanks(s: string): string { if s != "" && Blank(s[0]) then SkipBlanks(s[1..]) else s }

  // ---- array_in ----

  /** The unquoted characters up to the next delimiter, without trailing white space. */
  datatype Bare = Bare(text: string, escaped: bool, rest: string)

  function ReadBare(s: string): Option<Bare> {
    if s == "" then None
    else if Delimiter(s[0]) then Some(Bare("", false, s))
    else if s[0] == '"' || s[0] == '{' then None
    else if s[0] == '\\' then
      if |s| == 1 || ReadBare(s[2..]).None? then None
      else
        var b := ReadBare(s[2..]).value;
        Some(Bare([s[1]] + b.text, true, b.rest))
    else if ReadBare(s[1..]).None? then None
    else
      var b := ReadBare(s[1..]).value;
      Some(b.(text := if Blank(s[0]) && b.text == "" then "" else [s[0]] + b.text))
  }

  datatype Read = Read(element: Element, rest: string)

  /** The text up to the closing quote, and what follows the quote. */
  function ReadQuoted(s: string): Option<Read> {
    if s == "" then None
    else if s[0] == '"' then Some(Read(Text(""), s[1..]))
    else
      var n := if s[0] == '\\' then 1 else 0;
      if |s| == n || ReadQuoted(s[n + 1..]).None? || ReadQuoted(s[n + 1..]).value.element.Null? then None
      else
        var r := ReadQuoted(s[n + 1..]).value;
        Some(r.(element := Text([s[n]] + r.element.text)))
  }

  /** One element; what is left starts with its delimiter. */
  function ReadElement(s: string): Option<Read> {
    var t := SkipBlanks(s);
    if t != "" && t[0] == '"' then
      var r := ReadQuoted(t[1..]);
      if r.None? then None
      else
        var rest := SkipBlanks(r.value.rest);
        if rest != "" && Delimiter(rest[0]) then Some(r.value.(rest := rest)) else None
    else
      var b := ReadBare(t);
      if b.None? || b.value.text == "" then None
      else
        var e := if !b.value.escaped && NullWord(b.value.text) then Null else Text(b.value.text);
        Some(Read(e, b.value.rest))
  }

  /** Elements up to the closing brace, behind which only white space may follow. */
  function ReadElements(s: string): Option<seq<Element>>
    decreases |s|
  {
    var r := ReadElement(s);
    if r.None? || r.value.rest == "" || |r.value.rest| > |s| then None
    else if r.value.rest[0] == '}' then
      if SkipBlanks(r.value.rest[1..]) == "" then Some([r.value.element]) else None
    else
      var more := ReadElements(r.value.rest[1..]);
      if more.None? then None else Some([r.value.element] + more.value)
  }

  /** No text value of Postgres contains it. */
  const ZERO := 0 as char

  /** The elements of a one-dimensional array text; None for a text that Postgres refuses
      or reads as an array of arrays. */
  function ArrayIn(s: string): Option<seq<Element>> {
    var t := SkipBlanks(s);
    if ZERO in s || t == "" || t[0] != '{' then None
    else
      var u := SkipBlanks(t[1..]);
      if u != "" && u[0] == '}' then
        if SkipBlanks(u[1..]) == "" then Some([]) else None
      else ReadElements(t[1..])
  }

  // ---- array_out ----

  predicate NeedsQuotes(s: string) {
    s == "" || NullWord(s) || exists i :: 0 <= i < |s| && (Mark(s[i]) || Blank(s[i]))
  }

  function EscapedChar(c: char): string { if c == '"' || c == '\\' then ['\\', c] else [c] }

  function Escaped(s: string): string { if s == "" then "" else EscapedChar(s[0]) + Escaped(s[1..]) }

  function PrintText(s: string): string { if NeedsQuotes(s) then "\"" + Escaped(s) + "\"" else s }

  function PrintElement(e: Element): string { if e.Null? then "NULL" else PrintText(e.text) }

  function PrintedElements(es: seq<Element>): seq<string> {
    seq(|es|, i requires 0 <= i < |es| => PrintElement(es[i]))
  }

  function ArrayOut(es: seq<Element>): string { Print(PrintedElements(es)) }

  // ---- The whole trip ----

  function Texts(scopes: seq<string>): seq<Element> {
    seq(|scopes|, i requires 0 <= i < |scopes| => Text(scopes[i]))
  }

  /** What a key created with these scopes has after it is loaded; None if the insert fails. */
  function Reload(scopes: seq<string>): Option<seq<string>> {
    var column := ArrayIn(Print(scopes));
    if column.None? then None else Some(Parse(ArrayOut(column.value)))
  }

  /** A text that is read as an element just as it stands. */
  predicate Verbatim(s: string) {
    && s != "" && !NullWord(s)
    && (forall i :: 0 <= i < |s| ==> !Mark(s[i]))
    && !Blank(s[0]) && !Blank(s[|s| - 1])
  }

  /** A scope the column keeps as it is. */
  predicate Storable(s: string) { Verbatim(s) && ZERO !in s }

  /** A scope that survives being stored and loaded. */
  predicate Plain(s: string) {
    && s != "" && !NullWord(s) && ZERO !in s && Trimmed(s)
    && forall i :: 0 <= i < |s| ==> !Mark(s[i]) && !Blank(s[i])
  }

  /** Characters the elements cost at least, each with its delimiter. */
  function Cost(es: seq<Element>): nat {
    if es == [] then 0 else ElementSize(es[0]) + 1 + Cost(es[1..])
  }

  function ElementSize(e: Element): nat { if e.Null? then 0 else |e.text| }

  lemma {:induction false} SkipBlanksIs(s: string)
    ensures |SkipBlanks(s)| <= |s| && (|SkipBlanks(s)| == |s| ==> SkipBlanks(s) == s)
    ensures SkipBlanks(s) != "" ==> !Blank(SkipBlanks(s)[0])
  {
    if s != "" && Blank(s[0]) { SkipBlanksIs(s[1..]); }
  }

  /** A bare text in which nothing was escaped or trimmed. */
  predicate Untouched(b: Bare, s: string) {
    && !b.escaped && b.text <= s
    && (forall i :: 0 <= i < |b.text| ==> !Mark(b.text[i]))
    && (b.text != "" ==> !Blank(b.text[|b.text| - 1]))
  }

  lemma UntouchedMore(b: Bare, s: string)
    requires s != "" && Untouched(b, s[1..]) && !Mark(s[0]) && (b.text == "" ==> !Blank(s[0]))
    ensures Untouched(b.(text := [s[0]] + b.text), s)
  {
    assert [s[0]] + s[1..] == s;
  }

  /** A bare text costs its own characters exactly when it was left untouched. */
  lemma {:induction false} BareCost(s: string)
    requires ReadBare(s).Some?
    ensures var b := ReadBare(s).value;
            && |s| >= |b.text| + |b.rest| && b.rest != "" && Delimiter(b.rest[0])
            && (|s| == |b.text| + |b.rest| ==> Untouched(b, s))
  {
    if Delimiter(s[0]) {
    } else if s[0] == '\\' {
      BareCost(s[2..]);
    } else {
      BareCost(s[1..]);
      var b := ReadBare(s[1..]).value;
      if |s| == |ReadBare(s).value.text| + |b.rest| { UntouchedMore(b, s); }
    }
  }

  lemma {:induction false} QuotedCost(s: string)
    requires ReadQuoted(s).Some?
    ensures var r := ReadQuoted(s).value;
            r.element.Text? && |s| >= |r.element.text| + 1 + |r.rest|
  {
    if s[0] != '"' { QuotedCost(s[(if s[0] == '\\' then 1 else 0) + 1..]); }
  }

  /** An element costs its own characters exactly when its text is verbatim. */
  lemma ElementCost(s: string)
    requires ReadElement(s).Some?
    ensures var r := ReadElement(s).value;
            && |s| >= ElementSize(r.element) + |r.rest| && r.rest != "" && Delimiter(r.rest[0])
            && (|s| == ElementSize(r.element) + |r.rest| ==> r.element.Text? && Verbatim(r.element.text))
  {
    SkipBlanksIs(s);
    var t := SkipBlanks(s);
    if t != "" && t[0] == '"' {
      QuotedCost(t[1..]);
      SkipBlanksIs(ReadQuoted(t[1..]).value.rest);
    } else {
      BareCost(t);
      var b := ReadBare(t).value;
      if |s| == |b.text| + |b.rest| { assert b.text[0] == t[0]; }
    }
  }

  lemma {:induction false} ElementsCost(s: string)
    requires ReadElements(s).Some?
    ensures |s| >= Cost(ReadElements(s).value)
    ensures |s| == Cost(ReadElements(s).value) ==>
              forall e :: e in ReadElements(s).value ==> e.Text? && Verbatim(e.text)
    decreases |s|
  {
    ElementCost(s);
    var r := ReadElement(s).value;
    if r.rest[0] != '}' { ElementsCost(r.rest[1..]); }
  }

  lemma {:induction false} CostOfTexts(scopes: seq<string>)
    requires scopes != []
    ensures Cost(Texts(scopes)) == |Join(scopes)| + 1
  {
    if |scopes| > 1 {
      CostOfTexts(scopes[1..]);
      assert Texts(scopes)[1..] == Texts(scopes[1..]);
    }
  }

  // ---- Verbatim scopes are read back ----

  lemma {:induction false} ReadsBare(x: string, rest: string)
    requires Untouched(Bare(x, false, rest), x) && rest != "" && Delimiter(rest[0])
    ensures ReadBare(x + rest) == Some(Bare(x, false, rest))
  {
    if x == "" {
      assert x + rest == rest;
    } else {
      var s := x + rest;
      assert s[1..] == x[1..] + rest && s[0] == x[0];
      ReadsBare(x[1..], rest);
      assert ReadBare(s).value.text == x by { assert [x[0]] + x[1..] == x; }
    }
  }

  lemma ReadsVerbatim(x: string, rest: string)
    requires Verbatim(x) && rest != "" && Delimiter(rest[0])
    ensures ReadElement(x + rest) == Some(Read(Text(x), rest))
  {
    var s := x + rest;
    assert s[0] == x[0] && SkipBlanks(s) == s;
    ReadsBare(x, rest);
  }

  lemma ReadsNext(x: string, rest: string)
    requires Verbatim(x) && ReadElements(rest).Some?
    ensures ReadElements(x + ("," + rest)) == Some([Text(x)] + ReadElements(rest).value)
  {
    ReadsVerbatim(x, "," + rest);
    assert ("," + rest)[1..] == rest;
  }

  lemma Regroup(x: string, c: string, rest: string, end: string)
    ensures x + c + rest + end == x + (c + (rest + end))
  {}

  lemma {:induction false} ReadsScopes(scopes: seq<string>)
    requires scopes != [] && forall i :: 0 <= i < |scopes| ==> Verbatim(scopes[i])
    ensures ReadElements(Join(scopes) + "}") == Some(Texts(scopes))
  {
    var x := scopes[0];
    if |scopes| == 1 {
      ReadsVerbatim(x, "}");
      assert Join(scopes) + "}" == x + "}" && "}"[1..] == "";
      assert Texts(scopes) == [Text(x)];
    } else {
      var rest := Join(scopes[1..]) + "}";
      ReadsScopes(scopes[1..]);
      ReadsNext(x, rest);
      Regroup(x, ",", Join(scopes[1..]), "}");
      assert Texts(scopes) == [Text(x)] + Texts(scopes[1..]);
    }
  }

  lemma PrintedOpens(scopes: seq<string>)
    ensures Print(scopes)[0] == '{' && SkipBlanks(Print(scopes)) == Print(scopes)
    ensures scopes != [] ==> Print(scopes)[1..] == Join(scopes) + "}"
  {}

  lemma {:induction false} JoinZero(scopes: seq<string>)
    ensures ZERO in Join(scopes) <==> exists i :: 0 <= i < |scopes| && ZERO in scopes[i]
  {
    if |scopes| > 1 {
      JoinZero(scopes[1..]);
      assert ZERO !in ",";
      assert forall i :: 1 <= i < |scopes| ==> scopes[i] == scopes[1..][i - 1];
    }
  }

  lemma PrintedZero(scopes: seq<string>)
    ensures ZERO in Print(scopes) <==> exists i :: 0 <= i < |scopes| && ZERO in scopes[i]
  {
    JoinZero(scopes);
    assert ZERO !in "{" && ZERO !in "}" && ZERO !in "{}";
  }

  /** The column holds exactly the scopes it was given if and only if every one is
      storable: non-empty, not the word NULL, without commas, quotes, backslashes,
      braces or U+0000, and without white space at either end. */
  lemma ColumnHoldsIff(scopes: seq<string>)
    ensures ArrayIn(Print(scopes)) == Some(Texts(scopes))
       <==> forall i :: 0 <= i < |scopes| ==> Storable(scopes[i])
  {
    PrintedOpens(scopes);
    if scopes == [] {
      assert "{}"[1..] == "}" && "}"[1..] == "";
    } else {
      var inner := Join(scopes) + "}";
      if ArrayIn(Print(scopes)) == Some(Texts(scopes)) {
        ElementsCost(inner);
        CostOfTexts(scopes);
        PrintedZero(scopes);
        forall i | 0 <= i < |scopes| ensures Storable(scopes[i]) { assert Texts(scopes)[i] in Texts(scopes); }
      }
      if forall i :: 0 <= i < |scopes| ==> Storable(scopes[i]) {
        ReadsScopes(scopes);
        PrintedZero(scopes);
        JoinEnds(scopes);
        assert inner[0] == scopes[0][0];
      }
    }
  }

  // ---- What the array writer prints is read back ----

  lemma ReadsEscapedChar(c: char, m: string, s: string, rest: string)
    requires ReadQuoted(s) == Some(Read(Text(m), rest))
    ensures ReadQuoted(EscapedChar(c) + s) == Some(Read(Text([c] + m), rest))
  {
    var n := |EscapedChar(c)| - 1;
    assert (EscapedChar(c) + s)[n + 1..] == s;
  }

  lemma EscapedFront(m: string, tail: string)
    requires m != ""
    ensures Escaped(m) + tail == EscapedChar(m[0]) + (Escaped(m[1..]) + tail)
  {
    var a, b := EscapedChar(m[0]), Escaped(m[1..]);
    assert Escaped(m) == a + b;
    Associate(a, b, tail);
  }

  lemma Associate(a: string, b: string, c: string)
    ensures (a + b) + c == a + (b + c)
  {}

  lemma ClosingQuote(rest: string)
    ensures ReadQuoted("" + ("\"" + rest)) == Some(Read(Text(""), rest))
  {
    assert "" + ("\"" + rest) == "\"" + rest && ("\"" + rest)[1..] == rest;
  }

  lemma {:induction false} ReadsEscaped(m: string, rest: string)
    ensures ReadQuoted(Escaped(m) + ("\"" + rest)) == Some(Read(Text(m), rest))
  {
    if m == "" {
      ClosingQuote(rest);
    } else {
      var s := Escaped(m[1..]) + ("\"" + rest);
      ReadsEscaped(m[1..], rest);
      ReadsEscapedChar(m[0], m[1..], s, rest);
      EscapedFront(m, "\"" + rest);
      assert [m[0]] + m[1..] == m;
    }
  }

  lemma ReadsPrintedQuoted(x: string, rest: string)
    requires rest != "" && Delimiter(rest[0])
    ensures ReadElement("\"" + Escaped(x) + "\"" + rest) == Some(Read(Text(x), rest))
  {
    var s := "\"" + Escaped(x) + "\"" + rest;
    assert s[0] == '"' && s[1..] == Escaped(x) + ("\"" + rest);
    ReadsEscaped(x, rest);
    ReadsOneQuoted(s, x, rest);
  }

  lemma ReadsOneQuoted(s: string, x: string, rest: string)
    requires s != "" && s[0] == '"' && ReadQuoted(s[1..]) == Some(Read(Text(x), rest))
    requires rest != "" && Delimiter(rest[0])
    ensures ReadElement(s) == Some(Read(Text(x), rest))
  {
    assert SkipBlanks(s) == s && SkipBlanks(rest) == rest;
  }

  lemma ReadsPrintedText(x: string, rest: string)
    requires rest != "" && Delimiter(rest[0])
    ensures ReadElement(PrintText(x) + rest) == Some(Read(Text(x), rest))
  {
    if NeedsQuotes(x) {
      ReadsPrintedQuoted(x, rest);
    } else {
      assert Verbatim(x);
      ReadsVerbatim(x, rest);
    }
  }

  lemma ReadsPrinted(e: Element, rest: string)
    requires rest != "" && Delimiter(rest[0])
    ensures ReadElement(PrintElement(e) + rest) == Some(Read(e, rest))
  {
    if e.Null? {
      assert Untouched(Bare("NULL", false, rest), "NULL");
      ReadsBare("NULL", rest);
      assert ToUpper("NULL") == "NULL";
    } else {
      ReadsPrintedText(e.text, rest);
    }
  }

  lemma ReadsPrintedNext(e: Element, rest: string)
    requires ReadElements(rest).Some?
    ensures ReadElements(PrintElement(e) + ("," + rest)) == Some([e] + ReadElements(rest).value)
  {
    ReadsPrinted(e, "," + rest);
    assert ("," + rest)[1..] == rest;
  }

  lemma ReadsPrintedLast(e: Element)
    ensures ReadElements(PrintElement(e) + "}") == Some([e])
  {
    ReadsPrinted(e, "}");
    assert "}"[1..] == "";
  }

  lemma PrintedFront(es: seq<Element>)
    requires |es| > 1
    ensures Join(PrintedElements(es)) + "}"
         == PrintElement(es[0]) + ("," + (Join(PrintedElements(es[1..])) + "}"))
  {
    var x, xs := PrintElement(es[0]), PrintedElements(es);
    assert xs[1..] == PrintedElements(es[1..]) && xs[0] == x;
    Regroup(x, ",", Join(xs[1..]), "}");
  }

  lemma {:induction false} ReadsElements(es: seq<Element>)
    requires es != []
    ensures ReadElements(Join(PrintedElements(es)) + "}") == Some(es)
  {
    if |es| == 1 {
      ReadsPrintedLast(es[0]);
      assert es == [es[0]] && PrintedElements(es) == [PrintElement(es[0])];
    } else {
      ReadsElements(es[1..]);
      ReadsPrintedNext(es[0], Join(PrintedElements(es[1..])) + "}");
      PrintedFront(es);
      assert [es[0]] + es[1..] == es;
    }
  }

  lemma {:induction false} EscapedZero(s: string)
    ensures ZERO in Escaped(s) <==> ZERO in s
  {
    if s != "" { EscapedZero(s[1..]); }
  }

  lemma PrintedElementZero(e: Element)
    ensures ZERO in PrintElement(e) <==> e.Text? && ZERO in e.text
  {
    assert ZERO !in "NULL" && ZERO !in "\"";
    if e.Text? { EscapedZero(e.text); }
  }

  lemma PrintedStart(e: Element)
    ensures PrintElement(e) != "" && !Blank(PrintElement(e)[0]) && PrintElement(e)[0] != '}'
  {}

  /** Postgres reads back every array that it prints, whatever its texts contain. */
  lemma ArrayRoundTrip(es: seq<Element>)
    requires forall i :: 0 <= i < |es| && es[i].Text? ==> ZERO !in es[i].text
    ensures ArrayIn(ArrayOut(es)) == Some(es)
  {
    var xs := PrintedElements(es);
    PrintedOpens(xs);
    if es == [] {
      assert "{}"[1..] == "}" && "}"[1..] == "";
    } else {
      ReadsElements(es);
      forall i | 0 <= i < |xs| ensures ZERO !in xs[i] { PrintedElementZero(es[i]); }
      PrintedZero(xs);
      PrintedStart(es[0]);
      assert (Join(xs) + "}")[0] == xs[0][0];
    }
  }

  // ---- What a loaded key gets ----

  lemma {:induction false} EscapedSame(s: string)
    requires '"' !in s && '\\' !in s
    ensures Escaped(s) == s
  {
    if s != "" {
      EscapedSame(s[1..]);
      assert [s[0]] + s[1..] == s;
    }
  }

  function Printed(scopes: seq<string>): seq<string> {
    seq(|scopes|, i requires 0 <= i < |scopes| => PrintText(scopes[i]))
  }

  lemma PrintedClean(s: string)
    requires Storable(s) && Trimmed(s)
    ensures CleanScope(PrintText(s)) && !Brace(PrintText(s)[0]) && !Brace(PrintText(s)[|PrintText(s)| - 1])
    ensures PrintText(s) == s <==> Plain(s)
  {
    assert '"' !in s && '\\' !in s && ',' !in s;
    EscapedSame(s);
    if NeedsQuotes(s) {
      assert PrintText(s) == "\"" + s + "\"";
      assert |PrintText(s)| == |s| + 2;
    }
  }

  lemma PrintedTexts(scopes: seq<string>)
    ensures ArrayOut(Texts(scopes)) == Print(Printed(scopes))
  {
    var es := Texts(scopes);
    assert PrintedElements(es) == Printed(scopes);
  }

  lemma PrintedAreClean(scopes: seq<string>)
    requires forall i :: 0 <= i < |scopes| ==> Storable(scopes[i]) && Trimmed(scopes[i])
    ensures Clean(Printed(scopes))
    ensures Printed(scopes) == scopes <==> forall i :: 0 <= i < |scopes| ==> Plain(scopes[i])
  {
    var ys := Printed(scopes);
    forall i | 0 <= i < |scopes|
      ensures CleanScope(ys[i]) && !Brace(ys[i][0]) && !Brace(ys[i][|ys[i]| - 1])
      ensures ys[i] == scopes[i] <==> Plain(scopes[i])
    {
      PrintedClean(scopes[i]);
    }
    if forall i :: 0 <= i < |scopes| ==> Plain(scopes[i]) { assert ys == scopes; }
  }

  /** Storable and trimmed scopes come back, but with quotes around every one that
      contains white space. */
  lemma ReloadQuotes(scopes: seq<string>)
    requires forall i :: 0 <= i < |scopes| ==> Storable(scopes[i]) && Trimmed(scopes[i])
    ensures Reload(scopes) == Some(Printed(scopes))
  {
    ColumnHoldsIff(scopes);
    PrintedTexts(scopes);
    PrintedAreClean(scopes);
    ScopesRoundTripIff(Printed(scopes));
  }

  /** A key keeps exactly the scopes it was issued with, in the column and when it is
      loaded again, if and only if every scope is plain: non-empty, trimmed, not the word
      NULL, and without white space, commas, quotes, backslashes, braces and U+0000. */
  lemma ScopesKeptIff(scopes: seq<string>)
    ensures ArrayIn(Print(scopes)) == Some(Texts(scopes)) && Reload(scopes) == Some(scopes)
       <==> forall i :: 0 <= i < |scopes| ==> Plain(scopes[i])
  {
    ColumnHoldsIff(scopes);
    if ArrayIn(Print(scopes)) == Some(Texts(scopes)) && Reload(scopes) == Some(scopes) {
      ParsedAreClean(ArrayOut(Texts(scopes)));
      forall i | 0 <= i < |scopes| ensures Plain(scopes[i]) {
        assert Storable(scopes[i]) && CleanScope(scopes[i]);
        ReloadQuotes(scopes);
        PrintedAreClean(scopes);
      }
    }
    if forall i :: 0 <= i < |scopes| ==> Plain(scopes[i]) {
      ReloadQuotes(scopes);
      PrintedAreClean(scopes);
    }
  }

  lemma {:induction false} ReadsQuoted(m: string, rest: string)
    requires '"' !in m && '\\' !in m
    ensures ReadQuoted(m + "\"" + rest) == Some(Read(Text(m), rest))
  {
    var s := m + "\"" + rest;
    if m == "" {
      assert s[1..] == rest;
    } else {
      assert s[1..] == m[1..] + "\"" + rest;
      ReadsQuoted(m[1..], rest);
      assert [m[0]] + m[1..] == m;
    }
  }

  lemma QuotedElement(m: string)
    requires '"' !in m && '\\' !in m
    ensures ReadElement("\"" + m + "\"}") == Some(Read(Text(m), "}"))
  {
    var inner := "\"" + m + "\"}";
    assert inner[1..] == m + "\"" + "}";
    ReadsQuoted(m, "}");
  }

  /** The array text of one quoted element. */
  function Framed(m: string): string { "{" + ("\"" + m + "\"") + "}" }

  lemma FramedColumn(m: string)
    requires '"' !in m && '\\' !in m && ZERO !in m
    ensures ArrayIn(Framed(m)) == Some([Text(m)])
  {
    assert Framed(m)[1..] == "\"" + m + "\"}";
    assert ZERO !in "\"" && ZERO !in "{" && ZERO !in "}";
    QuotedElement(m);
    assert "}"[1..] == "";
  }

  lemma PrintsFramed(m: string)
    requires '"' !in m && '\\' !in m && ',' in m
    ensures ArrayOut([Text(m)]) == Framed(m)
  {
    EscapedSame(m);
    var i :| 0 <= i < |m| && m[i] == ',';
    assert Mark(m[i]);
    var es := [Text(m)];
    assert PrintedElements(es) == [PrintText(m)];
  }

  lemma JoinPair(x: string, y: string)
    ensures Join([x, y]) == x + "," + y
  {}

  lemma Enclose(q: string, a: string, c: string, b: string)
    ensures (q + a) + c + (b + q) == q + (a + c + b) + q
  {}

  lemma PairFramed(a: string, b: string)
    ensures Print(["\"" + a, b + "\""]) == Framed(a + "," + b)
  {
    JoinPair("\"" + a, b + "\"");
    Enclose("\"", a, ",", b);
  }

  lemma PairReads(a: string, b: string)
    requires CleanScope(a) && CleanScope(b)
    ensures var scopes := ["\"" + a, b + "\""];
            Parse(Print(scopes)) == scopes
  {
    var x, y := "\"" + a, b + "\"";
    assert x[|a|] == a[|a| - 1] && y[0] == b[0];
    assert CleanScope(x) && CleanScope(y);
    ScopesRoundTripIff([x, y]);
  }

  /** Loading alone does not tell: two scopes that together look like one quoted element
      come back although the column holds a single scope with a comma in it. */
  lemma ReloadHidesColumn(a: string, b: string)
    requires CleanScope(a) && CleanScope(b)
    requires forall c :: c in a || c in b ==> c != '"' && c != '\\' && c != ZERO
    ensures var scopes := ["\"" + a, b + "\""];
            ArrayIn(Print(scopes)) == Some([Text(a + "," + b)]) && Reload(scopes) == Some(scopes)
  {
    var m := a + "," + b;
    assert m[|a|] == ',' && ZERO !in ",";
    PairFramed(a, b);
    FramedColumn(m);
    PrintsFramed(m);
    PairReads(a, b);
  }
}
