/** Scope lists as array texts, printed and parsed by the server. */
module Scopes {
  import opened SymbolName

  function Join(parts: seq<string>): string {
    if parts == [] then "" else if |parts| == 1 then parts[0] else parts[0] + "," + Join(parts[1..])
  }

  /** strings.Split(s, ","): the pieces between commas, at least one. */
  function Split(s: string): (parts: seq<string>)
    ensures parts != []
  {
    if s == "" then [""]
    else
      var rest := Split(s[1..]);
      if s[0] == ',' then [""] + rest else [[s[0]] + rest[0]] + rest[1..]
  }

  predicate Brace(c: char) { c == '{' || c == '}' }

  function CutLeft(s: string): string { if s != "" && Brace(s[0]) then CutLeft(s[1..]) else s }

  function CutRight(s: string): string {
    if s != "" && Brace(s[|s| - 1]) then CutRight(s[..|s| - 1]) else s
  }

  /** strings.Trim(s, "{}"). */
  function CutBraces(s: string): string { CutRight(CutLeft(s)) }

  function Print(scopes: seq<string>): string {
    if scopes == [] then "{}" else "{" + Join(scopes) + "}"
  }

  /** The non-empty pieces, trimmed. */
  function Pieces(parts: seq<string>): seq<string> {
    if parts == [] then []
    else Pieces(parts[..|parts| - 1])
         + if TrimSpace(parts[|parts| - 1]) == "" then [] else [TrimSpace(parts[|parts| - 1])]
  }

  function Parse(s: string): seq<string> {
    var t := CutBraces(s);
    if t == "" then [] else Pieces(Split(t))
  }

  method ParsePostgresArray(s: string) returns (out: seq<string>)
    ensures out == Parse(s)
  {
    var t := CutBraces(s);
    if t == "" { return []; }
    out := [];
    var parts := Split(t);
    for i := 0 to |parts|
      invariant out == Pieces(parts[..i])
    {
      assert parts[..i + 1][..i] == parts[..i];
      var p := TrimSpace(parts[i]);
      if p != "" { out := out + [p]; }
    }
    assert parts[..|parts|] == parts;
  }

  method HasScope(scopes: seq<string>, scope: string) returns (found: bool)
    ensures found <==> scope in scopes
  {
    for i := 0 to |scopes|
      invariant scope !in scopes[..i]
    {
      if scopes[i] == scope { return true; }
    }
    return false;
  }

  // ---- When printing and parsing round-trips ----

  predicate CleanScope(scope: string) { scope != "" && ',' !in scope && Trimmed(scope) }

  /** Every scope is non-empty, comma-free and trimmed, and no brace stands at the very
      start or end of the list. */
  predicate Clean(scopes: seq<string>) {
    && (forall i :: 0 <= i < |scopes| ==> CleanScope(scopes[i]))
    && (scopes != [] && scopes[0] != "" ==> !Brace(scopes[0][0]))
    && (scopes != [] && scopes[|scopes| - 1] != "" ==> !Brace(scopes[|scopes| - 1][|scopes[|scopes| - 1]| - 1]))
  }

  lemma {:induction false} SplitField(a: string, rest: string)
    requires ',' !in a
    ensures Split(a) == [a]
    ensures Split(a + "," + rest) == [a] + Split(rest)
  {
    var s := a + "," + rest;
    if a != "" {
      SplitField(a[1..], rest);
      assert s[1..] == a[1..] + "," + rest;
      assert [a[0]] + a[1..] == a;
    } else {
      assert s[1..] == rest;
    }
  }

  lemma {:induction false} SplitJoin(parts: seq<string>)
    requires parts != [] && forall i :: 0 <= i < |parts| ==> ',' !in parts[i]
    ensures Split(Join(parts)) == parts
  {
    if |parts| == 1 {
      SplitField(parts[0], "");
    } else {
      SplitJoin(parts[1..]);
      SplitField(parts[0], Join(parts[1..]));
    }
  }

  lemma {:induction false} PiecesClean(parts: seq<string>)
    requires forall i :: 0 <= i < |parts| ==> CleanScope(parts[i])
    ensures Pieces(parts) == parts
  {
    if parts != [] {
      var n, last := |parts| - 1, parts[|parts| - 1];
      PiecesClean(parts[..n]);
      assert TrimSpace(last) == last != "" by { TrimIsTrimmed(last); }
      assert parts == parts[..n] + [last];
    }
  }

  lemma {:induction false} CutLeftSize(s: string)
    ensures |CutLeft(s)| <= |s| && (CutLeft(s) == s <==> s == "" || !Brace(s[0]))
  {
    if s != "" && Brace(s[0]) { CutLeftSize(s[1..]); }
  }

  lemma {:induction false} CutRightSize(s: string)
    ensures |CutRight(s)| <= |s| && (CutRight(s) == s <==> s == "" || !Brace(s[|s| - 1]))
    ensures CutRight(s) <= s
  {
    if s != "" && Brace(s[|s| - 1]) { CutRightSize(s[..|s| - 1]); }
  }

  lemma {:induction false} CutLeftClosed(s: string)
    ensures CutLeft(s + "}") == if CutLeft(s) == "" then "" else CutLeft(s) + "}"
  {
    if s == "" {
      assert (s + "}")[1..] == "";
    } else if Brace(s[0]) {
      assert (s + "}")[1..] == s[1..] + "}";
      CutLeftClosed(s[1..]);
    }
  }

  /** Cutting the braces a list was printed with also cuts braces of the list itself. */
  lemma CutPrinted(body: string)
    ensures CutBraces("{" + body + "}") == CutRight(CutLeft(body))
  {
    var s := "{" + body + "}";
    assert s[1..] == body + "}";
    CutLeftClosed(body);
    var c := CutLeft(body);
    if c != "" { assert (c + "}")[..|c|] == c; }
  }

  lemma CutPrintedIff(body: string)
    requires body != ""
    ensures CutBraces("{" + body + "}") == body <==> !Brace(body[0]) && !Brace(body[|body| - 1])
    ensures |CutBraces("{" + body + "}")| <= |body|
    ensures CutBraces("{" + body + "}") != body ==> |CutBraces("{" + body + "}")| < |body|
  {
    CutPrinted(body);
    CutLeftSize(body);
    CutRightSize(CutLeft(body));
    CutLeftSuffix(body);
  }

  lemma {:induction false} CutLeftSuffix(s: string)
    ensures |CutLeft(s)| <= |s| && CutLeft(s) == s[|s| - |CutLeft(s)|..]
  {
    if s != "" && Brace(s[0]) { CutLeftSuffix(s[1..]); }
  }

  /** Characters in a list of pieces, counting one comma each. */
  function Size(parts: seq<string>): nat {
    if parts == [] then 0 else Size(parts[..|parts| - 1]) + |parts[|parts| - 1]| + 1
  }

  lemma {:induction false} SizeFront(p: string, parts: seq<string>)
    ensures Size([p] + parts) == |p| + 1 + Size(parts)
  {
    if parts == [] {
      assert [p] + parts == [p] && [p][..0] == [];
    } else {
      var n := |parts| - 1;
      assert ([p] + parts)[..n + 1] == [p] + parts[..n];
      SizeFront(p, parts[..n]);
    }
  }

  lemma SizeBack(parts: seq<string>, p: string)
    ensures Size(parts + [p]) == Size(parts) + |p| + 1
  {
    assert (parts + [p])[..|parts|] == parts;
  }

  lemma {:induction false} SplitSize(s: string)
    ensures Size(Split(s)) == |s| + 1
  {
    if s == "" {
      SizeFront("", []);
    } else {
      var rest := Split(s[1..]);
      SplitSize(s[1..]);
      if s[0] == ',' {
        SizeFront("", rest);
      } else {
        assert rest == [rest[0]] + rest[1..];
        SizeFront(rest[0], rest[1..]);
        SizeFront([s[0]] + rest[0], rest[1..]);
      }
    }
  }

  lemma {:induction false} JoinSize(parts: seq<string>)
    requires parts != []
    ensures Size(parts) == |Join(parts)| + 1
  {
    assert parts == [parts[0]] + parts[1..];
    SizeFront(parts[0], parts[1..]);
    if |parts| > 1 { JoinSize(parts[1..]); }
  }

  lemma {:induction false} PiecesSize(parts: seq<string>)
    ensures Size(Pieces(parts)) <= Size(parts)
  {
    if parts != [] {
      var n := |parts| - 1;
      PiecesSize(parts[..n]);
      var i := TrimIs(parts[n]);
      SizeBack(Pieces(parts[..n]), TrimSpace(parts[n]));
      assert Pieces(parts[..n]) + [] == Pieces(parts[..n]);
    }
  }

  lemma {:induction false} SplitNoCommas(s: string)
    ensures forall i :: 0 <= i < |Split(s)| ==> ',' !in Split(s)[i]
  {
    if s != "" { SplitNoCommas(s[1..]); }
  }

  /** Whatever is parsed, the scopes that come out are clean. */
  lemma {:induction false} PiecesAreClean(parts: seq<string>)
    requires forall i :: 0 <= i < |parts| ==> ',' !in parts[i]
    ensures forall i :: 0 <= i < |Pieces(parts)| ==> CleanScope(Pieces(parts)[i])
  {
    if parts != [] {
      var last := parts[|parts| - 1];
      PiecesAreClean(parts[..|parts| - 1]);
      TrimIsTrimmed(last);
      TrimSubset(last);
    }
  }

  lemma ConcatEnds(a: string, c: string, b: string)
    requires a != "" && b != ""
    ensures a + c + b != "" && (a + c + b)[0] == a[0] && (a + c + b)[|a + c + b| - 1] == b[|b| - 1]
  {}

  lemma {:induction false} JoinEnds(scopes: seq<string>)
    requires scopes != [] && forall i :: 0 <= i < |scopes| ==> scopes[i] != ""
    ensures Join(scopes) != "" && Join(scopes)[0] == scopes[0][0]
    ensures var last := scopes[|scopes| - 1];
            Join(scopes)[|Join(scopes)| - 1] == last[|last| - 1]
  {
    if |scopes| > 1 {
      JoinEnds(scopes[1..]);
      ConcatEnds(scopes[0], ",", Join(scopes[1..]));
    }
  }

  lemma CutBracesClean(scopes: seq<string>)
    requires scopes != [] && Clean(scopes)
    ensures CutBraces(Print(scopes)) == Join(scopes) && Join(scopes) != ""
  {
    assert forall i :: 0 <= i < |scopes| ==> CleanScope(scopes[i]);
    JoinEnds(scopes);
    CutPrintedIff(Join(scopes));
  }

  lemma CleanRoundTrips(scopes: seq<string>)
    requires Clean(scopes)
    ensures Parse(Print(scopes)) == scopes
  {
    if scopes == [] {
      assert "{}"[1..] == "}" && "}"[1..] == "";
    } else {
      CutBracesClean(scopes);
      SplitJoin(scopes);
      PiecesClean(scopes);
    }
  }

  lemma ParsedAreClean(s: string)
    ensures forall i :: 0 <= i < |Parse(s)| ==> CleanScope(Parse(s)[i])
  {
    SplitNoCommas(CutBraces(s));
    PiecesAreClean(Split(CutBraces(s)));
  }

  lemma ParsedSize(s: string)
    ensures Size(Parse(s)) <= |CutBraces(s)| + 1
  {
    SplitSize(CutBraces(s));
    PiecesSize(Split(CutBraces(s)));
  }

  /** A list that comes back lost no brace of its own. */
  lemma RoundTripUncut(scopes: seq<string>)
    requires Parse(Print(scopes)) == scopes != [] && Join(scopes) != ""
    ensures !Brace(Join(scopes)[0]) && !Brace(Join(scopes)[|Join(scopes)| - 1])
  {
    CutPrintedIff(Join(scopes));
    ParsedSize(Print(scopes));
    JoinSize(scopes);
  }

  lemma RoundTripIsClean(scopes: seq<string>)
    requires Parse(Print(scopes)) == scopes
    ensures Clean(scopes)
  {
    if scopes != [] {
      ParsedAreClean(Print(scopes));
      assert forall i :: 0 <= i < |scopes| ==> CleanScope(scopes[i]);
      JoinEnds(scopes);
      RoundTripUncut(scopes);
    }
  }

  /** Parsing the printed text, as it was printed, returns the same scopes exactly for the
      clean lists.  What the database makes of the text is the subject of ScopeColumn. */
  lemma ScopesRoundTripIff(scopes: seq<string>)
    ensures Parse(Print(scopes)) == scopes <==> Clean(scopes)
  {
    if Clean(scopes) { CleanRoundTrips(scopes); }
    if Parse(Print(scopes)) == scopes { RoundTripIsClean(scopes); }
  }
}
