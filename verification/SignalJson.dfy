/** The JSON text the server stores for a signal, and the substring searches with
    which the receiver EA reads it back. */
module SignalJson {
  import opened Wrappers

  // ---- Encoding (encoding/json, section 7 of RFC 8259) ----

  function HexDigit(n: nat): char
    requires n < 16
  {
    "0123456789abcdef"[n]
  }

  function EscapeChar(c: char): string {
    match c
    case '"' => "\\\""
    case '\\' => "\\\\"
    case '\n' => "\\n"
    case '\r' => "\\r"
    case '\t' => "\\t"
    case '<' => "\\u003c"
    case '>' => "\\u003e"
    case '&' => "\\u0026"
    case _ =>
      if c as int == 8 then "\\b"
      else if c as int == 12 then "\\f"
      else if c as int < 32 then "\\u00" + [HexDigit(c as int / 16), HexDigit(c as int % 16)]
      else if c as int == 0x2028 then "\\u2028"
      else if c as int == 0x2029 then "\\u2029"
      else [c]
  }

  function Escape(text: string): string {
    if text == "" then "" else EscapeChar(text[0]) + Escape(text[1..])
  }

  /** Every quote in the text follows a backslash inside the text. */
  predicate QuotesEscaped(body: string) {
    forall i :: 0 <= i < |body| && body[i] == '"' ==> i > 0 && body[i - 1] == '\\'
  }

  /** The six-character escapes. */
  predicate FourDigitEscape(e: string) {
    |e| == 6 && e[0] == '\\' && e[1] == 'u' && forall i :: 2 <= i < 6 ==> e[i] in "0123456789abcdef"
  }

  lemma EscapeShape(c: char)
    ensures var e := EscapeChar(c);
            FourDigitEscape(e) || (|e| == 2 && e[0] == '\\') || (e == [c] && c != '"' && c != '\\')
  {}

  lemma EscapeCharQuotes(c: char)
    ensures QuotesEscaped(EscapeChar(c))
  {
    EscapeShape(c);
    var e := EscapeChar(c);
    if FourDigitEscape(e) { assert forall i :: 2 <= i < 6 ==> e[i] != '"'; }
  }

  lemma {:induction false} EscapeQuotes(text: string)
    ensures QuotesEscaped(Escape(text))
  {
    if text != "" {
      EscapeQuotes(text[1..]);
      var head, tail := EscapeChar(text[0]), Escape(text[1..]);
      EscapeCharQuotes(text[0]);
      forall i | 0 <= i < |head + tail| && (head + tail)[i] == '"' ensures i > 0 && (head + tail)[i - 1] == '\\' {
        if i >= |head| { assert tail[i - |head|] == '"'; }
      }
    }
  }

  /** No control character stands unescaped, and nothing that HTML or JavaScript would read
      as more than text. */
  lemma {:induction false} EscapeLeavesNoControl(text: string)
    ensures forall c :: c in Escape(text) ==> c >= ' ' && c !in "<>&\U{2028}\U{2029}"
  {
    if text != "" {
      EscapeLeavesNoControl(text[1..]);
      EscapeCharControl(text[0]);
    }
  }

  lemma EscapeCharControl(c: char)
    ensures forall d :: d in EscapeChar(c) ==> d >= ' ' && d !in "<>&\U{2028}\U{2029}"
  {
    if c as int < 32 && |EscapeChar(c)| == 6 { HexDigitSafe(c as int / 16); HexDigitSafe(c as int % 16); }
  }

  lemma HexDigitSafe(n: nat)
    requires n < 16
    ensures ' ' <= HexDigit(n) <= '9' || 'a' <= HexDigit(n) <= 'f'
    ensures HexDigit(n) !in "<>&\U{2028}\U{2029}"
  {}

  // ---- Decoding an escaped text (section 7 of RFC 8259) ----

  function HexValue(c: char): nat {
    if '0' <= c <= '9' then c as int - '0' as int
    else if 'a' <= c <= 'f' then c as int - 'a' as int + 10
    else if 'A' <= c <= 'F' then c as int - 'A' as int + 10
    else 0
  }

  /** The character of a four-digit escape; surrogates do not occur in what is encoded. */
  function FourDigits(d: string): char
    requires |d| == 4
  {
    var n := ((HexValue(d[0]) * 16 + HexValue(d[1])) * 16 + HexValue(d[2])) * 16 + HexValue(d[3]);
    if n < 0xD800 then n as char else '?'
  }

  /** The first character an escaped text stands for and the length of its escape. */
  function UnescapeFirst(s: string): (char, nat)
    requires s != ""
  {
    if s[0] != '\\' || |s| == 1 then (s[0], 1)
    else if s[1] == 'u' && |s| >= 6 then (FourDigits(s[2..6]), 6)
    else
      match s[1]
      case 'n' => ('\n', 2)
      case 'r' => ('\r', 2)
      case 't' => ('\t', 2)
      case 'b' => (8 as char, 2)
      case 'f' => (12 as char, 2)
      case c => (c, 2)
  }

  function Unescape(s: string): string {
    if s == "" then ""
    else
      var (c, n) := UnescapeFirst(s);
      [c] + if n <= |s| then Unescape(s[n..]) else ""
  }

  lemma HexPair(n: nat)
    requires n < 256
    ensures HexValue(HexDigit(n / 16)) == n / 16 && HexValue(HexDigit(n % 16)) == n % 16
  {
    HexRoundTrip(n / 16);
    HexRoundTrip(n % 16);
  }

  lemma HexRoundTrip(n: nat)
    requires n < 16
    ensures HexValue(HexDigit(n)) == n
  {}

  lemma UnescapeChar(c: char, rest: string)
    ensures UnescapeFirst(EscapeChar(c) + rest) == (c, |EscapeChar(c)|)
  {
    var e := EscapeChar(c);
    var s := e + rest;
    EscapeShape(c);
    assert s[0] == e[0];
    if |e| > 1 { assert s[1] == e[1]; }
    if |e| == 6 {
      assert s[2..6] == e[2..6];
      DigitsStandFor(c);
    }
  }

  lemma DigitsStandFor(c: char)
    requires |EscapeChar(c)| == 6
    ensures FourDigits(EscapeChar(c)[2..6]) == c
  {
    if c as int < 32 { HexPair(c as int); }
  }

  lemma UnescapeStep(e: string, c: char, rest: string)
    requires e != "" && UnescapeFirst(e + rest) == (c, |e|)
    ensures Unescape(e + rest) == [c] + Unescape(rest)
  {
    assert (e + rest)[|e|..] == rest;
  }

  /** Escaping loses nothing: the decoder of the standard returns the original text. */
  lemma {:induction false} EscapeRoundTrip(text: string)
    ensures Unescape(Escape(text)) == text
  {
    if text != "" {
      EscapeRoundTrip(text[1..]);
      EscapeShape(text[0]);
      UnescapeChar(text[0], Escape(text[1..]));
      UnescapeStep(EscapeChar(text[0]), text[0], Escape(text[1..]));
      assert [text[0]] + text[1..] == text;
    }
  }

  // ---- Objects ----

  datatype Field = Num(text: string) | Str(body: string)

  datatype Member = Member(key: string, value: Field)

  function Render(f: Field): string {
    match f
    case Num(text) => text
    case Str(body) => "\"" + body + "\""
  }

  /** What a key search looks for. */
  function Pattern(key: string): string { "\"" + key + "\":" }

  function MemberText(m: Member): string { Pattern(m.key) + Render(m.value) }

  /** The object text from its first member on. */
  function Tail(ms: seq<Member>): string {
    if ms == [] then "}" else MemberText(ms[0]) + After(ms)
  }

  /** The object text behind its first member. */
  function After(ms: seq<Member>): string
    requires ms != []
    decreases ms, 0
  {
    if |ms| == 1 then "}" else "," + Tail(ms[1..])
  }

  function ObjectText(ms: seq<Member>): string { "{" + Tail(ms) }

  predicate PlainChar(c: char) { 'a' <= c <= 'z' || c == '_' }

  predicate PlainKey(key: string) { key != "" && forall i :: 0 <= i < |key| ==> PlainChar(key[i]) }

  /** A number text: no character that delimits it, and no quote. */
  predicate NumberText(text: string) {
    text != "" && forall i :: 0 <= i < |text| ==> text[i] !in {'"', ',', '}', ' '}
  }

  predicate GoodMember(m: Member) {
    PlainKey(m.key) && match m.value { case Num(text) => NumberText(text) case Str(body) => QuotesEscaped(body) }
  }

  // ---- Searching ----

  /** What follows the leftmost occurrence of a pattern. */
  function AfterMatch(s: string, pattern: string): Option<string> {
    if pattern <= s then Some(s[|pattern|..])
    else if s == "" then None
    else AfterMatch(s[1..], pattern)
  }

  function SkipSpaces(s: string): string {
    if s != "" && s[0] == ' ' then SkipSpaces(s[1..]) else s
  }

  predicate IsDelimiter(c: char) { c == ',' || c == '}' }

  function UntilDelimiter(s: string): string {
    if s == "" || IsDelimiter(s[0]) then "" else [s[0]] + UntilDelimiter(s[1..])
  }

  /** The text before the first quote, if there is one. */
  function BeforeQuote(s: string): Option<string> {
    if s == "" then None
    else if s[0] == '"' then Some("")
    else match BeforeQuote(s[1..]) { case None => None case Some(t) => Some([s[0]] + t) }
  }

  function GetRaw(json: string, key: string): string {
    match AfterMatch(json, Pattern(key))
    case None => ""
    case Some(rest) => UntilDelimiter(SkipSpaces(rest))
  }

  function GetString(json: string, key: string): string {
    match AfterMatch(json, Pattern(key) + "\"")
    case None => ""
    case Some(rest) => match BeforeQuote(rest) { case None => "" case Some(t) => t }
  }

  // ---- No pattern matches inside a member ----

  /** Where a match at i forces the pattern's second quote and colon to be. */
  lemma MatchShape(s: string, key: string, i: nat)
    requires PlainKey(key) && i <= |s| && Pattern(key) <= s[i..]
    ensures var j := i + 1 + |key|;
            && j + 1 < |s| && s[i] == '"' && s[j] == '"' && s[j + 1] == ':'
            && PlainChar(s[i + 1]) && PlainChar(s[j - 1])
            && forall x :: i < x < j ==> PlainChar(s[x]) && s[x] == key[x - i - 1]
  {
    var p := Pattern(key);
    assert forall x :: 0 <= x < |p| ==> p[x] == s[i..][x] == s[i + x];
    assert forall x :: 0 <= x < |key| ==> p[x + 1] == key[x];
  }

  lemma MatchAtStart(m: Member, rest: string, key: string)
    requires GoodMember(m) && PlainKey(key)
    ensures Pattern(key) <= MemberText(m) + rest <==> m.key == key
  {
    var tail := Render(m.value) + rest;
    assert MemberText(m) + rest == Pattern(m.key) + tail;
    if Pattern(key) <= Pattern(m.key) + tail { KeysMatch(m.key, key, tail); }
  }

  /** A plain key ends at its closing quote. */
  lemma KeysMatch(own: string, key: string, tail: string)
    requires PlainKey(own) && PlainKey(key) && Pattern(key) <= Pattern(own) + tail
    ensures own == key
  {
    var s := Pattern(own) + tail;
    assert s[0..] == s;
    MatchShape(s, key, 0);
    assert s[|own| + 1] == '"' && forall x :: 0 < x <= |own| ==> s[x] == own[x - 1];
    assert |own| == |key|;
    assert forall x :: 0 <= x < |key| ==> key[x] == s[x + 1] == own[x];
  }

  /** Inside a member and at the delimiter behind it no key pattern matches, whatever
      the member's string value contains. */
  lemma NoMatchInside(m: Member, rest: string, key: string, i: nat)
    requires GoodMember(m) && PlainKey(key)
    requires rest != "" && IsDelimiter(rest[0]) && 0 < i <= |MemberText(m)|
    ensures !(Pattern(key) <= (MemberText(m) + rest)[i..])
  {
    var s := MemberText(m) + rest;
    var c := |m.key| + 1;  // the key's closing quote
    var v := c + 2;        // where the value starts
    assert s == Pattern(m.key) + (Render(m.value) + rest);
    assert forall x :: 0 < x < c ==> s[x] == m.key[x - 1];
    assert s[c] == '"' && s[c + 1] == ':';
    assert forall x :: v <= x < |MemberText(m)| ==> s[x] == Render(m.value)[x - v];
    assert s[|MemberText(m)|] == rest[0];
    if Pattern(key) <= s[i..] {
      MatchShape(s, key, i);
      if i >= v { NoMatchInValue(m, rest, key, i); }
    }
  }

  lemma NoMatchInValue(m: Member, rest: string, key: string, i: nat)
    requires GoodMember(m) && PlainKey(key)
    requires rest != "" && IsDelimiter(rest[0]) && |m.key| + 3 <= i <= |MemberText(m)|
    ensures !(Pattern(key) <= (MemberText(m) + rest)[i..])
  {
    var v := |m.key| + 3;
    ValueSuffix(m, rest, i);
    match m.value
    case Num(text) => NoMatchInNumber(text, rest, key, i - v);
    case Str(body) => NoMatchInString(body, rest, key, i - v);
  }

  lemma ValueSuffix(m: Member, rest: string, i: nat)
    requires |m.key| + 3 <= i <= |MemberText(m)|
    ensures (MemberText(m) + rest)[i..] == (Render(m.value) + rest)[i - |m.key| - 3..]
  {}

  lemma NoMatchInNumber(text: string, rest: string, key: string, i: nat)
    requires NumberText(text) && PlainKey(key) && rest != "" && IsDelimiter(rest[0]) && i <= |text|
    ensures !(Pattern(key) <= (text + rest)[i..])
  {
    var s := text + rest;
    assert s[i] != '"';
    assert s[i..][0] == s[i] && Pattern(key)[0] == '"';
  }

  lemma NoMatchInString(body: string, rest: string, key: string, i: nat)
    requires QuotesEscaped(body) && PlainKey(key) && rest != "" && IsDelimiter(rest[0]) && i <= |body| + 2
    ensures !(Pattern(key) <= (Render(Str(body)) + rest)[i..])
  {
    var s := Render(Str(body)) + rest;
    var close := |body| + 1;
    assert s[close] == '"' && s[close + 1] == rest[0];
    assert forall x :: 0 < x < close ==> s[x] == body[x - 1];
    if Pattern(key) <= s[i..] { MatchShape(s, key, i); }
  }

  lemma {:induction false} SkipPrefix(a: string, b: string, pattern: string)
    requires pattern != ""
    requires forall i :: 0 <= i < |a| ==> !(pattern <= (a + b)[i..])
    ensures AfterMatch(a + b, pattern) == AfterMatch(b, pattern)
  {
    if a == "" {
      assert a + b == b;
    } else {
      assert (a + b)[0..] == a + b;
      assert (a + b)[1..] == a[1..] + b;
      forall i | 0 <= i < |a[1..]| ensures !(pattern <= (a[1..] + b)[i..]) {
        assert (a[1..] + b)[i..] == (a + b)[i + 1..];
      }
      SkipPrefix(a[1..], b, pattern);
    }
  }

  // ---- Key search finds exactly the member ----

  /** The text from the value of the first member with this key on. */
  function Located(ms: seq<Member>, key: string): Option<string> {
    if ms == [] then None
    else if ms[0].key == key then Some(Render(ms[0].value) + After(ms))
    else Located(ms[1..], key)
  }

  predicate GoodMembers(ms: seq<Member>) { forall i :: 0 <= i < |ms| ==> GoodMember(ms[i]) }

  lemma NoMatchAtEnd(key: string)
    ensures AfterMatch("}", Pattern(key)) == None
  {
    assert AfterMatch("}"[1..], Pattern(key)) == None;
  }

  /** A member with another key is skipped as a whole. */
  lemma SkipMember(ms: seq<Member>, key: string)
    requires ms != [] && GoodMembers(ms) && PlainKey(key) && ms[0].key != key
    ensures AfterMatch(Tail(ms), Pattern(key)) == AfterMatch(Tail(ms[1..]), Pattern(key))
  {
    var head, rest := MemberText(ms[0]), After(ms);
    var skipped := if |ms| == 1 then head else head + ",";
    assert skipped + Tail(ms[1..]) == head + rest;
    MatchAtStart(ms[0], rest, key);
    forall i | 0 <= i < |skipped| ensures !(Pattern(key) <= (head + rest)[i..]) {
      if i == 0 { assert (head + rest)[0..] == head + rest; } else { NoMatchInside(ms[0], rest, key, i); }
    }
    SkipPrefix(skipped, Tail(ms[1..]), Pattern(key));
  }

  lemma HitMember(ms: seq<Member>, key: string)
    requires ms != [] && ms[0].key == key
    ensures AfterMatch(Tail(ms), Pattern(key)) == Some(Render(ms[0].value) + After(ms))
  {
    assert Tail(ms) == Pattern(key) + (Render(ms[0].value) + After(ms));
  }

  lemma {:induction false} TailSearch(ms: seq<Member>, key: string)
    requires GoodMembers(ms) && PlainKey(key)
    ensures AfterMatch(Tail(ms), Pattern(key)) == Located(ms, key)
    decreases |ms|
  {
    if ms == [] {
      NoMatchAtEnd(key);
    } else if ms[0].key == key {
      HitMember(ms, key);
    } else {
      SkipMember(ms, key);
      TailSearch(ms[1..], key);
    }
  }

  lemma ObjectSearch(ms: seq<Member>, key: string)
    requires GoodMembers(ms) && PlainKey(key)
    ensures AfterMatch(ObjectText(ms), Pattern(key)) == Located(ms, key)
  {
    assert ("{" + Tail(ms))[0] != Pattern(key)[0];
    assert ("{" + Tail(ms))[1..] == Tail(ms);
    TailSearch(ms, key);
  }

  /** A search for the pattern and a quote finds the same place if a quote follows there. */
  lemma {:induction false} QuotedSearch(s: string, pattern: string)
    ensures AfterMatch(s, pattern) == None ==> AfterMatch(s, pattern + "\"") == None
    ensures AfterMatch(s, pattern).Some? && "\"" <= AfterMatch(s, pattern).value ==>
              AfterMatch(s, pattern + "\"") == Some(AfterMatch(s, pattern).value[1..])
  {
    if pattern + "\"" <= s { assert pattern <= s; }
    if pattern <= s {
      if "\"" <= s[|pattern|..] {
        assert s == pattern + s[|pattern|..] && s[|pattern|..] == "\"" + s[|pattern|..][1..];
        assert pattern + "\"" <= s;
      }
    } else if s != "" {
      QuotedSearch(s[1..], pattern);
    }
  }

  // ---- Reading values back ----

  lemma {:induction false} UntilNumber(text: string, rest: string)
    requires forall i :: 0 <= i < |text| ==> !IsDelimiter(text[i])
    requires rest != "" && IsDelimiter(rest[0])
    ensures UntilDelimiter(text + rest) == text
  {
    if text == "" {
      assert text + rest == rest;
    } else {
      assert (text + rest)[1..] == text[1..] + rest;
      UntilNumber(text[1..], rest);
    }
  }

  lemma {:induction false} BeforeClosing(body: string, rest: string)
    requires '"' !in body
    ensures BeforeQuote(body + "\"" + rest) == Some(body)
  {
    var s := body + "\"" + rest;
    if body != "" {
      assert s[1..] == body[1..] + "\"" + rest;
      BeforeClosing(body[1..], rest);
      assert [s[0]] + body[1..] == body;
    }
  }

  /** The member with a given key, if any. */
  function Lookup(ms: seq<Member>, key: string): Option<Field> {
    if ms == [] then None else if ms[0].key == key then Some(ms[0].value) else Lookup(ms[1..], key)
  }

  lemma {:induction false} LocatedValue(ms: seq<Member>, key: string)
    requires GoodMembers(ms)
    ensures Located(ms, key).Some? <==> Lookup(ms, key).Some?
    ensures Lookup(ms, key).Some? ==>
              exists rest :: rest != "" && IsDelimiter(rest[0])
                             && Located(ms, key).value == Render(Lookup(ms, key).value) + rest
    ensures Lookup(ms, key).Some? ==> GoodMember(Member("x", Lookup(ms, key).value))
  {
    if ms != [] {
      if ms[0].key == key {
        var rest := After(ms);
        assert rest != "" && IsDelimiter(rest[0]) && Located(ms, key).value == Render(ms[0].value) + rest;
        assert GoodMember(ms[0]);
      } else {
        LocatedValue(ms[1..], key);
      }
    }
  }

  /** For every object: reading a number key returns exactly its text, or "" if it is
      absent, whatever the string members contain. */
  lemma RawReadsNumber(ms: seq<Member>, key: string)
    requires GoodMembers(ms) && PlainKey(key)
    ensures Lookup(ms, key) == None ==> GetRaw(ObjectText(ms), key) == ""
    ensures forall text :: Lookup(ms, key) == Some(Num(text)) ==> GetRaw(ObjectText(ms), key) == text
  {
    ObjectSearch(ms, key);
    LocatedValue(ms, key);
    forall text | Lookup(ms, key) == Some(Num(text)) ensures GetRaw(ObjectText(ms), key) == text {
      var rest :| rest != "" && IsDelimiter(rest[0]) && Located(ms, key).value == text + rest;
      UntilNumber(text, rest);
    }
  }

  /** Reading a string key whose body has no quote returns exactly that body. */
  lemma StringReadsBody(ms: seq<Member>, key: string, body: string)
    requires GoodMembers(ms) && PlainKey(key) && Lookup(ms, key) == Some(Str(body)) && '"' !in body
    ensures GetString(ObjectText(ms), key) == body
  {
    ObjectSearch(ms, key);
    LocatedValue(ms, key);
    var rest :| rest != "" && Located(ms, key).value == Render(Str(body)) + rest;
    QuotedSearch(ObjectText(ms), Pattern(key));
    QuotedBody(body, rest);
  }

  lemma QuotedBody(body: string, rest: string)
    requires '"' !in body
    ensures var s := Render(Str(body)) + rest;
            "\"" <= s && BeforeQuote(s[1..]) == Some(body)
  {
    assert (Render(Str(body)) + rest)[1..] == body + "\"" + rest;
    BeforeClosing(body, rest);
  }

  // ---- The signal ----

  /** A signal with its numbers as the encoder prints them. */
  datatype InboundSignal = InboundSignal(
    ticket: string, kind: string, symbol: string, direction: string,
    price: string, sl: Option<string>, tp: Option<string>, lot: string, timestamp: string)

  predicate Validated(sig: InboundSignal) {
    && sig.kind in {"OPEN", "MODIFY", "CLOSE", "PARTIAL"}
    && sig.direction in {"BUY", "SELL"}
    && NumberText(sig.ticket) && NumberText(sig.price) && NumberText(sig.lot)
    && (sig.sl.Some? ==> NumberText(sig.sl.value)) && (sig.tp.Some? ==> NumberText(sig.tp.value))
    && '"' !in sig.timestamp
  }

  /** An `omitempty` pointer field. */
  function Optional(key: string, text: Option<string>): seq<Member> {
    match text { case None => [] case Some(t) => [Member(key, Num(t))] }
  }

  function Front(sig: InboundSignal): seq<Member> {
    [Member("ticket_id", Num(sig.ticket)), Member("signal_type", Str(sig.kind)),
     Member("symbol", Str(Escape(sig.symbol))), Member("direction", Str(sig.direction)),
     Member("price", Num(sig.price))]
  }

  function Back(sig: InboundSignal): seq<Member> {
    [Member("lot", Num(sig.lot)), Member("timestamp", Str(sig.timestamp))]
  }

  /** The members in field order. */
  function SignalMembers(sig: InboundSignal): seq<Member> {
    Front(sig) + Optional("sl", sig.sl) + Optional("tp", sig.tp) + Back(sig)
  }

  function Encode(sig: InboundSignal): string { ObjectText(SignalMembers(sig)) }

  lemma {:induction false} LookupConcat(a: seq<Member>, b: seq<Member>, key: string)
    ensures Lookup(a + b, key) == if Lookup(a, key).Some? then Lookup(a, key) else Lookup(b, key)
  {
    if a == [] {
      assert a + b == b;
    } else {
      assert (a + b)[1..] == a[1..] + b;
      LookupConcat(a[1..], b, key);
    }
  }

  lemma GoodConcat(a: seq<Member>, b: seq<Member>)
    requires GoodMembers(a) && GoodMembers(b)
    ensures GoodMembers(a + b)
  {}

  lemma KeysPlain()
    ensures PlainKey("ticket_id") && PlainKey("signal_type") && PlainKey("symbol") && PlainKey("direction")
    ensures PlainKey("price") && PlainKey("sl") && PlainKey("tp") && PlainKey("lot") && PlainKey("timestamp")
  {}

  lemma NoQuotes(body: string)
    requires '"' !in body
    ensures QuotesEscaped(body)
  {}

  lemma FrontGood(sig: InboundSignal)
    requires Validated(sig)
    ensures GoodMembers(Front(sig))
  {
    KeysPlain();
    EscapeQuotes(sig.symbol);
    NoQuotes(sig.kind);
    NoQuotes(sig.direction);
  }

  lemma SignalMembersGood(sig: InboundSignal)
    requires Validated(sig)
    ensures GoodMembers(SignalMembers(sig))
  {
    FrontGood(sig);
    KeysPlain();
    NoQuotes(sig.timestamp);
    var sl, tp := Optional("sl", sig.sl), Optional("tp", sig.tp);
    GoodConcat(Front(sig), sl);
    GoodConcat(Front(sig) + sl, tp);
    GoodConcat(Front(sig) + sl + tp, Back(sig));
  }

  /** The field of a signal that a key names. */
  function SignalField(sig: InboundSignal, key: string): Option<Field> {
    match key
    case "ticket_id" => Some(Num(sig.ticket))
    case "signal_type" => Some(Str(sig.kind))
    case "symbol" => Some(Str(Escape(sig.symbol)))
    case "direction" => Some(Str(sig.direction))
    case "price" => Some(Num(sig.price))
    case "sl" => if sig.sl == None then None else Some(Num(sig.sl.value))
    case "tp" => if sig.tp == None then None else Some(Num(sig.tp.value))
    case "lot" => Some(Num(sig.lot))
    case "timestamp" => Some(Str(sig.timestamp))
    case _ => None
  }

  lemma LookupFirst(m: Member, ms: seq<Member>, key: string)
    ensures Lookup([m] + ms, key) == if m.key == key then Some(m.value) else Lookup(ms, key)
  {
    assert ([m] + ms)[1..] == ms;
  }

  lemma FrontLookup(sig: InboundSignal, key: string)
    ensures Lookup(Front(sig), key)
         == if key in {"ticket_id", "signal_type", "symbol", "direction", "price"} then SignalField(sig, key) else None
  {
    var f := Front(sig);
    LookupFirst(f[4], [], key);
    LookupFirst(f[3], [f[4]], key);
    LookupFirst(f[2], [f[3], f[4]], key);
    LookupFirst(f[1], [f[2], f[3], f[4]], key);
    LookupFirst(f[0], [f[1], f[2], f[3], f[4]], key);
    assert f == [f[0]] + [f[1], f[2], f[3], f[4]];
  }

  /** Every key is found where it belongs, and no other key is. */
  lemma SignalLookup(sig: InboundSignal, key: string)
    ensures Lookup(SignalMembers(sig), key) == SignalField(sig, key)
  {
    var f, sl, tp, back := Front(sig), Optional("sl", sig.sl), Optional("tp", sig.tp), Back(sig);
    LookupConcat(f, sl, key);
    LookupConcat(f + sl, tp, key);
    LookupConcat(f + sl + tp, back, key);
    FrontLookup(sig, key);
    if sig.sl.Some? { LookupFirst(sl[0], [], key); }
    if sig.tp.Some? { LookupFirst(tp[0], [], key); }
    LookupFirst(back[1], [], key);
    LookupFirst(back[0], [back[1]], key);
  }

  /** The text the receiver should read for a number key: "", which it takes for 0, for
      an omitted stop. */
  function NumberField(sig: InboundSignal, key: string): string {
    match key
    case "ticket_id" => sig.ticket
    case "price" => sig.price
    case "lot" => sig.lot
    case "sl" => if sig.sl == None then "" else sig.sl.value
    case "tp" => if sig.tp == None then "" else sig.tp.value
    case _ => ""
  }

  lemma NumberReadBack(sig: InboundSignal, key: string)
    requires Validated(sig) && PlainKey(key) && key in {"ticket_id", "price", "sl", "tp", "lot"}
    ensures GetRaw(Encode(sig), key) == NumberField(sig, key)
  {
    SignalMembersGood(sig);
    SignalLookup(sig, key);
    RawReadsNumber(SignalMembers(sig), key);
  }

  lemma TextReadBack(sig: InboundSignal, key: string)
    requires Validated(sig) && PlainKey(key) && key in {"signal_type", "direction"}
    ensures GetString(Encode(sig), key) == if key == "signal_type" then sig.kind else sig.direction
  {
    SignalMembersGood(sig);
    SignalLookup(sig, key);
    StringReadsBody(SignalMembers(sig), key, if key == "signal_type" then sig.kind else sig.direction);
  }

  /** For every validated signal, every symbol text and every key the receiver asks for:
      its substring searches return exactly the encoded field.  No symbol, whatever it
      contains, can pose as a field or hide one. */
  lemma ReceiverReadsBack(sig: InboundSignal, key: string)
    requires Validated(sig)
    ensures key in {"ticket_id", "price", "sl", "tp", "lot"} ==>
              GetRaw(Encode(sig), key) == NumberField(sig, key)
    ensures key == "signal_type" ==> GetString(Encode(sig), key) == sig.kind
    ensures key == "direction" ==> GetString(Encode(sig), key) == sig.direction
  {
    KeysPlain();
    if key in {"ticket_id", "price", "sl", "tp", "lot"} {
      NumberReadBack(sig, key);
    } else if key == "signal_type" || key == "direction" {
      TextReadBack(sig, key);
    }
  }

  // ---- The searches as the EA runs them ----

  /** An occurrence of the pattern at index i. */
  predicate OccursAt(s: string, pattern: string, i: nat) {
    i + |pattern| <= |s| && s[i..i + |pattern|] == pattern
  }

  /** The index of the first occurrence at or after `from`, or -1. */
  method StringFind(s: string, pattern: string, from: nat) returns (index: int)
    ensures index < 0 ==> forall i :: from <= i <= |s| ==> !OccursAt(s, pattern, i)
    ensures index >= 0 ==> from <= index && OccursAt(s, pattern, index)
    ensures index >= 0 ==> forall i :: from <= i < index ==> !OccursAt(s, pattern, i)
  {
    index := from;
    while index + |pattern| <= |s|
      invariant from <= index
      invariant forall i :: from <= i < index ==> !OccursAt(s, pattern, i)
    {
      if s[index..index + |pattern|] == pattern { return; }
      index := index + 1;
    }
    index := -1;
  }

  lemma OccursIsPrefix(s: string, pattern: string, i: nat)
    requires i <= |s|
    ensures OccursAt(s, pattern, i) <==> pattern <= s[i..]
    ensures OccursAt(s, pattern, i) ==> s[i..][|pattern|..] == s[i + |pattern|..]
  {
    if i + |pattern| <= |s| { assert s[i..][..|pattern|] == s[i..i + |pattern|]; }
  }

  /** The first occurrence is where AfterMatch cuts. */
  lemma {:induction false} FoundAt(s: string, pattern: string, from: nat, index: nat)
    requires from <= index && OccursAt(s, pattern, index)
    requires forall i :: from <= i < index ==> !OccursAt(s, pattern, i)
    ensures AfterMatch(s[from..], pattern) == Some(s[index + |pattern|..])
    decreases index - from
  {
    OccursIsPrefix(s, pattern, from);
    if from < index {
      assert s[from..][1..] == s[from + 1..];
      FoundAt(s, pattern, from + 1, index);
    }
  }

  lemma {:induction false} FoundNowhere(s: string, pattern: string, from: nat)
    requires from <= |s| && forall i :: from <= i <= |s| ==> !OccursAt(s, pattern, i)
    ensures AfterMatch(s[from..], pattern) == None
    decreases |s| - from
  {
    OccursIsPrefix(s, pattern, from);
    if from < |s| {
      assert s[from..][1..] == s[from + 1..];
      FoundNowhere(s, pattern, from + 1);
    }
  }

  method JSONGetRaw(json: string, key: string) returns (value: string)
    ensures value == GetRaw(json, key)
  {
    var search := "\"" + key + "\":";
    assert search == Pattern(key) && json[0..] == json;
    var start := StringFind(json, search, 0);
    if start < 0 {
      FoundNowhere(json, search, 0);
      return "";
    }
    FoundAt(json, search, 0, start);
    start := SkipFrom(json, start + |search|);
    value := TakeFrom(json, start);
  }

  method SkipFrom(json: string, from: nat) returns (start: nat)
    requires from <= |json|
    ensures start <= |json| && json[start..] == SkipSpaces(json[from..])
  {
    start := from;
    while start < |json| && json[start] == ' '
      invariant from <= start <= |json| && SkipSpaces(json[from..]) == SkipSpaces(json[start..])
    {
      assert json[start..][1..] == json[start + 1..];
      start := start + 1;
    }
  }

  lemma UntilStep(json: string, start: nat, end: nat)
    requires start <= end < |json| && !IsDelimiter(json[end])
    ensures json[start..end] + UntilDelimiter(json[end..]) == json[start..end + 1] + UntilDelimiter(json[end + 1..])
  {
    assert json[end..][1..] == json[end + 1..];
    assert UntilDelimiter(json[end..]) == [json[end]] + UntilDelimiter(json[end + 1..]);
    assert json[start..end] + [json[end]] == json[start..end + 1];
  }

  method TakeFrom(json: string, start: nat) returns (value: string)
    requires start <= |json|
    ensures value == UntilDelimiter(json[start..])
  {
    var end := start;
    while end < |json|
      invariant start <= end <= |json|
      invariant UntilDelimiter(json[start..]) == json[start..end] + UntilDelimiter(json[end..])
    {
      if IsDelimiter(json[end]) { break; }
      UntilStep(json, start, end);
      end := end + 1;
    }
    value := json[start..end];
  }

  method JSONGetString(json: string, key: string) returns (value: string)
    ensures value == GetString(json, key)
  {
    var search := "\"" + key + "\":\"";
    assert search == Pattern(key) + "\"" && json[0..] == json;
    var start := StringFind(json, search, 0);
    if start < 0 {
      FoundNowhere(json, search, 0);
      return "";
    }
    FoundAt(json, search, 0, start);
    start := start + |search|;
    value := QuotedFrom(json, start);
  }

  method QuotedFrom(json: string, start: nat) returns (value: string)
    requires start <= |json|
    ensures value == match BeforeQuote(json[start..]) { case None => "" case Some(t) => t }
  {
    var end := StringFind(json, "\"", start);
    forall i | start <= i < |json| ensures OccursAt(json, "\"", i) <==> json[i] == '"' {
      assert json[i..i + 1] == [json[i]];
    }
    if end < 0 {
      NoQuote(json[start..]);
      return "";
    }
    value := json[start..end];
    assert json[start..][..end - start] == value;
    BeforeQuoteAt(json[start..], end - start);
  }

  lemma {:induction false} NoQuote(s: string)
    requires '"' !in s
    ensures BeforeQuote(s) == None
  {
    if s != "" { NoQuote(s[1..]); }
  }

  lemma {:induction false} BeforeQuoteAt(s: string, n: nat)
    requires n < |s| && s[n] == '"' && forall i :: 0 <= i < n ==> s[i] != '"'
    ensures BeforeQuote(s) == Some(s[..n])
  {
    if n > 0 {
      BeforeQuoteAt(s[1..], n - 1);
      assert [s[0]] + s[1..][..n - 1] == s[..n];
    }
  }
}
