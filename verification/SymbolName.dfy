/** Trimming, upper-casing and cutting a symbol name at its first dot.  Letters are
    upper-cased in ASCII only. */
module SymbolName {
  /** unicode.IsSpace: the characters with the Unicode property White_Space. */
  predicate Space(c: char) {
    var n := c as int;
    || 9 <= n <= 13 || n == 0x20 || n == 0x85 || n == 0xA0 || n == 0x1680
    || 0x2000 <= n <= 0x200A || n == 0x2028 || n == 0x2029 || n == 0x202F || n == 0x205F || n == 0x3000
  }

  /** The same, listed as in PropList.txt of the Unicode Character Database. */
  const WHITE_SPACE :=
    "\t\n\U{000B}\U{000C}\r \U{0085}\U{00A0}\U{1680}\U{2000}\U{2001}\U{2002}\U{2003}\U{2004}\U{2005}"
    + "\U{2006}\U{2007}\U{2008}\U{2009}\U{200A}\U{2028}\U{2029}\U{202F}\U{205F}\U{3000}"

  lemma SpaceIff(c: char)
    ensures Space(c) <==> c in WHITE_SPACE
  {}

  function TrimLeft(s: string): string { if s != "" && Space(s[0]) then TrimLeft(s[1..]) else s }

  function TrimRight(s: string): string {
    if s != "" && Space(s[|s| - 1]) then TrimRight(s[..|s| - 1]) else s
  }

  function TrimSpace(s: string): string { TrimRight(TrimLeft(s)) }

  function UpperChar(c: char): char { if 'a' <= c <= 'z' then (c as int - 32) as char else c }

  const SMALL := "abcdefghijklmnopqrstuvwxyz"

  /** The k-th small letter becomes the k-th capital, and nothing else changes. */
  lemma UpperCharIs(c: char, k: nat)
    requires k < 26
    ensures UpperChar(SMALL[k]) == "ABCDEFGHIJKLMNOPQRSTUVWXYZ"[k]
    ensures UpperChar(c) == c || c in SMALL
  {
    if 'a' <= c <= 'z' { assert c == SMALL[c as int - 'a' as int]; }
  }

  function ToUpper(s: string): string { seq(|s|, i requires 0 <= i < |s| => UpperChar(s[i])) }

  /** The text before the first dot, or all of it. */
  function BeforeDot(s: string): string {
    if s == "" || s[0] == '.' then "" else [s[0]] + BeforeDot(s[1..])
  }

  function Normalize(s: string): string { BeforeDot(ToUpper(TrimSpace(s))) }

  predicate Trimmed(s: string) { s == "" || (!Space(s[0]) && !Space(s[|s| - 1])) }

  lemma {:induction false} TrimLeftTrims(s: string)
    ensures TrimLeft(s) == "" || !Space(TrimLeft(s)[0])
  {
    if s != "" && Space(s[0]) { TrimLeftTrims(s[1..]); }
  }

  lemma {:induction false} TrimRightTrims(s: string)
    ensures TrimRight(s) == "" || !Space(TrimRight(s)[|TrimRight(s)| - 1])
    ensures TrimRight(s) <= s
  {
    if s != "" && Space(s[|s| - 1]) { TrimRightTrims(s[..|s| - 1]); }
  }

  lemma TrimIsTrimmed(s: string)
    ensures Trimmed(TrimSpace(s))
    ensures Trimmed(s) ==> TrimSpace(s) == s
  {
    TrimLeftTrims(s);
    TrimRightTrims(TrimLeft(s));
  }

  lemma {:induction false} BeforeDotShape(s: string)
    ensures BeforeDot(s) <= s && '.' !in BeforeDot(s)
    ensures '.' !in s ==> BeforeDot(s) == s
  {
    if s != "" && s[0] != '.' { BeforeDotShape(s[1..]); }
  }

  lemma UpperFixed(s: string)
    ensures ToUpper(ToUpper(s)) == ToUpper(s)
    ensures forall i :: 0 <= i < |s| ==> (Space(ToUpper(s)[i]) <==> Space(s[i]))
  {}

  predicate EndsInSpace(s: string) { s != "" && Space(s[|s| - 1]) }

  lemma NormalizeShape(s: string)
    ensures var r := Normalize(s);
            && ToUpper(r) == r && '.' !in r && (r == "" || !Space(r[0]))
  {
    var t := TrimSpace(s);
    var u, r := ToUpper(t), Normalize(s);
    TrimIsTrimmed(s);
    BeforeDotShape(u);
    UpperFixed(t);
    assert forall i :: 0 <= i < |r| ==> r[i] == u[i];
    assert ToUpper(r) == r by { assert forall i :: 0 <= i < |u| ==> UpperChar(u[i]) == ToUpper(u)[i]; }
  }

  lemma FixedIff(s: string)
    ensures Normalize(Normalize(s)) == Normalize(s) <==> !EndsInSpace(Normalize(s))
  {
    var r := Normalize(s);
    NormalizeShape(s);
    TrimIsTrimmed(r);
    NormalizeTrimmed(r);
    if EndsInSpace(r) { UpperFixed(TrimSpace(r)); }
  }

  lemma NormalizeTrimmed(s: string)
    ensures Normalize(s) == "" || !Space(Normalize(s)[0])
    ensures '.' !in s ==> Normalize(s) == ToUpper(TrimSpace(s))
  {
    TrimIsTrimmed(s);
    var u := ToUpper(TrimSpace(s));
    BeforeDotShape(u);
    UpperFixed(TrimSpace(s));
    TrimSubset(s);
  }

  lemma {:induction false} TrimLeftSubset(s: string)
    ensures forall c :: c in TrimLeft(s) ==> c in s
  {
    if s != "" && Space(s[0]) { TrimLeftSubset(s[1..]); }
  }

  lemma TrimSubset(s: string)
    ensures forall c :: c in TrimSpace(s) ==> c in s
  {
    TrimLeftSubset(s);
    TrimRightTrims(TrimLeft(s));
  }

  /** White space right before the first dot, behind something that is not white space. */
  ghost predicate SpaceBeforeDot(s: string) {
    exists d: nat :: SpaceDotAt(s, d)
  }

  predicate SpaceDotAt(s: string, d: nat) {
    && 0 < d < |s| && s[d] == '.' && '.' !in s[..d] && Space(s[d - 1])
    && exists i :: 0 <= i < d && !Space(s[i])
  }

  lemma {:induction false} TrimLeftIs(s: string)
    ensures |TrimLeft(s)| <= |s| && TrimLeft(s) == s[|s| - |TrimLeft(s)|..]
    ensures forall i :: 0 <= i < |s| - |TrimLeft(s)| ==> Space(s[i])
  {
    if s != "" && Space(s[0]) {
      TrimLeftIs(s[1..]);
      assert forall i :: 1 <= i < |s| ==> s[i] == s[1..][i - 1];
    }
  }

  lemma {:induction false} TrimRightIs(s: string)
    ensures |TrimRight(s)| <= |s| && TrimRight(s) == s[..|TrimRight(s)|]
    ensures forall i :: |TrimRight(s)| <= i < |s| ==> Space(s[i])
  {
    if s != "" && Space(s[|s| - 1]) { TrimRightIs(s[..|s| - 1]); }
  }

  /** Trimming cuts white space at both ends: the result is s[n..n + m]. */
  lemma TrimIs(s: string) returns (n: nat)
    ensures n + |TrimSpace(s)| <= |s| && TrimSpace(s) == s[n..n + |TrimSpace(s)|]
    ensures forall i :: 0 <= i < n || n + |TrimSpace(s)| <= i < |s| ==> Space(s[i])
  {
    TrimLeftIs(s);
    TrimRightIs(TrimLeft(s));
    n := |s| - |TrimLeft(s)|;
    var t := TrimLeft(s);
    assert forall i :: n <= i < |s| ==> s[i] == t[i - n];
    assert s[n..n + |TrimSpace(s)|] == t[..|TrimSpace(s)|];
  }

  lemma {:induction false} BeforeDotStops(u: string)
    ensures var r := BeforeDot(u);
            r == u || (|r| < |u| && u[|r|] == '.' && r == u[..|r|])
  {
    if u != "" && u[0] != '.' { BeforeDotStops(u[1..]); }
  }

  /** The normal form is the upper-cased s[n..n + m], cut by a dot or by white space
      that reaches the end. */
  lemma NormalForm(s: string) returns (n: nat)
    ensures var m := |Normalize(s)|;
            && n + m <= |s|
            && (forall j :: n <= j < n + m ==> Normalize(s)[j - n] == UpperChar(s[j]) && s[j] != '.')
            && (forall i :: 0 <= i < n ==> Space(s[i]))
            && (m > 0 ==> !Space(s[n]))
            && ((n + m < |s| && s[n + m] == '.') || (forall i :: n + m <= i < |s| ==> Space(s[i])))
            && (EndsInSpace(Normalize(s)) ==> n + m < |s| && s[n + m] == '.')
  {
    n := TrimIs(s);
    var t, r := TrimSpace(s), Normalize(s);
    TrimIsTrimmed(s);
    CutForm(t);
    forall j | n <= j < n + |r| ensures r[j - n] == UpperChar(s[j]) && s[j] != '.' {
      assert t[j - n] == s[j];
    }
    if |r| < |t| { assert t[|r|] == s[n + |r|]; }
    if |r| > 0 { assert t[0] == s[n]; }
  }

  /** Cutting the upper-cased text at its first dot. */
  lemma CutForm(t: string)
    requires Trimmed(t)
    ensures var r := BeforeDot(ToUpper(t));
            && |r| <= |t|
            && (forall i :: 0 <= i < |r| ==> r[i] == UpperChar(t[i]) && t[i] != '.')
            && (|r| < |t| ==> t[|r|] == '.')
            && (|r| == |t| ==> !EndsInSpace(r))
  {
    var u := ToUpper(t);
    UpperFixed(t);
    BeforeDotShape(u);
    BeforeDotStops(u);
    assert forall i :: 0 <= i < |t| ==> (u[i] == '.' <==> t[i] == '.');
  }

  lemma EndsInSpaceIff(s: string)
    ensures EndsInSpace(Normalize(s)) <==> SpaceBeforeDot(s)
  {
    var n := NormalForm(s);
    var d := n + |Normalize(s)|;
    if EndsInSpace(Normalize(s)) {
      assert Normalize(s)[d - 1 - n] == UpperChar(s[d - 1]);
      assert SpaceDotAt(s, d);
    }
    if e: nat :| SpaceDotAt(s, e) {
      FirstDotUnique(s, n, d, e);
      assert Normalize(s)[d - 1 - n] == UpperChar(s[d - 1]);
    }
  }

  lemma FirstDotUnique(s: string, n: nat, d: nat, e: nat)
    requires n <= d <= |s| && SpaceDotAt(s, e)
    requires forall j :: n <= j < d ==> s[j] != '.'
    requires forall i :: 0 <= i < n ==> Space(s[i])
    requires (d < |s| && s[d] == '.') || forall i :: d <= i < |s| ==> Space(s[i])
    ensures d == e && n < d
  {
    var i :| 0 <= i < e && !Space(s[i]);
    assert forall j :: 0 <= j < e ==> s[..e][j] == s[j];
  }

  /** Normalising twice changes nothing exactly when no white space stands between the
      first dot and a non-blank character before it. */
  lemma NormalizeIdempotentIff(s: string)
    ensures Normalize(Normalize(s)) == Normalize(s) <==> !SpaceBeforeDot(s)
  {
    FixedIff(s);
    EndsInSpaceIff(s);
  }

  /** A symbol normalises to the empty text, which validation no longer sees, exactly when
      every character other than white space comes behind a dot or is one. */
  lemma NormalizesToEmptyIff(s: string)
    ensures Normalize(s) == ""
       <==> forall i :: 0 <= i < |s| && !Space(s[i]) && s[i] != '.' ==> '.' in s[..i]
  {
    var n := NormalForm(s);
    if Normalize(s) == "" {
      forall i | 0 <= i < |s| && !Space(s[i]) && s[i] != '.' ensures '.' in s[..i] {
        assert s[..i][n] == s[n];
      }
    } else {
      assert s[n] != '.';
      assert forall j :: 0 <= j < n ==> s[..n][j] == s[j];
    }
  }
}
