/** The text the monitor signs: ticket:type:symbol:timestamp. */
module SignedMessage {
  predicate Digit(c: char) { '0' <= c <= '9' }

  predicate Digits(t: string, from: nat, to: nat)
    requires from <= to <= |t|
  {
    forall i :: from <= i < to ==> Digit(t[i])
  }

  /** "Z" or a numeric offset. */
  predicate IsZone(z: string) {
    z == "Z" || (|z| == 6 && z[0] in {'+', '-'} && Digits(z, 1, 3) && z[3] == ':' && Digits(z, 4, 6))
  }

  /** A fraction of a second: a period or comma and at least one digit, or nothing. */
  predicate IsFraction(f: string) {
    f == "" || (|f| >= 2 && f[0] in {'.', ','} && Digits(f, 1, |f|))
  }

  predicate IsDate(t: string) {
    && |t| >= 11
    && Digits(t, 0, 4) && t[4] == '-' && Digits(t, 5, 7) && t[7] == '-' && Digits(t, 8, 10) && t[10] == 'T'
  }

  /** The text from the colon behind the hour to the end; the fraction is n long. */
  predicate IsMinutes(u: string, n: nat) {
    && 6 + n <= |u|
    && u[0] == ':' && Digits(u, 1, 3) && u[3] == ':' && Digits(u, 4, 6)
    && IsFraction(u[6..6 + n]) && IsZone(u[6 + n..])
  }

  /** Texts of the shape time.Parse(time.RFC3339, _) accepts: section 5.6 of RFC 3339,
      with one- or two-digit hours. */
  ghost predicate IsTimestamp(t: string) {
    IsDate(t) && exists h: nat, n: nat :: IsClock(t, h, n)
  }

  predicate IsClock(t: string, h: nat, n: nat) {
    1 <= h <= 2 && 11 + h <= |t| && Digits(t, 11, 11 + h) && IsMinutes(t[11 + h..], n)
  }

  function Message(ticket: string, kind: string, symbol: string, timestamp: string): string {
    ticket + ":" + kind + ":" + symbol + ":" + timestamp
  }

  predicate Decimal(t: string, n: nat) { |t| == n && forall i :: 0 <= i < n ==> t[i] in "0123456789" }

  function Date(year: string, month: string, day: string): string { year + "-" + month + "-" + day + "T" }

  lemma DateAccepted(year: string, month: string, day: string)
    requires Decimal(year, 4) && Decimal(month, 2) && Decimal(day, 2)
    ensures IsDate(Date(year, month, day)) && |Date(year, month, day)| == 11
  {
    assert forall i :: 0 <= i < 2 ==> Digit(month[i]) && Digit(day[i]);
  }

  lemma ZoneAccepted(z: string)
    requires |z| == 6 && z[0] in "+-" && Decimal(z[1..3], 2) && z[3] == ':' && Decimal(z[4..], 2)
    ensures IsZone(z)
  {
    assert z[1] == z[1..3][0] && z[2] == z[1..3][1] && z[4] == z[4..][0] && z[5] == z[4..][1];
  }

  lemma FractionAccepted(f: string)
    requires |f| >= 2 && f[0] in ".," && Decimal(f[1..], |f| - 1)
    ensures IsFraction(f)
  {
    assert forall i :: 1 <= i < |f| ==> f[i] == f[1..][i - 1];
  }

  /** Every date, time of day, fraction and zone of the right form makes a timestamp. */
  lemma TimestampAccepted(year: string, month: string, day: string, hour: string, minute: string, second: string,
                          f: string, z: string)
    requires Decimal(year, 4) && Decimal(month, 2) && Decimal(day, 2)
    requires (Decimal(hour, 1) || Decimal(hour, 2)) && Decimal(minute, 2) && Decimal(second, 2)
    requires f == "" || (|f| >= 2 && f[0] in ".," && Decimal(f[1..], |f| - 1))
    requires z == "Z" || (|z| == 6 && z[0] in "+-" && Decimal(z[1..3], 2) && z[3] == ':' && Decimal(z[4..], 2))
    ensures IsTimestamp(Date(year, month, day) + (hour + (":" + minute + ":" + second)) + f + z)
  {
    DateAccepted(year, month, day);
    if f != "" { FractionAccepted(f); }
    if z != "Z" { ZoneAccepted(z); }
    assert Digits(":" + minute + ":" + second, 1, 3) by { assert forall i :: 0 <= i < 2 ==> Digit(minute[i]); }
    assert Digits(":" + minute + ":" + second, 4, 6) by { assert forall i :: 0 <= i < 2 ==> Digit(second[i]); }
    Joined(Date(year, month, day), hour, ":" + minute + ":" + second, f, z);
  }

  lemma Joined(day: string, hour: string, minutes: string, f: string, z: string)
    requires |day| == 11 && IsDate(day) && (Decimal(hour, 1) || Decimal(hour, 2))
    requires |minutes| == 6 && minutes[0] == ':' && Digits(minutes, 1, 3) && minutes[3] == ':' && Digits(minutes, 4, 6)
    requires IsFraction(f) && IsZone(z)
    ensures IsTimestamp(day + (hour + minutes) + f + z)
  {
    var t, u := day + (hour + minutes) + f + z, minutes + f + z;
    assert t[11 + |hour|..] == u;
    assert forall i :: 0 <= i < |hour| ==> t[11 + i] == hour[i];
    assert IsMinutes(u, |f|) by {
      assert u[6..6 + |f|] == f && u[6 + |f|..] == z;
      assert forall i :: 0 <= i < 6 ==> u[i] == minutes[i];
    }
    assert IsClock(t, |hour|, |f|);
    assert forall i :: 0 <= i < 11 ==> t[i] == day[i];
  }

  /** No timestamp starts right behind a colon of another one. */
  lemma NoTimestampInside(t: string, k: nat)
    requires IsTimestamp(t) && k < |t| && t[k] == ':'
    ensures !IsDate(t[k + 1..])
  {
    var h: nat, n: nat :| IsClock(t, h, n);
    ColonBehindHour(t, h, n, k);
    SliceOfSlice(t, 11 + h, k);
    NoDateInMinutes(t[11 + h..], n, k - 11 - h);
  }

  lemma SliceOfSlice(t: string, c: nat, k: nat)
    requires c <= k < |t|
    ensures t[c..][k - c] == t[k] && t[c..][k - c + 1..] == t[k + 1..]
  {}

  lemma ColonBehindHour(t: string, h: nat, n: nat, k: nat)
    requires IsDate(t) && IsClock(t, h, n) && k < |t| && t[k] == ':'
    ensures k >= 11 + h
  {
    assert forall i :: 0 <= i < 4 || 5 <= i < 7 || 8 <= i < 10 || 11 <= i < 11 + h ==> Digit(t[i]);
  }

  /** What follows a colon from the hour's on does not look like a date. */
  lemma NoDateInMinutes(u: string, n: nat, k: nat)
    requires IsMinutes(u, n) && k < |u| && u[k] == ':'
    ensures !IsDate(u[k + 1..])
  {
    if k == 0 {
      assert u[1..][2] == u[3];
    } else if k == 3 {
      if |u| > 6 { AfterSeconds(u, n); assert u[4..][2] == u[6]; }
    } else {
      ColonInZone(u, n, k);
    }
  }

  lemma AfterSeconds(u: string, n: nat)
    requires IsMinutes(u, n) && |u| > 6
    ensures !Digit(u[6])
  {
    if n > 0 { assert u[6..6 + n][0] == u[6]; } else { assert u[6..][0] == u[6]; }
  }

  /** Behind the seconds the only colon is the offset's, three characters from the end. */
  lemma ColonInZone(u: string, n: nat, k: nat)
    requires IsMinutes(u, n) && k < |u| && u[k] == ':' && k != 0 && k != 3
    ensures k == |u| - 3
  {
    var f, z := u[6..6 + n], u[6 + n..];
    assert forall i :: 6 <= i < 6 + n ==> u[i] == f[i - 6];
    assert z[k - 6 - n] == u[k];
  }

  /** A colon-free field is determined by the text it starts. */
  lemma {:induction false} FirstField(a: string, x: string, b: string, y: string)
    requires ':' !in a && ':' !in b && a + ":" + x == b + ":" + y
    ensures a == b && x == y
  {
    var s, t := a + ":" + x, b + ":" + y;
    assert s[|a|] == ':' && t[|b|] == ':';
    assert forall i :: 0 <= i < |a| ==> s[i] == a[i];
    assert forall i :: 0 <= i < |b| ==> t[i] == b[i];
    assert s[..|a|] == a && t[..|a|] == b;
    assert s[|a| + 1..] == x && t[|a| + 1..] == y;
  }

  /** Symbol and timestamp are determined by their joined text, even if the symbol
      contains colons. */
  lemma LastField(s: string, t: string, s': string, t': string)
    requires IsTimestamp(t) && IsTimestamp(t') && s + ":" + t == s' + ":" + t'
    ensures s == s' && t == t'
  {
    NotLonger(s, t, s', t');
    NotLonger(s', t', s, t);
    var x, y := s + ":" + t, s' + ":" + t';
    assert x[..|s|] == s && y[..|s|] == s' && x[|s| + 1..] == t && y[|s| + 1..] == t';
  }

  lemma NotLonger(s: string, t: string, s': string, t': string)
    requires IsTimestamp(t) && IsTimestamp(t') && s + ":" + t == s' + ":" + t'
    ensures |t'| <= |t|
  {
    if |t| < |t'| {
      var k := |t'| - |t| - 1;
      SharedSuffix(s, t, s', t', k);
      NoTimestampInside(t', k);
    }
  }

  lemma SharedSuffix(s: string, t: string, s': string, t': string, k: nat)
    requires s + ":" + t == s' + ":" + t' && k + |t| + 1 == |t'|
    ensures t'[k] == ':' && t'[k + 1..] == t
  {
    var x, y := s + ":" + t, s' + ":" + t';
    assert |s| == |s'| + 1 + k;
    assert x[|s|..] == ":" + t && y[|s'| + 1..] == t';
    assert y[|s|..] == y[|s'| + 1..][k..];
    assert t'[k..] == ":" + t;
    assert t'[k] == t'[k..][0] && t'[k + 1..] == t'[k..][1..];
  }

  lemma MessageSplit(ticket: string, kind: string, symbol: string, stamp: string)
    ensures Message(ticket, kind, symbol, stamp) == ticket + ":" + (kind + ":" + (symbol + ":" + stamp))
  {
    assert ticket + ":" + kind + ":" + symbol + ":" + stamp == ticket + ":" + kind + ":" + (symbol + ":" + stamp);
  }

  /** Equal signed messages carry equal fields: the signature of one signal can never be
      reused for another ticket, type, symbol or time. */
  lemma MessageUnambiguous(ticket: string, kind: string, symbol: string, stamp: string,
                           ticket': string, kind': string, symbol': string, stamp': string)
    requires ':' !in ticket && ':' !in kind && IsTimestamp(stamp)
    requires ':' !in ticket' && ':' !in kind' && IsTimestamp(stamp')
    requires Message(ticket, kind, symbol, stamp) == Message(ticket', kind', symbol', stamp')
    ensures ticket == ticket' && kind == kind' && symbol == symbol' && stamp == stamp'
  {
    var last, last' := symbol + ":" + stamp, symbol' + ":" + stamp';
    MessageSplit(ticket, kind, symbol, stamp);
    MessageSplit(ticket', kind', symbol', stamp');
    FirstField(ticket, kind + ":" + last, ticket', kind' + ":" + last');
    FirstField(kind, last, kind', last');
    LastField(symbol, stamp, symbol', stamp');
  }
}
