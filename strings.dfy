/** The few JavaScript string operations the widgets rely on, with the meaning
    JavaScript gives them: `String.prototype.trim`, `Number.prototype.toString`
    on integers and `String.prototype.padStart`. JavaScript strings are UTF-16
    code units and a Dafny `char` is a Unicode scalar value; every character
    `trim` removes is a single code unit, so the two agree on what is
    removed. */
module Strings {

  /** The ECMAScript WhiteSpace and LineTerminator code points: the characters
      that `trim` removes from both ends of a string. */
  predicate IsWhitespace(c: char) {
    || c == '\t' || c == '\U{000B}' || c == '\U{000C}' || c == ' '
    || c == '\U{00A0}' || c == '\U{FEFF}'
    || c == '\n' || c == '\r' || c == '\U{2028}' || c == '\U{2029}'
    || c == '\U{1680}' || ('\U{2000}' <= c <= '\U{200A}')
    || c == '\U{202F}' || c == '\U{205F}' || c == '\U{3000}'
  }

  predicate AllWhitespace(s: string) {
    forall i :: 0 <= i < |s| ==> IsWhitespace(s[i])
  }

  /** `s` with its leading whitespace removed. */
  function TrimStart(s: string): (r: string)
    ensures |r| <= |s| && r == s[|s| - |r|..]
    ensures forall i :: 0 <= i < |s| - |r| ==> IsWhitespace(s[i])
    ensures r != [] ==> !IsWhitespace(r[0])
  {
    if s != [] && IsWhitespace(s[0]) then TrimStart(s[1..]) else s
  }

  /** `s` with its trailing whitespace removed. */
  function TrimEnd(s: string): (r: string)
    ensures |r| <= |s| && r == s[..|r|]
    ensures forall i :: |r| <= i < |s| ==> IsWhitespace(s[i])
    ensures r != [] ==> !IsWhitespace(r[|r| - 1])
  {
    if s != [] && IsWhitespace(s[|s| - 1]) then TrimEnd(s[..|s| - 1]) else s
  }

  /** `r` sits in `s` at offset `i` with only whitespace before and after it. */
  predicate TrimmedAt(s: string, r: string, i: int) {
    0 <= i <= |s| - |r| && r == s[i..i + |r|] && AllWhitespace(s[..i]) && AllWhitespace(s[i + |r|..])
  }

  /** Whitespace cut off the front of `s` to leave `t`, then off the back
      of `t` to leave `r`, leaves `r` sitting in `s` between whitespace. */
  lemma StripsAt(s: string, t: string, r: string)
    requires |t| <= |s| && t == s[|s| - |t|..]
    requires forall k :: 0 <= k < |s| - |t| ==> IsWhitespace(s[k])
    requires |r| <= |t| && r == t[..|r|]
    requires forall k :: |r| <= k < |t| ==> IsWhitespace(t[k])
    ensures TrimmedAt(s, r, |s| - |t|)
  {
    var i := |s| - |t|;
    assert r == s[i..i + |r|] by {
      assert s[i..][..|r|] == s[i..i + |r|];
    }
    assert AllWhitespace(s[..i]) by {
      var p := s[..i];
      assert forall j :: 0 <= j < |p| ==> p[j] == s[j];
    }
    assert AllWhitespace(s[i + |r|..]) by {
      var u := s[i + |r|..];
      assert u == t[|r|..];
      assert forall j :: 0 <= j < |u| ==> u[j] == t[|r| + j];
    }
  }

  /** `s.trim()`: the part of `s` left once its leading and trailing
      whitespace is removed; empty exactly when `s` holds nothing but
      whitespace, and otherwise neither starting nor ending with whitespace. */
  function Trim(s: string): (r: string)
    ensures |r| <= |s|
    ensures exists i :: TrimmedAt(s, r, i)
    ensures r == [] <==> AllWhitespace(s)
    ensures r != [] ==> !IsWhitespace(r[0]) && !IsWhitespace(r[|r| - 1])
  {
    var t := TrimStart(s);
    var r := TrimEnd(t);
    assert t != [] ==> !IsWhitespace(s[|s| - |t|]);
    StripsAt(s, t, r);
    r
  }

  predicate IsDigit(c: char) {
    '0' <= c <= '9'
  }

  predicate AllDigits(s: string) {
    forall i :: 0 <= i < |s| ==> IsDigit(s[i])
  }

  function DigitChar(d: nat): (c: char)
    requires d < 10
    ensures IsDigit(c) && DigitValue(c) == d
  {
    (('0' as int) + d) as char
  }

  function DigitValue(c: char): (d: nat)
    requires IsDigit(c)
    ensures d < 10
  {
    (c as int) - ('0' as int)
  }

  /** The number a string of decimal digits denotes (leading zeros allowed). */
  function DecimalValue(ds: string): nat
    requires AllDigits(ds)
  {
    if ds == [] then 0 else DecimalValue(ds[..|ds| - 1]) * 10 + DigitValue(ds[|ds| - 1])
  }

  /** `n.toString()` for a non-negative integer: its decimal digits, no leading zero. */
  function NatToString(n: nat): (r: string)
    ensures r != [] && AllDigits(r)
    ensures |r| > 1 ==> r[0] != '0'
  {
    if n < 10 then [DigitChar(n)] else NatToString(n / 10) + [DigitChar(n % 10)]
  }

  /** `i.toString()` for any integer: a minus sign before the digits of a negative one. */
  function IntToString(i: int): (r: string)
    ensures i >= 0 ==> r == NatToString(i)
    ensures i < 0 ==> r == ['-'] + NatToString(-i)
  {
    if i < 0 then ['-'] + NatToString(-i) else NatToString(i)
  }

  /** Reading back the digits `toString` wrote gives the number. */
  lemma {:induction false} NatToStringRoundTrip(n: nat)
    ensures DecimalValue(NatToString(n)) == n
  {
    if n >= 10 {
      var p := NatToString(n / 10);
      var r := p + [DigitChar(n % 10)];
      assert r[..|r| - 1] == p;
      NatToStringRoundTrip(n / 10);
    }
  }

  /** Numbers below 10 take one digit, numbers below 100 at most two. */
  lemma NatToStringShort(n: nat)
    requires n < 100
    ensures |NatToString(n)| == if n < 10 then 1 else 2
  {
  }

  /** Numbers from 100 on take at least three digits. */
  lemma NatToStringLong(n: nat)
    requires n >= 100
    ensures |NatToString(n)| >= 3
  {
    assert NatToString(n) == NatToString(n / 10) + [DigitChar(n % 10)];
    assert NatToString(n / 10) == NatToString(n / 100) + [DigitChar(n / 10 % 10)];
  }

  function Repeat(c: char, k: nat): (r: string)
    ensures |r| == k && forall i :: 0 <= i < k ==> r[i] == c
  {
    seq(k, _ => c)
  }

  /** `s.padStart(width, fill)` for a one-character `fill`: `s` itself when it
      is already `width` long or longer, otherwise `s` behind as many `fill`
      characters as make it exactly `width` long. */
  function PadStart(s: string, width: nat, fill: char): (r: string)
    ensures |r| == if |s| < width then width else |s|
    ensures r[|r| - |s|..] == s
    ensures forall i :: 0 <= i < |r| - |s| ==> r[i] == fill
  {
    if |s| < width then Repeat(fill, width - |s|) + s else s
  }

  /** A leading zero does not change the value of a digit string. */
  lemma {:induction false} LeadingZero(ds: string)
    requires AllDigits(ds)
    ensures AllDigits(['0'] + ds) && DecimalValue(['0'] + ds) == DecimalValue(ds)
  {
    if ds != [] {
      var z := ['0'] + ds;
      assert z[..|z| - 1] == ['0'] + ds[..|ds| - 1];
      assert z[|z| - 1] == ds[|ds| - 1];
      LeadingZero(ds[..|ds| - 1]);
    }
  }

  /** `n.toString().padStart(2, "0")`: decimal digits, at least two of
      them, exactly two below 100, denoting `n`. */
  lemma PaddedDigits(n: nat)
    ensures var p := PadStart(NatToString(n), 2, '0');
      AllDigits(p) && |p| >= 2 && DecimalValue(p) == n && (n < 100 ==> |p| == 2)
  {
    ZeroPadKeepsValue(NatToString(n), 2);
    NatToStringRoundTrip(n);
    if n < 100 {
      NatToStringShort(n);
    }
  }

  /** Any number of leading zeros leaves the value of a digit string alone. */
  lemma {:induction false} LeadingZeros(k: nat, ds: string)
    requires AllDigits(ds)
    ensures AllDigits(Repeat('0', k) + ds) && DecimalValue(Repeat('0', k) + ds) == DecimalValue(ds)
  {
    if k > 0 {
      LeadingZeros(k - 1, ds);
      assert Repeat('0', k) + ds == ['0'] + (Repeat('0', k - 1) + ds);
      LeadingZero(Repeat('0', k - 1) + ds);
    } else {
      assert Repeat('0', k) + ds == ds;
    }
  }

  /** Zero-padding a digit string keeps its value. */
  lemma ZeroPadKeepsValue(ds: string, width: nat)
    requires AllDigits(ds)
    ensures AllDigits(PadStart(ds, width, '0'))
    ensures DecimalValue(PadStart(ds, width, '0')) == DecimalValue(ds)
  {
    if |ds| < width {
      LeadingZeros(width - |ds|, ds);
    }
  }
}
