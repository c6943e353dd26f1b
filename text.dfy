/** The few JavaScript string operations the action relies on, written out:
    `String.prototype.trim`, `startsWith`, `parseInt(s, 10)`, the decimal
    rendering of a non-negative integer, and `path.join` of two segments. */
module Text {
  import opened Results

  /** The code points JavaScript treats as white space or line terminators;
      `trim` and `parseInt` skip exactly these. */
  predicate IsJsSpace(c: char) {
    || c == ' ' || c == '\t' || c == '\n' || c == '\r'
    || c == '\U{000B}' || c == '\U{000C}' || c == '\U{00A0}' || c == '\U{1680}'
    || ('\U{2000}' <= c <= '\U{200A}')
    || c == '\U{2028}' || c == '\U{2029}' || c == '\U{202F}' || c == '\U{205F}'
    || c == '\U{3000}' || c == '\U{FEFF}'
  }

  predicate IsDigit(c: char) {
    '0' <= c <= '9'
  }

  predicate StartsWith(s: string, prefix: string) {
    |prefix| <= |s| && s[..|prefix|] == prefix
  }

  predicate EndsWith(s: string, suffix: string) {
    |suffix| <= |s| && s[|s| - |suffix|..] == suffix
  }

  lemma PrefixOfConcat(a: string, b: string)
    ensures StartsWith(a + b, a)
  {
    assert (a + b)[..|a|] == a;
  }

  /** `path.join(a, b)` for two segments, without the normalisation of
      duplicate or trailing separators. */
  function Join(a: string, b: string): (r: string)
    ensures StartsWith(r, a) && EndsWith(r, "/" + b) && |r| == |a| + 1 + |b|
  {
    assert (a + "/" + b)[..|a|] == a;
    assert (a + "/" + b)[|a|..] == "/" + b;
    a + "/" + b
  }

  /** `s.trimStart()` */
  function TrimStart(s: string): string {
    if |s| > 0 && IsJsSpace(s[0]) then TrimStart(s[1..]) else s
  }

  /** `s.trimEnd()` */
  function TrimEnd(s: string): string {
    if |s| > 0 && IsJsSpace(s[|s| - 1]) then TrimEnd(s[..|s| - 1]) else s
  }

  /** `s.trim()` */
  function Trim(s: string): string {
    TrimEnd(TrimStart(s))
  }

  /** `trimStart` drops the longest prefix of white space and nothing else. */
  lemma {:induction false} TrimStartDrops(s: string)
    ensures var r := TrimStart(s);
      |r| <= |s| && r == s[|s| - |r|..] && (r == [] || !IsJsSpace(r[0]))
      && forall i :: 0 <= i < |s| - |r| ==> IsJsSpace(s[i])
  {
    if |s| > 0 && IsJsSpace(s[0]) {
      TrimStartDrops(s[1..]);
    }
  }

  /** `trimEnd` drops the longest suffix of white space and nothing else. */
  lemma {:induction false} TrimEndDrops(s: string)
    ensures var r := TrimEnd(s);
      |r| <= |s| && r == s[..|r|] && (r == [] || !IsJsSpace(r[|r| - 1]))
      && forall i :: |r| <= i < |s| ==> IsJsSpace(s[i])
  {
    if |s| > 0 && IsJsSpace(s[|s| - 1]) {
      TrimEndDrops(s[..|s| - 1]);
    }
  }

  /** `trim` leaves the middle of `s` between two runs of white space: it is
      empty exactly when `s` is all white space, and otherwise starts and
      ends with a character that is not. */
  lemma TrimDrops(s: string)
    ensures Trim(s) == [] <==> forall i :: 0 <= i < |s| ==> IsJsSpace(s[i])
    ensures Trim(s) != [] ==> !IsJsSpace(Trim(s)[0]) && !IsJsSpace(Trim(s)[|Trim(s)| - 1])
    ensures exists a, b :: (0 <= a <= b <= |s| && Trim(s) == s[a..b]
      && (forall i :: 0 <= i < a ==> IsJsSpace(s[i])) && (forall i :: b <= i < |s| ==> IsJsSpace(s[i])))
  {
    var t := TrimStart(s);
    var r := TrimEnd(t);
    TrimStartDrops(s);
    TrimEndDrops(t);
    var a := |s| - |t|;
    assert r == s[a..a + |r|];
    assert forall i :: a + |r| <= i < |s| ==> IsJsSpace(s[i]) by {
      forall i | a + |r| <= i < |s| ensures IsJsSpace(s[i]) {
        assert s[i] == t[i - a];
      }
    }
    if r != [] {
      assert r[0] == t[0];
    }
  }

  function DigitChar(d: nat): (c: char)
    requires d < 10
    ensures IsDigit(c)
  {
    (('0' as int) + d) as char
  }

  function DigitValue(c: char): (d: nat)
    requires IsDigit(c)
    ensures d < 10
  {
    (c as int) - ('0' as int)
  }

  /** The decimal rendering of a non-negative number (`n.toString()`). */
  function NatToString(n: nat): (s: string)
    ensures |s| >= 1 && forall i :: 0 <= i < |s| ==> IsDigit(s[i])
    decreases n
  {
    if n < 10 then [DigitChar(n)] else NatToString(n / 10) + [DigitChar(n % 10)]
  }

  function IntToString(i: int): string {
    if i < 0 then "-" + NatToString(-i) else NatToString(i)
  }

  /** The value of a non-empty run of decimal digits. */
  function DigitsValue(s: string): nat
    requires forall i :: 0 <= i < |s| ==> IsDigit(s[i])
  {
    if s == [] then 0 else DigitsValue(s[..|s| - 1]) * 10 + DigitValue(s[|s| - 1])
  }

  /** The longest prefix of `s` made of decimal digits. */
  function DigitPrefix(s: string): (r: string)
    ensures |r| <= |s| && r == s[..|r|]
    ensures forall i :: 0 <= i < |r| ==> IsDigit(s[i])
    ensures |r| < |s| ==> !IsDigit(s[|r|])
  {
    if |s| > 0 && IsDigit(s[0]) then [s[0]] + DigitPrefix(s[1..]) else []
  }

  /** `parseInt(s, 10)`: skips leading white space, reads an optional sign and
      the longest run of decimal digits after it; `None` stands for `NaN`,
      the result when that run is empty. */
  function ParseInt(s: string): Option<int> {
    var t := TrimStart(s);
    var negative := |t| > 0 && t[0] == '-';
    var unsigned := if |t| > 0 && (t[0] == '-' || t[0] == '+') then t[1..] else t;
    var digits := DigitPrefix(unsigned);
    if digits == [] then None
    else
      var value: int := DigitsValue(digits);
      Some(if negative then -value else value)
  }

  lemma {:induction false} DigitsValueOfNatToString(n: nat)
    ensures DigitsValue(NatToString(n)) == n
    decreases n
  {
    var s := NatToString(n);
    if n < 10 {
      assert s[..|s| - 1] == [];
    } else {
      DigitsValueOfNatToString(n / 10);
      assert s[..|s| - 1] == NatToString(n / 10);
    }
  }

  lemma {:induction false} DigitPrefixOfDigits(s: string)
    requires forall i :: 0 <= i < |s| ==> IsDigit(s[i])
    ensures DigitPrefix(s) == s
  {
    if |s| > 0 {
      DigitPrefixOfDigits(s[1..]);
    }
  }

  /** A number written with `toString` reads back unchanged with `parseInt`:
      the pid the start phase saves is the pid the stop phase signals. */
  lemma ParseIntOfNatToString(n: nat)
    ensures ParseInt(NatToString(n)) == Some(n)
  {
    var s := NatToString(n);
    assert IsDigit(s[0]);
    assert !IsJsSpace(s[0]);
    assert TrimStart(s) == s;
    DigitPrefixOfDigits(s);
    assert DigitPrefix(s) == s;
    DigitsValueOfNatToString(n);
  }
}
