/** The few pieces of Python's text handling the engine relies on:
    `str()` of an integer, `int()` of a string of digits, `str.replace` with a
    one-character pattern and `str.lower`.
 */
module Text {
  import opened Results

  predicate IsDigit(c: char) {
    '0' <= c <= '9'
  }

  predicate IsDigits(s: string) {
    forall i :: 0 <= i < |s| ==> IsDigit(s[i])
  }

  function DigitValue(c: char): nat
    requires IsDigit(c)
  {
    c as int - '0' as int
  }

  function DigitChar(d: nat): (c: char)
    requires d < 10
    ensures IsDigit(c) && DigitValue(c) == d
  {
    ('0' as int + d) as char
  }

  /** The value of a string of decimal digits, most significant first. */
  function DigitsValue(s: string): nat
    requires IsDigits(s)
  {
    if |s| == 0 then 0 else 10 * DigitsValue(s[..|s| - 1]) + DigitValue(s[|s| - 1])
  }

  /** Python's `str(n)` for `n >= 0`: the shortest decimal spelling, whose
      digits read back as `n` and which starts with `0` only when it is `"0"`. */
  function NatToString(n: nat): (r: string)
    ensures |r| > 0 && IsDigits(r) && DigitsValue(r) == n
    ensures |r| == 1 <==> n < 10
    ensures |r| > 1 ==> r[0] != '0'
    decreases n
  {
    if n < 10 then [DigitChar(n)]
    else
      var prefix := NatToString(n / 10);
      var r := prefix + [DigitChar(n % 10)];
      assert r[..|r| - 1] == prefix;
      r
  }

  /** Python's `str(n)`: a leading `-` for negative numbers. */
  function IntToString(n: int): (r: string)
    ensures |r| > 0
    ensures n >= 0 ==> IsDigits(r)
    ensures n < 0 ==> r[0] == '-' && |r| >= 2
    ensures n >= 10 ==> |r| >= 2
    ensures IsDigit(r[|r| - 1])
  {
    if n < 0 then "-" + NatToString(-n) else NatToString(n)
  }

  /** Python's `int(s)` restricted to an optional sign followed by one or
      more ASCII digits; `None` stands for the `ValueError` it raises. */
  function ParseInt(s: string): (r: Option<int>)
    ensures r.Some? <==>
              (IsDigits(s) && |s| > 0) ||
              (|s| > 1 && (s[0] == '-' || s[0] == '+') && IsDigits(s[1..]))
    ensures r.Some? && |s| > 0 && s[0] == '-' ==> r.value <= 0
    ensures r.Some? && |s| > 0 && s[0] != '-' ==> r.value >= 0
    ensures r.Some? && IsDigits(s) ==> r.value == DigitsValue(s)
    ensures r.Some? && !IsDigits(s) ==>
              IsDigits(s[1..]) && r.value == (if s[0] == '-' then 0 - DigitsValue(s[1..]) else DigitsValue(s[1..]))
  {
    if |s| > 0 && (s[0] == '-' || s[0] == '+') then
      var digits := s[1..];
      if |digits| > 0 && IsDigits(digits) then
        Some(if s[0] == '-' then 0 - DigitsValue(digits) else DigitsValue(digits))
      else None
    else if |s| > 0 && IsDigits(s) then Some(DigitsValue(s))
    else None
  }

  /** `int(str(n)) == n` for every integer. */
  lemma ParseIntOfString(n: int)
    ensures ParseInt(IntToString(n)) == Some(n)
  {
    if n < 0 {
      var s := IntToString(n);
      assert s[1..] == NatToString(-n);
    }
  }

  /** Leading zeros do not change the value of a string of digits. */
  lemma {:induction false} PrefixZeros(z: nat, s: string)
    requires IsDigits(s)
    ensures IsDigits(Repeat('0', z) + s) && DigitsValue(Repeat('0', z) + s) == DigitsValue(s)
    decreases |s|
  {
    var t := Repeat('0', z) + s;
    if |s| == 0 {
      assert t == Repeat('0', z);
      ZerosValue(z);
    } else {
      assert t[..|t| - 1] == Repeat('0', z) + s[..|s| - 1];
      PrefixZeros(z, s[..|s| - 1]);
    }
  }

  lemma {:induction false} ZerosValue(z: nat)
    ensures IsDigits(Repeat('0', z)) && DigitsValue(Repeat('0', z)) == 0
  {
    if z > 0 {
      assert Repeat('0', z)[..z - 1] == Repeat('0', z - 1);
      ZerosValue(z - 1);
    }
  }

  /** `int()` reads a number padded with leading zeros, with or without an
      explicit sign, as that number. */
  lemma ParseIntPadded(z: nat, n: nat)
    ensures ParseInt(Repeat('0', z) + NatToString(n)) == Some(n)
    ensures ParseInt("+" + Repeat('0', z) + NatToString(n)) == Some(n)
    ensures ParseInt("-" + Repeat('0', z) + NatToString(n)) == Some(0 - n)
  {
    var t := Repeat('0', z) + NatToString(n);
    PrefixZeros(z, NatToString(n));
    assert ("+" + t)[1..] == t && ("+" + t)[0] == '+';
    assert ("-" + t)[1..] == t && ("-" + t)[0] == '-';
    assert "+" + Repeat('0', z) + NatToString(n) == "+" + t;
    assert "-" + Repeat('0', z) + NatToString(n) == "-" + t;
  }

  /** `c * n` in Python. */
  function Repeat(c: char, n: nat): (r: string)
    ensures |r| == n
    ensures forall i :: 0 <= i < n ==> r[i] == c
  {
    if n == 0 then [] else [c] + Repeat(c, n - 1)
  }

  /** `s.replace(c, repl)` for a one-character pattern `c`. */
  function ReplaceChar(s: string, c: char, repl: string): string
  {
    if |s| == 0 then []
    else (if s[0] == c then repl else [s[0]]) + ReplaceChar(s[1..], c, repl)
  }

  function LowerChar(c: char): char {
    if 'A' <= c <= 'Z' then (c as int - 'A' as int + 'a' as int) as char else c
  }

  /** `s.lower()` on text whose letters are ASCII. */
  function Lower(s: string): string
  {
    if |s| == 0 then [] else [LowerChar(s[0])] + Lower(s[1..])
  }

  lemma ReplaceCharAppend(s: string, t: string, c: char, repl: string)
    ensures ReplaceChar(s + t, c, repl) == ReplaceChar(s, c, repl) + ReplaceChar(t, c, repl)
  {
    if |s| > 0 {
      assert (s + t)[0] == s[0] && (s + t)[1..] == s[1..] + t;
      ReplaceCharAppend(s[1..], t, c, repl);
    } else {
      assert s + t == t;
    }
  }

  lemma LowerAppend(s: string, t: string)
    ensures Lower(s + t) == Lower(s) + Lower(t)
  {
    if |s| > 0 {
      assert (s + t)[0] == s[0] && (s + t)[1..] == s[1..] + t;
      LowerAppend(s[1..], t);
    } else {
      assert s + t == t;
    }
  }
}
