/** Intervals: a quality character and a diatonic number, with the semitone
    distance looked up in a fixed table of 27 simple intervals.

    A compound number (above 8) is reduced by 7 until it is at most 8 before
    the lookup, and the semitone count is the reduced interval's table
    entry: the whole octaves dropped by the reduction are not added back.
 */
module Intervals {
  import opened Results
  import opened Text

  datatype Interval = Interval(quality: char, number: int, semitones: int)

  /** The `intervals` table, keyed by quality and (reduced) number. */
  function TableSemitones(q: char, n: int): Option<int> {
    match q
    case 'P' =>
      if n == 1 then Some(0) else if n == 4 then Some(5)
      else if n == 5 then Some(7) else if n == 8 then Some(12) else None
    case 'A' =>
      if n == 1 then Some(1) else if n == 2 then Some(3) else if n == 3 then Some(5)
      else if n == 4 then Some(6) else if n == 5 then Some(8) else if n == 6 then Some(10)
      else if n == 7 then Some(12) else if n == 8 then Some(13) else None
    case 'd' =>
      if n == 2 then Some(0) else if n == 3 then Some(2) else if n == 4 then Some(4)
      else if n == 5 then Some(6) else if n == 6 then Some(7) else if n == 7 then Some(9)
      else if n == 8 then Some(11) else None
    case 'm' =>
      if n == 2 then Some(1) else if n == 3 then Some(3)
      else if n == 6 then Some(8) else if n == 7 then Some(10) else None
    case 'M' =>
      if n == 2 then Some(2) else if n == 3 then Some(4)
      else if n == 6 then Some(9) else if n == 7 then Some(11) else None
    case _ => None
  }

  /** Numbers 1, 4, 5 and 8 take the perfect quality; 2, 3, 6, 7 take major
      and minor. */
  predicate IsPerfectNumber(n: int) {
    n == 1 || n == 4 || n == 5 || n == 8
  }

  /** Semitones of the major or perfect interval of each simple number. */
  function MajorSemitones(n: int): int
    requires 1 <= n <= 8
  {
    [0, 2, 4, 5, 7, 9, 11, 12][n - 1]
  }

  /** The classical naming rules, independently of the table: which
      quality goes with which simple number... */
  predicate IsSimpleName(q: char, n: int) {
    1 <= n <= 8 &&
    match q
    case 'P' => IsPerfectNumber(n)
    case 'M' => !IsPerfectNumber(n)
    case 'm' => !IsPerfectNumber(n)
    case 'A' => true
    case 'd' => n != 1
    case _ => false
  }

  /** ... and how far each quality moves from the major or perfect size. */
  function QualitySemitones(q: char, n: int): int
    requires IsSimpleName(q, n)
  {
    var base := MajorSemitones(n);
    match q
    case 'A' => base + 1
    case 'm' => base - 1
    case 'd' => if IsPerfectNumber(n) then base - 1 else base - 2
    case _ => base
  }

  /** The table holds exactly the 27 classical simple interval names, with
      the sizes the naming rules give them. */
  lemma TableIsClassical(q: char, n: int)
    ensures TableSemitones(q, n).Some? <==> IsSimpleName(q, n)
    ensures IsSimpleName(q, n) ==> TableSemitones(q, n) == Some(QualitySemitones(q, n))
  {
  }

  /** The constructor's loop: subtract 7 while the number exceeds 8. */
  function Reduce(n: int): (r: int)
    ensures r <= 8
    ensures n <= 8 ==> r == n
    ensures n > 8 ==> 2 <= r && (n - r) % 7 == 0
    decreases n
  {
    if n > 8 then Reduce(n - 7) else n
  }

  /** Constructing an interval from text: the first character is the
      quality and the rest is read by `int()`. An empty text is an
      `IndexError`, a non-number a `ValueError`, and a pair whose reduced
      number is not in the table a plain `Exception`. */
  function Parse(s: string): (r: Result<Interval>)
    ensures |s| == 0 <==> r == Err(IndexError)
    ensures |s| > 0 && ParseInt(s[1..]).None? <==> r == Err(ValueError)
    ensures r.Ok? <==>
              |s| > 0 && ParseInt(s[1..]).Some? && IsSimpleName(s[0], Reduce(ParseInt(s[1..]).value))
    ensures r.Ok? ==>
              && r.value.quality == s[0]
              && Some(r.value.number) == ParseInt(s[1..])
              && Valid(r.value)
    ensures r.Err? ==> r.error in {IndexError, ValueError, Exception}
  {
    if |s| == 0 then Err(IndexError)
    else
      var quality := s[0];
      match ParseInt(s[1..])
      case None => Err(ValueError)
      case Some(number) =>
        TableIsClassical(quality, Reduce(number));
        match TableSemitones(quality, Reduce(number))
        case None => Err(Exception)
        case Some(semitones) => Ok(Interval(quality, number, semitones))
  }

  /** An interval `Parse` can produce: a positive number whose reduction
      names a classical simple interval, sized by that simple interval. */
  predicate Valid(i: Interval) {
    && i.number >= 1
    && IsSimpleName(i.quality, Reduce(i.number))
    && i.semitones == QualitySemitones(i.quality, Reduce(i.number))
  }

  /** `str(i)`: the quality followed by the number. */
  function Render(i: Interval): string {
    [i.quality] + IntToString(i.number)
  }

  /** Every valid interval reads back from its rendering. */
  lemma ParseRender(i: Interval)
    requires Valid(i)
    ensures Parse(Render(i)) == Ok(i)
  {
    var s := Render(i);
    assert s[1..] == IntToString(i.number);
    ParseIntOfString(i.number);
    TableIsClassical(i.quality, Reduce(i.number));
  }

  /** `-i`: re-parse `str(i)` and flip the signs of number and semitones. */
  function Neg(i: Interval): (r: Result<Interval>)
    ensures r.Ok? ==> r.value.quality == i.quality && r.value.number <= -1
  {
    var j :- Parse(Render(i));
    Ok(Interval(j.quality, -j.number, -j.semitones))
  }

  /** Negating a valid interval flips the signs of both its number and its
      semitones and keeps its quality. */
  lemma NegValid(i: Interval)
    requires Valid(i)
    ensures Neg(i) == Ok(Interval(i.quality, -i.number, -i.semitones))
  {
    ParseRender(i);
    NegOfParsed(i, i);
  }

  lemma NegOfParsed(i: Interval, j: Interval)
    requires Parse(Render(i)) == Ok(j)
    ensures Neg(i) == Ok(Interval(j.quality, -j.number, -j.semitones))
  {
  }

  /** A negated interval cannot be negated again: its rendering carries a
      minus sign, which reduces to no table entry. */
  lemma NegTwiceFails(i: Interval)
    requires Valid(i)
    ensures Neg(i).Ok? && Neg(Neg(i).value) == Err(Exception)
  {
    NegValid(i);
    var j := Neg(i).value;
    var s := Render(j);
    assert s[1..] == IntToString(j.number);
    ParseIntOfString(j.number);
    TableIsClassical(j.quality, Reduce(j.number));
  }

  /** A compound interval has the semitones of its reduction, without the
      octaves: M10 is as wide as M3, and no interval exceeds 13 semitones
      however large its number. */
  lemma CompoundSemitones(i: Interval)
    requires Valid(i) && i.number > 8
    ensures 0 <= i.semitones <= 13
    ensures Parse(Render(Interval(i.quality, Reduce(i.number), 0))) ==
              Ok(Interval(i.quality, Reduce(i.number), i.semitones))
  {
    var simple := Interval(i.quality, Reduce(i.number), i.semitones);
    assert Render(Interval(i.quality, Reduce(i.number), 0)) == Render(simple);
    ParseRender(simple);
  }

  /** A number written with leading zeros or an explicit plus sign names
      the same interval: `int()` reads `03` and `+3` as 3. */
  lemma PaddedNumber(q: char, z: nat, n: nat)
    ensures Parse([q] + Repeat('0', z) + NatToString(n)) == Parse([q] + NatToString(n))
    ensures Parse([q] + "+" + NatToString(n)) == Parse([q] + NatToString(n))
  {
    LeadingZeros(q, z, n);
    PlusSign(q, n);
  }

  lemma LeadingZeros(q: char, z: nat, n: nat)
    ensures Parse([q] + Repeat('0', z) + NatToString(n)) == Parse([q] + NatToString(n))
  {
    var digits := NatToString(n);
    var padded := [q] + Repeat('0', z) + digits;
    var plain := [q] + digits;
    assert ParseInt(Repeat('0', z) + digits) == ParseInt(digits) by {
      ParseIntPadded(z, n);
      ParseIntPadded(0, n);
      assert Repeat('0', 0) + digits == digits;
    }
    assert padded[1..] == Repeat('0', z) + digits && plain[1..] == digits;
    SameNumber(padded, plain);
  }

  lemma PlusSign(q: char, n: nat)
    ensures Parse([q] + "+" + NatToString(n)) == Parse([q] + NatToString(n))
  {
    var digits := NatToString(n);
    var signed := [q] + "+" + digits;
    var plain := [q] + digits;
    assert ParseInt("+" + digits) == ParseInt(digits) by {
      ParseIntPadded(0, n);
      assert Repeat('0', 0) == [];
      assert "+" + [] == "+";
    }
    assert signed[1..] == "+" + digits && plain[1..] == digits;
    SameNumber(signed, plain);
  }

  /** Parsing looks only at the quality character and the value of the rest. */
  lemma SameNumber(s: string, t: string)
    requires |s| > 0 && |t| > 0 && s[0] == t[0] && ParseInt(s[1..]) == ParseInt(t[1..])
    ensures Parse(s) == Parse(t)
  {
  }

  /** A two-character name of a quality and a digit up to 8 reads as that
      simple interval, or is no interval. */
  lemma ParseShort(q: char, d: char)
    requires '1' <= d <= '8'
    ensures Parse([q, d]) ==
              var n := DigitValue(d);
              if IsSimpleName(q, n) then Ok(Interval(q, n, QualitySemitones(q, n))) else Err(Exception)
  {
    var s := [q, d];
    assert s[1..] == [d];
    assert [d][..0] == [];
    assert IsDigits([d]) && [d][0] == d;
    assert DigitsValue([d]) == DigitValue(d);
    assert ParseInt([d]) == Some(DigitValue(d));
    assert Reduce(DigitValue(d)) == DigitValue(d);
    TableIsClassical(q, DigitValue(d));
  }

  /** The worked examples: d5, P8 and A8 have 6, 12 and 13 semitones,
      M10 has the 4 of M3, P3 is not an interval, and `M03` and `M+3` are
      M3. */
  lemma Examples()
    ensures Parse("d5") == Ok(Interval('d', 5, 6))
    ensures Parse("P8") == Ok(Interval('P', 8, 12))
    ensures Parse("A8") == Ok(Interval('A', 8, 13))
    ensures Parse("M10") == Ok(Interval('M', 10, 4))
    ensures Parse("P3") == Err(Exception)
    ensures Parse("M03") == Ok(Interval('M', 3, 4))
    ensures Parse("M+3") == Ok(Interval('M', 3, 4))
  {
    assert "M03"[1..] == "03" && "03"[..1] == "0";
    assert "M+3"[1..] == "+3" && "+3"[1..] == "3";
    assert "d5"[1..] == "5";
    assert "P8"[1..] == "8";
    assert "A8"[1..] == "8";
    assert "M10"[1..] == "10";
    assert "P3"[1..] == "3";
  }
}
