/** Notes: a letter, up to three identical sharps or flats, and a one-digit
    octave.

    Every note the engine makes goes through the note parser, including the
    results of `+`, `-` and `to_octave`, which build the text of the new
    note and parse it; the ranges of the accidental (-3..3) and the octave
    (0..9) are therefore invariants of the type, and an operation whose
    result falls outside them fails as the parser does.
 */
module Notes {
  import opened Results
  import opened Text
  import Tones
  import opened Intervals

  /** Sharps are positive, flats negative. */
  type Accidental = a: int | -3 <= a <= 3

  type Octave = o: int | 0 <= o <= 9

  datatype Note = Note(tone: Tones.Tone, accidental: Accidental, octave: Octave)

  /** The `tones` table: semitones of each natural letter above C. */
  function Natural(t: Tones.Tone): int {
    match t
    case C => 0
    case D => 2
    case E => 4
    case F => 5
    case G => 7
    case A => 9
    case B => 11
  }

  /** The accidental text for a signed count: `b` repeated for flats, `#`
      for sharps, never both. */
  function AccidentalText(a: int): (r: string)
    ensures |r| == if a < 0 then -a else a
    ensures forall j :: 0 <= j < |r| ==> r[j] == (if a < 0 then 'b' else '#')
  {
    Repeat('b', if a < 0 then -a else 0) + Repeat('#', if a > 0 then a else 0)
  }

  /** The pitch class `note_id`: the natural's semitone moved by the
      accidental, reduced modulo 12. */
  function NoteId(n: Note): (r: int)
    ensures 0 <= r < 12
    ensures (r - Natural(n.tone) - n.accidental) % 12 == 0
  {
    (Natural(n.tone) + n.accidental) % 12
  }

  /** `midi_note`: the pitch class plus twelve per octave. */
  function Midi(n: Note): int {
    NoteId(n) + n.octave * 12
  }

  /** `str(n)`: letter and accidental, without the octave. */
  function Str(n: Note): string {
    [Tones.Name(n.tone)] + AccidentalText(n.accidental)
  }

  /** `scientific_notation`: `str(n)` followed by the octave. */
  function Scientific(n: Note): string {
    Str(n) + IntToString(n.octave)
  }

  /** `lilypond_notation`: replace `b` by `es`, then `#` by `is`, then
      lower-case. */
  function Lilypond(n: Note): string {
    Lower(ReplaceChar(ReplaceChar(Str(n), 'b', "es"), '#', "is"))
  }

  /** `==` on notes compares the scientific notations. */
  function Equal(a: Note, b: Note): bool {
    Scientific(a) == Scientific(b)
  }

  /** Length of the run of `c` at the start of `s`. */
  function RunLength(s: string, c: char): (k: nat)
    ensures k <= |s|
    ensures forall j :: 0 <= j < k ==> s[j] == c
    ensures k < |s| ==> s[k] != c
  {
    if |s| == 0 || s[0] != c then 0 else 1 + RunLength(s[1..], c)
  }

  /** Constructing a note from text, by the pattern
      `([A-G])(b{0,3}|#{0,3})(\d{0,1})$` matched at the start: a letter, a
      run of at most three `b` or at most three `#`, and at most one digit
      (the octave, 4 when absent). Like every `$`, it also matches before a
      final newline. Any other text is a plain `Exception`. */
  function Parse(s: string): (r: Result<Note>)
    ensures r.Err? ==> r.error == Exception
  {
    ParseBody(if |s| > 0 && s[|s| - 1] == '\n' then s[..|s| - 1] else s)
  }

  /** The pattern without its final `$`. */
  function ParseBody(body: string): (r: Result<Note>)
    ensures r.Err? ==> r.error == Exception
  {
    if |body| == 0 || !Tones.IsName(body[0]) then Err(Exception)
    else ParseAccidental(Tones.FromName(body[..1]).value, body[1..])
  }

  /** After the letter: a run of one accidental character, then the octave. */
  function ParseAccidental(tone: Tones.Tone, rest: string): (r: Result<Note>)
    ensures r.Err? ==> r.error == Exception
  {
    var mark := if |rest| > 0 && (rest[0] == 'b' || rest[0] == '#') then rest[0] else 'b';
    var count := RunLength(rest, mark);
    if count > 3 then Err(Exception)
    else
      match ParseOctave(rest[count..])
      case None => Err(Exception)
      case Some(octave) => Ok(Note(tone, if mark == 'b' then 0 - count else count, octave))
  }

  /** `int(m.group(3) or '4')`: no digit is octave 4, one digit its value. */
  function ParseOctave(tail: string): (r: Option<Octave>)
    ensures r.Some? <==> |tail| == 0 || (|tail| == 1 && IsDigit(tail[0]))
  {
    if |tail| == 0 then Some(4)
    else if |tail| == 1 && IsDigit(tail[0]) then Some(DigitValue(tail[0]))
    else None
  }

  /** The texts that parse to `n`: its scientific notation, and also its
      plain name when its octave is the default 4, each optionally followed
      by one newline. */
  function Spellings(n: Note): set<string> {
    {Scientific(n), Scientific(n) + "\n"} +
    (if n.octave == 4 then {Str(n), Str(n) + "\n"} else {})
  }

  lemma RunOfRepeat(c: char, k: nat, tail: string)
    requires |tail| == 0 || tail[0] != c
    ensures RunLength(Repeat(c, k) + tail, c) == k
  {
    var s := Repeat(c, k) + tail;
    assert forall j :: 0 <= j < k ==> s[j] == c;
    assert k < |s| ==> s[k] != c;
  }

  lemma ParseAccidentalSpelled(t: Tones.Tone, d: int, tail: string)
    requires |tail| == 0 || (tail[0] != 'b' && tail[0] != '#')
    ensures ParseAccidental(t, AccidentalText(d) + tail) ==
            if -3 <= d <= 3 && ParseOctave(tail).Some?
            then Ok(Note(t, d, ParseOctave(tail).value))
            else Err(Exception)
  {
    if d < 0 {
      assert AccidentalText(d) == Repeat('b', -d);
      ParseRun(t, 'b', -d, tail);
    } else if d > 0 {
      assert AccidentalText(d) == Repeat('#', d);
      ParseRun(t, '#', d, tail);
    } else {
      assert AccidentalText(d) + tail == tail;
      assert RunLength(tail, 'b') == 0;
    }
  }

  /** A run of `k > 0` copies of one accidental character, then the tail. */
  lemma ParseRun(t: Tones.Tone, c: char, k: nat, tail: string)
    requires c == 'b' || c == '#'
    requires k > 0 && (|tail| == 0 || (tail[0] != 'b' && tail[0] != '#'))
    ensures ParseAccidental(t, Repeat(c, k) + tail) ==
            if k <= 3 && ParseOctave(tail).Some?
            then Ok(Note(t, if c == 'b' then 0 - k else k, ParseOctave(tail).value))
            else Err(Exception)
  {
    var rest := Repeat(c, k) + tail;
    assert rest[0] == c;
    RunOfRepeat(c, k, tail);
    assert rest[k..] == tail;
  }

  /** Parsing a text built from a letter, an accidental count and a tail
      that cannot extend the accidental: the count must be at most three
      either way and the tail empty or one digit. */
  lemma ParseSpelled(t: Tones.Tone, d: int, tail: string)
    requires |tail| == 0 || (tail[0] != 'b' && tail[0] != '#' && tail[|tail| - 1] != '\n')
    ensures Parse([Tones.Name(t)] + AccidentalText(d) + tail) ==
            if -3 <= d <= 3 && ParseOctave(tail).Some?
            then Ok(Note(t, d, ParseOctave(tail).value))
            else Err(Exception)
  {
    var acc := AccidentalText(d);
    var s := [Tones.Name(t)] + acc + tail;
    assert s[|s| - 1] != '\n' by {
      if |tail| == 0 && |acc| == 0 {
        assert s[|s| - 1] == Tones.Name(t);
      } else if |tail| == 0 {
        assert s[|s| - 1] == acc[|acc| - 1];
      } else {
        assert s[|s| - 1] == tail[|tail| - 1];
      }
    }
    assert s[1..] == acc + tail;
    assert s[..1] == [Tones.Name(t)];
    Tones.FromNameOfName(t);
    ParseAccidentalSpelled(t, d, tail);
  }

  /** A final newline is ignored, once. */
  lemma ParseNewline(s: string)
    requires |s| == 0 || s[|s| - 1] != '\n'
    ensures Parse(s + "\n") == Parse(s)
  {
    assert (s + "\n")[..|s|] == s;
  }

  lemma OctaveText(o: Octave)
    ensures IntToString(o) == [DigitChar(o)]
  {
  }

  /** Every note reads back from each of its spellings. */
  lemma ParseSpellings(n: Note)
    ensures forall s :: s in Spellings(n) ==> Parse(s) == Ok(n)
  {
    ParseScientific(n);
    if n.octave == 4 {
      ParseName(n);
    }
    EachOk(Parse, Scientific(n), Str(n), n.octave == 4, n);
  }

  /** A reader that accepts two texts, each also with a final newline,
      accepts every text of the set `Spellings` builds from them. */
  lemma EachOk<T>(read: string -> Result<T>, a: string, b: string, named: bool, v: T)
    requires read(a) == Ok(v) && read(a + "\n") == Ok(v)
    requires named ==> read(b) == Ok(v) && read(b + "\n") == Ok(v)
    ensures forall s :: s in {a, a + "\n"} + (if named then {b, b + "\n"} else {}) ==> read(s) == Ok(v)
  {
  }

  lemma ParseScientific(n: Note)
    ensures Parse(Scientific(n)) == Ok(n) && Parse(Scientific(n) + "\n") == Ok(n)
  {
    var acc := AccidentalText(n.accidental);
    OctaveText(n.octave);
    var digit := [DigitChar(n.octave)];
    ParseSpelled(n.tone, n.accidental, digit);
    assert Scientific(n) == [Tones.Name(n.tone)] + acc + digit;
    ParseNewline(Scientific(n));
  }

  lemma ParseName(n: Note)
    requires n.octave == 4
    ensures Parse(Str(n)) == Ok(n) && Parse(Str(n) + "\n") == Ok(n)
  {
    var letter := Tones.Name(n.tone);
    var acc := AccidentalText(n.accidental);
    ParseSpelled(n.tone, n.accidental, []);
    assert Str(n) == [letter] + acc + [];
    assert Str(n)[|Str(n)| - 1] != '\n' by {
      if n.accidental == 0 {
        assert Str(n) == [letter];
      } else {
        assert Str(n)[|Str(n)| - 1] == acc[|acc| - 1];
      }
    }
    ParseNewline(Str(n));
  }

  lemma AccidentalShape(rest: string, mark: char, count: nat)
    requires mark == 'b' || mark == '#'
    requires count <= |rest|
    requires forall j :: 0 <= j < count ==> rest[j] == mark
    ensures rest[..count] == AccidentalText(if mark == 'b' then 0 - count else count)
  {
  }

  lemma ParseAccidentalShape(tone: Tones.Tone, rest: string)
    requires ParseAccidental(tone, rest).Ok?
    ensures var n := ParseAccidental(tone, rest).value;
            n.tone == tone &&
            (rest == AccidentalText(n.accidental) + IntToString(n.octave) ||
             (n.octave == 4 && rest == AccidentalText(n.accidental)))
  {
    var n := ParseAccidental(tone, rest).value;
    var mark := if |rest| > 0 && (rest[0] == 'b' || rest[0] == '#') then rest[0] else 'b';
    var count := RunLength(rest, mark);
    var tail := rest[count..];
    AccidentalShape(rest, mark, count);
    assert rest == rest[..count] + tail;
    OctaveText(n.octave);
    if |tail| == 1 {
      assert tail == [DigitChar(n.octave)];
    }
  }

  lemma ParseBodyShape(body: string)
    requires ParseBody(body).Ok?
    ensures body == Scientific(ParseBody(body).value) ||
            (ParseBody(body).value.octave == 4 && body == Str(ParseBody(body).value))
  {
    var n := ParseBody(body).value;
    var tone := Tones.FromName(body[..1]).value;
    ParseAccidentalShape(tone, body[1..]);
    assert body == body[..1] + body[1..];
    assert body[..1] == [Tones.Name(n.tone)];
  }

  /** Every text that parses is one of the spellings of its note. */
  lemma ParseShape(s: string)
    requires Parse(s).Ok?
    ensures s in Spellings(Parse(s).value)
  {
    var body := if |s| > 0 && s[|s| - 1] == '\n' then s[..|s| - 1] else s;
    ParseBodyShape(body);
    if |s| > 0 && s[|s| - 1] == '\n' {
      assert s == body + "\n";
    }
  }

  /** The parser accepts exactly the spellings of each note. */
  lemma ParseExactly(s: string, n: Note)
    ensures Parse(s) == Ok(n) <==> s in Spellings(n)
  {
    ParseSpellings(n);
    if Parse(s) == Ok(n) {
      ParseShape(s);
    }
  }

  /** Note equality compares letter, accidental and octave, so two
      spellings of one pitch are different notes. */
  lemma EqualIsIdentity(a: Note, b: Note)
    ensures Equal(a, b) <==> a == b
  {
    ParseSpellings(a);
    ParseSpellings(b);
    assert Scientific(a) in Spellings(a);
    assert Scientific(b) in Spellings(b);
  }

  /** The name without the octave tells letter and accidental apart. */
  lemma StrIsSpelling(a: Note, b: Note)
    ensures Str(a) == Str(b) <==> a.tone == b.tone && a.accidental == b.accidental
  {
    var a', b' := Note(a.tone, a.accidental, 0), Note(b.tone, b.accidental, 0);
    EqualIsIdentity(a', b');
  }

  /** C#4 and Db4 share a pitch but are not equal. */
  lemma EnharmonicsDiffer()
    ensures Midi(Note(Tones.C, 1, 4)) == Midi(Note(Tones.D, -1, 4))
    ensures !Equal(Note(Tones.C, 1, 4), Note(Tones.D, -1, 4))
  {
    EqualIsIdentity(Note(Tones.C, 1, 4), Note(Tones.D, -1, 4));
  }

  /** `to_octave`: the same letter and accidental at another octave, which
      must be a single digit for the new text to parse. */
  function ToOctave(n: Note, octave: int): (r: Result<Note>)
    ensures r.Ok? <==> 0 <= octave <= 9
    ensures r.Ok? ==> r.value == Note(n.tone, n.accidental, octave)
    ensures r.Err? ==> r.error == Exception
  {
    Build(n.tone, n.accidental, octave)
  }

  /** `Note(name + accidental + str(octave))`, the way every operation makes
      its result: the note of that letter, accidental count and octave when
      both are in range, and a plain `Exception` otherwise. `BuildIsParse`
      shows this is what parsing the built text gives. */
  function Build(tone: Tones.Tone, d: int, octave: int): Result<Note> {
    if -3 <= d <= 3 && 0 <= octave <= 9 then Ok(Note(tone, d, octave)) else Err(Exception)
  }

  /** The text an operation builds parses exactly when the count and the
      octave are in range, to the note they spell. */
  lemma BuildIsParse(tone: Tones.Tone, d: int, octave: int)
    ensures Parse([Tones.Name(tone)] + AccidentalText(d) + IntToString(octave)) == Build(tone, d, octave)
  {
    var text := IntToString(octave);
    ParseSpelled(tone, d, text);
    OctaveOfString(octave);
  }

  /** Only a one-digit rendering of an octave is accepted back. */
  lemma OctaveOfString(o: int)
    ensures ParseOctave(IntToString(o)) == if 0 <= o <= 9 then Some(o) else None
  {
  }

  /** `to_octave` changes the octave and keeps the name. */
  lemma ToOctaveKeepsName(n: Note, octave: int)
    requires 0 <= octave <= 9
    ensures Str(ToOctave(n, octave).value) == Str(n)
    ensures Midi(ToOctave(n, octave).value) == Midi(n) + 12 * (octave - n.octave)
  {
  }

  /** The accidental normalisation of `__add__`: shift the difference by 12
      into the range [-8, 3], keeping it congruent modulo 12. */
  function Normalize(difference: int): (r: int)
    ensures -11 <= difference <= 11 ==> -8 <= r <= 3
    ensures (r - difference) % 12 == 0
  {
    var d := if difference < 3 then difference + 12 else difference;
    if d > 3 then d - 12 else d
  }

  /** The spellings `B#`, `B##`, `B###` and `A###` whose octave `__add__`
      lowers by one. */
  predicate WrapsOctave(tone: Tones.Tone, accidental: string) {
    [Tones.Name(tone)] + accidental in ["B#", "B##", "B###", "A###"]
  }

  /** The same four spellings, by letter and count. */
  predicate AboveB(tone: Tones.Tone, d: int) {
    (tone == Tones.B && 1 <= d <= 3) || (tone == Tones.A && d == 3)
  }

  lemma WrapsOctaveByCount(tone: Tones.Tone, d: int)
    ensures WrapsOctave(tone, AccidentalText(d)) <==> AboveB(tone, d)
  {
    var text := [Tones.Name(tone)] + AccidentalText(d);
    if d < 0 {
      assert text[1] == 'b';
    } else if d == 0 {
      assert |text| == 1;
    } else if d == 1 {
      assert text == [Tones.Name(tone), '#'];
    } else if d == 2 {
      assert text == [Tones.Name(tone), '#', '#'];
    } else if d == 3 {
      assert text == [Tones.Name(tone), '#', '#', '#'];
    } else {
      assert |text| > 4;
    }
  }

  /** `n + i`: the letter moves by the interval number, the pitch class by
      its semitones, the accidental spells the difference, the octave
      follows the semitone carry (one lower for the B#-like spellings), and
      the text so built is parsed. */
  function AddInterval(n: Note, i: Interval): (r: Result<Note>)
    ensures r.Err? ==> r.error == (if i.number == 0 then ValueError else Exception)
  {
    var tone :- Tones.Add(n.tone, i.number);
    var id := (NoteId(n) + i.semitones) % 12;
    var octave := (NoteId(n) + i.semitones) / 12 + n.octave;
    var difference := Normalize(id - Natural(tone));
    var accidental := AccidentalText(difference);
    var octave' := if WrapsOctave(tone, accidental) then octave - 1 else octave;
    Build(tone, difference, octave')
  }

  /** The note `AddInterval` builds, before the parser checks its ranges. */
  lemma AddComputed(n: Note, i: Interval)
    requires i.number != 0
    ensures var tone := Tones.Add(n.tone, i.number).value;
            var x := NoteId(n) + i.semitones;
            var d := Normalize(x % 12 - Natural(tone));
            var o := x / 12 + n.octave - (if AboveB(tone, d) then 1 else 0);
            AddInterval(n, i) == if -3 <= d <= 3 && 0 <= o <= 9 then Ok(Note(tone, d, o)) else Err(Exception)
  {
    var tone := Tones.Add(n.tone, i.number).value;
    var x := NoteId(n) + i.semitones;
    var d := Normalize(x % 12 - Natural(tone));
    WrapsOctaveByCount(tone, d);
  }

  /** A sum whose accidental falls outside three flats to three sharps
      fails. */
  lemma UnspellableSum(n: Note, i: Interval)
    requires i.number != 0
    requires var d := Normalize((NoteId(n) + i.semitones) % 12 - Natural(Tones.Add(n.tone, i.number).value));
             d < -3 || d > 3
    ensures AddInterval(n, i) == Err(Exception)
  {
    AddComputed(n, i);
  }

  /** What `m == n + i` means: `m` has the moved letter, the moved pitch
      class, and the moved MIDI pitch, twelve lower when `m` is spelled B#,
      B##, B### or A###. */
  predicate IsSum(n: Note, i: Interval, m: Note)
    requires i.number != 0
  {
    && m.tone == Tones.Add(n.tone, i.number).value
    && NoteId(m) == (NoteId(n) + i.semitones) % 12
    && Midi(m) == Midi(n) + i.semitones - (if AboveB(m.tone, m.accidental) then 12 else 0)
  }

  lemma Congruent(a: int, r: int)
    requires 0 <= r < 12 && (a - r) % 12 == 0
    ensures a % 12 == r
  {
  }

  lemma SameInWindow(a: int, b: int)
    requires -8 <= a <= 3 && -8 <= b <= 3 && (a - b) % 12 == 0
    ensures a == b
  {
  }

  lemma AddSound(n: Note, i: Interval)
    requires i.number != 0 && AddInterval(n, i).Ok?
    ensures IsSum(n, i, AddInterval(n, i).value)
  {
    AddComputed(n, i);
    var m := AddInterval(n, i).value;
    var x := NoteId(n) + i.semitones;
    var id := x % 12;
    var d := Normalize(id - Natural(m.tone));
    assert m.accidental == d;
    Congruent(Natural(m.tone) + d, id);
    assert NoteId(m) == id;
    assert x == 12 * (x / 12) + id;
  }

  lemma AddComplete(n: Note, i: Interval, m: Note)
    requires i.number != 0 && IsSum(n, i, m)
    ensures AddInterval(n, i) == Ok(m)
  {
    AddComputed(n, i);
    SumArith(NoteId(n), i.semitones, n.octave, Natural(m.tone), m.accidental, m.octave,
             AboveB(m.tone, m.accidental));
  }

  /** The arithmetic of `AddComplete` over plain integers: a spelling
      `natural + acc` in octave `octm` with the pitch class and MIDI pitch of
      the sum has the accidental and the octave `AddInterval` computes. */
  lemma SumArith(id: int, semis: int, octn: int, natural: int, acc: int, octm: int, above: bool)
    requires 0 <= natural < 12 && -3 <= acc <= 3 && 0 <= id < 12
    requires (natural + acc) % 12 == (id + semis) % 12
    requires (natural + acc) % 12 + octm * 12 == id + octn * 12 + semis - (if above then 12 else 0)
    ensures Normalize((id + semis) % 12 - natural) == acc
    ensures octm == (id + semis) / 12 + octn - (if above then 1 else 0)
  {
    var x := id + semis;
    var d := Normalize(x % 12 - natural);
    assert (acc - d) % 12 == 0;
    SameInWindow(acc, d);
    assert x == 12 * (x / 12) + x % 12;
  }

  /** `n + i` is exactly the note with the moved letter, pitch class and
      pitch; when no note has them (more than three accidentals would be
      needed, or the octave leaves 0..9) the addition fails. */
  lemma AddSpec(n: Note, i: Interval, m: Note)
    requires i.number != 0
    ensures AddInterval(n, i) == Ok(m) <==> IsSum(n, i, m)
  {
    if AddInterval(n, i) == Ok(m) {
      AddSound(n, i);
    }
    if IsSum(n, i, m) {
      AddComplete(n, i, m);
    }
  }

  /** The operation fails only with `ValueError` for a zero interval number
      and otherwise with a plain `Exception`. */
  lemma AddFails(n: Note, i: Interval)
    ensures i.number == 0 ==> AddInterval(n, i) == Err(ValueError)
    ensures AddInterval(n, i).Err? && i.number != 0 ==> AddInterval(n, i).error == Exception
    ensures i.number != 0 ==> (AddInterval(n, i).Ok? <==> exists m :: IsSum(n, i, m))
  {
    if i.number != 0 {
      if AddInterval(n, i).Ok? {
        AddSpec(n, i, AddInterval(n, i).value);
      }
      if exists m :: IsSum(n, i, m) {
        var m :| IsSum(n, i, m);
        AddSpec(n, i, m);
      }
    }
  }

  /** The semitones from the natural `t` up to the natural `n` letters
      away (counting from 1), within one octave. */
  function Span(t: Tones.Tone, n: int): (r: int)
    requires n != 0
    ensures 0 <= r < 12
  {
    var d := Natural(Tones.Add(t, n).value) - Natural(t);
    if d < 0 then d + 12 else d
  }

  /** How many semitones an interval is wider than the natural letters it
      spans from `t`, kept in [-8, 3]: 0 for C + M3 = E, 1 for B + A4 = E#,
      -1 for F + d5 = Cb. */
  function Deviation(t: Tones.Tone, i: Interval): int
    requires i.number != 0
  {
    Normalize(i.semitones - Span(t, i.number))
  }

  /** `Natural` by position in the cycle. */
  function NaturalAt(k: int): int {
    if k == 0 then 0 else if k == 1 then 2 else if k == 2 then 4 else if k == 3 then 5
    else if k == 4 then 7 else if k == 5 then 9 else 11
  }

  lemma NaturalByIndex(t: Tones.Tone)
    ensures Natural(t) == NaturalAt(Tones.Index(t))
  {
  }

  /** `Span` computed on positions in the cycle. */
  lemma SpanByIndex(t: Tones.Tone, n: int)
    requires 1 <= n <= 7
    ensures var i := Tones.Index(t);
            var k := if i + n - 1 < 7 then i + n - 1 else i + n - 8;
            var d := NaturalAt(k) - NaturalAt(i);
            Span(t, n) == if d < 0 then d + 12 else d
  {
    Tones.AddUp(t, n);
    NaturalByIndex(t);
    NaturalByIndex(Tones.Add(t, n).value);
  }

  /** Between natural letters every second, third, sixth and seventh is
      major or minor and every fourth and fifth perfect, except the
      augmented fourth F-B and the diminished fifth B-F. */
  lemma SpanNearMajor(t: Tones.Tone, n: int)
    requires 1 <= n <= 7
    ensures var excess := Span(t, n) - MajorSemitones(n);
            && (n == 1 ==> excess == 0)
            && (n == 4 ==> excess == (if t == Tones.F then 1 else 0))
            && (n == 5 ==> excess == (if t == Tones.B then -1 else 0))
            && (n != 1 && n != 4 && n != 5 ==> excess == 0 || excess == -1)
  {
    SpanByIndex(t, n);
    assert t == Tones.F <==> Tones.Index(t) == 3;
    assert t == Tones.B <==> Tones.Index(t) == 6;
  }

  lemma WindowEq(a: int, b: int, k: int)
    requires -8 <= a <= 3 && -8 <= b <= 3 && a - b == 12 * k
    ensures a == b
  {
  }

  /** The accidental of `n + i` is the accidental of `n` plus the
      interval's deviation from the letters, whenever that sum is a
      spellable count. */
  lemma AccidentalOfSum(n: Note, i: Interval)
    requires i.number != 0 && -3 <= n.accidental + Deviation(n.tone, i) <= 3
    ensures var tone := Tones.Add(n.tone, i.number).value;
            Normalize((NoteId(n) + i.semitones) % 12 - Natural(tone)) == n.accidental + Deviation(n.tone, i)
  {
    var tone := Tones.Add(n.tone, i.number).value;
    var d := Natural(tone) - Natural(n.tone);
    assert Span(n.tone, i.number) == if d < 0 then d + 12 else d;
    ShiftWindow(NoteId(n), i.semitones, Natural(n.tone), Natural(tone), n.accidental,
                Span(n.tone, i.number));
  }

  /** The arithmetic of `AccidentalOfSum` over plain integers: the pitch
      class `id` of a natural `n1` moved by `acc`, shifted by `semis`, lies
      `acc` plus the shift's deviation from `span` away from the natural `n2`. */
  lemma ShiftWindow(id: int, semis: int, n1: int, n2: int, acc: int, span: int)
    requires 0 <= n1 < 12 && 0 <= n2 < 12 && 0 <= id < 12 && (id - n1 - acc) % 12 == 0
    requires span == if n2 - n1 < 0 then n2 - n1 + 12 else n2 - n1
    requires -3 <= acc + Normalize(semis - span) <= 3
    ensures Normalize((id + semis) % 12 - n2) == acc + Normalize(semis - span)
  {
    var x := id + semis;
    var a := x % 12 - n2;
    var w := semis - span;
    var e := span - (n2 - n1);
    assert e == 0 || e == 12;
    assert x % 12 == x - 12 * (x / 12);
    var c := Normalize(a) - a;
    var c' := Normalize(w) - w;
    assert c == 12 || c == 0 || c == -12;
    assert c' == 12 || c' == 0 || c' == -12;
    var k := (id - n1 - acc) / 12;
    assert id == n1 + acc + 12 * k;
    WindowEq(Normalize(a), acc + Normalize(w), - (x / 12) + k + e / 12 + c / 12 - c' / 12);
  }

  /** Adding an interval of at most an octave to a note away from the
      extreme octaves succeeds whenever the accidental it needs has at most
      three signs, and gives that accidental. */
  lemma AddWithin(n: Note, i: Interval)
    requires i.number != 0 && 0 <= i.semitones <= 12 && 1 <= n.octave <= 8
    requires -3 <= n.accidental + Deviation(n.tone, i) <= 3
    ensures AddInterval(n, i).Ok?
    ensures AddInterval(n, i).value.tone == Tones.Add(n.tone, i.number).value
    ensures AddInterval(n, i).value.accidental == n.accidental + Deviation(n.tone, i)
  {
    AddComputed(n, i);
    AccidentalOfSum(n, i);
  }

  /** The right-hand operand of `+` and `-` on a note. `NumberOperand`
      stands for any value that has a unary minus but is not an Interval
      (an `int`, a `float`). */
  datatype Operand = IntervalOperand(interval: Interval) | NumberOperand | OtherOperand

  /** `n + x`: anything but an Interval is a plain `Exception`. */
  function Plus(n: Note, x: Operand): (r: Result<Note>)
    ensures !x.IntervalOperand? ==> r == Err(Exception)
    ensures x.IntervalOperand? && x.interval.number != 0 && r.Ok? ==> IsSum(n, x.interval, r.value)
  {
    match x
    case IntervalOperand(i) =>
      var r := AddInterval(n, i);
      assert i.number != 0 && r.Ok? ==> IsSum(n, i, r.value) by {
        if i.number != 0 && r.Ok? {
          AddSpec(n, i, r.value);
        }
      }
      r
    case _ => Err(Exception)
  }

  /** `n - i`, defined as `n + (-i)`. */
  function SubInterval(n: Note, i: Interval): (r: Result<Note>)
  {
    var j :- Neg(i);
    AddInterval(n, j)
  }

  /** `n - i` is `n + (-i)`, and for a valid interval `-i` is the interval
      with both signs flipped. */
  lemma SubIsAddNegated(n: Note, i: Interval)
    requires Valid(i)
    ensures SubInterval(n, i) == AddInterval(n, Interval(i.quality, -i.number, -i.semitones))
  {
    NegValid(i);
  }

  /** Adding the negation of `i` is landing on the letter `i.number` steps
      down, with the pitch `i.semitones` lower. */
  lemma AddNegated(n: Note, i: Interval, m: Note)
    requires i.number != 0
    ensures AddInterval(n, Interval(i.quality, -i.number, -i.semitones)) == Ok(m) <==>
              && m.tone == Tones.Sub(n.tone, i.number).value
              && NoteId(m) == (NoteId(n) - i.semitones) % 12
              && Midi(m) == Midi(n) - i.semitones - (if AboveB(m.tone, m.accidental) then 12 else 0)
  {
    var j := Interval(i.quality, -i.number, -i.semitones);
    AddSpec(n, j, m);
    assert Tones.Add(n.tone, j.number) == Tones.Sub(n.tone, i.number);
    assert NoteId(n) + j.semitones == NoteId(n) - i.semitones;
    assert Midi(n) + j.semitones == Midi(n) - i.semitones;
  }

  /** Subtracting a valid interval moves the letter down and drops the
      pitch by the semitones (twelve more for the B#-like spellings). */
  lemma SubSpec(n: Note, i: Interval, m: Note)
    requires Valid(i)
    ensures SubInterval(n, i) == Ok(m) <==>
              && m.tone == Tones.Sub(n.tone, i.number).value
              && NoteId(m) == (NoteId(n) - i.semitones) % 12
              && Midi(m) == Midi(n) - i.semitones - (if AboveB(m.tone, m.accidental) then 12 else 0)
  {
    SubIsAddNegated(n, i);
    AddNegated(n, i, m);
  }

  /** `n - x`: an Interval is negated and added; a number negates but is
      then no Interval to add (`Exception`); anything else has no unary
      minus (`TypeError`). */
  function Minus(n: Note, x: Operand): (r: Result<Note>)
    ensures x.NumberOperand? ==> r == Err(Exception)
    ensures x.OtherOperand? ==> r == Err(TypeError)
    ensures x.IntervalOperand? && Valid(x.interval) ==>
              r == AddInterval(n, Interval(x.interval.quality, -x.interval.number, -x.interval.semitones))
  {
    match x
    case IntervalOperand(i) =>
      assert Valid(i) ==> Neg(i) == Ok(Interval(i.quality, -i.number, -i.semitones)) by {
        if Valid(i) {
          NegValid(i);
        }
      }
      SubInterval(n, i)
    case NumberOperand => Err(Exception)
    case OtherOperand => Err(TypeError)
  }

  /** A4 + d5 = Eb5. */
  lemma AddDiminishedFifth()
    ensures AddInterval(Note(Tones.A, 0, 4), Interval('d', 5, 6)) == Ok(Note(Tones.E, -1, 5))
  {
    assert Tones.Add(Tones.A, 5) == Ok(Tones.E);
    AddComplete(Note(Tones.A, 0, 4), Interval('d', 5, 6), Note(Tones.E, -1, 5));
  }

  /** G##4 + m3 = B#4. */
  lemma AddToDoubleSharp()
    ensures AddInterval(Note(Tones.G, 2, 4), Interval('m', 3, 3)) == Ok(Note(Tones.B, 1, 4))
  {
    assert Tones.Add(Tones.G, 3) == Ok(Tones.B);
    AddComplete(Note(Tones.G, 2, 4), Interval('m', 3, 3), Note(Tones.B, 1, 4));
  }

  /** F3 + P5 = C4, crossing into the next octave at C. */
  lemma AddAcrossOctave()
    ensures AddInterval(Note(Tones.F, 0, 3), Interval('P', 5, 7)) == Ok(Note(Tones.C, 0, 4))
  {
    assert Tones.Add(Tones.F, 5) == Ok(Tones.C);
    AddComplete(Note(Tones.F, 0, 3), Interval('P', 5, 7), Note(Tones.C, 0, 4));
  }

  /** B#4 + P1 = B#3: the B# correction lowers even a unison. */
  lemma AddUnisonToBSharp()
    ensures AddInterval(Note(Tones.B, 1, 4), Interval('P', 1, 0)) == Ok(Note(Tones.B, 1, 3))
  {
    assert Tones.Add(Tones.B, 1) == Ok(Tones.B);
    AddComplete(Note(Tones.B, 1, 4), Interval('P', 1, 0), Note(Tones.B, 1, 3));
  }

  /** Adding a perfect unison keeps the spelling, and the octave too except
      for the spellings B#, B##, B### and A###, which it lowers by one (and
      so cannot add to at octave 0). */
  lemma AddUnison(n: Note)
    ensures AddInterval(n, Interval('P', 1, 0)) ==
              if !AboveB(n.tone, n.accidental) then Ok(n)
              else if n.octave > 0 then Ok(Note(n.tone, n.accidental, n.octave - 1))
              else Err(Exception)
  {
    Tones.AddOne(n.tone);
    AddComputed(n, Interval('P', 1, 0));
    ModWindow(Natural(n.tone) + n.accidental);
    ModWindow(NoteId(n) + 0);
    assert Normalize(NoteId(n) - Natural(n.tone)) == n.accidental;
  }

  /** Adding to the same note one octave higher gives the sum one octave
      higher, when there is such a note. */
  lemma AddRaised(n: Note, i: Interval, m: Note)
    requires n.octave < 9 && AddInterval(n, i) == Ok(m)
    ensures AddInterval(Note(n.tone, n.accidental, n.octave + 1), i) ==
              if m.octave < 9 then Ok(Note(m.tone, m.accidental, m.octave + 1)) else Err(Exception)
  {
    var h := Note(n.tone, n.accidental, n.octave + 1);
    assert i.number != 0;
    assert NoteId(h) == NoteId(n);
    AddSound(n, i);
    if m.octave < 9 {
      var m' := Note(m.tone, m.accidental, m.octave + 1);
      assert IsSum(h, i, m');
      AddComplete(h, i, m');
    } else if AddInterval(h, i).Ok? {
      var m' := AddInterval(h, i).value;
      AddSound(h, i);
      SameSpelling(m, m');
      assert false;
    }
  }

  /** A letter and a pitch class fix the accidental. */
  lemma SameSpelling(m: Note, m': Note)
    requires m.tone == m'.tone && NoteId(m) == NoteId(m')
    ensures m.accidental == m'.accidental
  {
    assert (m.accidental - m'.accidental) % 12 == 0;
    SameInWindow(m.accidental, m'.accidental);
  }

  lemma ModWindow(v: int)
    requires -12 <= v < 24
    ensures v % 12 == if v < 0 then v + 12 else if v >= 12 then v - 12 else v
    ensures v / 12 == if v < 0 then -1 else if v >= 12 then 1 else 0
  {
  }

  /** C4 + M10 = E4: a compound interval moves by the semitones of its reduction only. */
  lemma AddCompound()
    ensures AddInterval(Note(Tones.C, 0, 4), Interval('M', 10, 4)) == Ok(Note(Tones.E, 0, 4))
  {
    assert Tones.Add(Tones.C, 10) == Ok(Tones.E);
    AddComplete(Note(Tones.C, 0, 4), Interval('M', 10, 4), Note(Tones.E, 0, 4));
  }

  /** `s` repeated `k` times. */
  function Times(s: string, k: nat): string {
    if k == 0 then [] else s + Times(s, k - 1)
  }

  lemma ReplaceRepeat(c: char, k: nat, repl: string)
    ensures ReplaceChar(Repeat(c, k), c, repl) == Times(repl, k)
  {
    if k > 0 {
      assert Repeat(c, k)[1..] == Repeat(c, k - 1);
      ReplaceRepeat(c, k - 1, repl);
    }
  }

  lemma ReplaceAbsent(s: string, c: char, repl: string)
    requires forall j :: 0 <= j < |s| ==> s[j] != c
    ensures ReplaceChar(s, c, repl) == s
  {
    if |s| > 0 {
      ReplaceAbsent(s[1..], c, repl);
      assert s == [s[0]] + s[1..];
    }
  }

  lemma TimesLower(s: string, k: nat)
    requires forall j :: 0 <= j < |s| ==> 'a' <= s[j] <= 'z'
    ensures Lower(Times(s, k)) == Times(s, k)
    ensures forall j :: 0 <= j < |Times(s, k)| ==> 'a' <= Times(s, k)[j] <= 'z'
  {
    if k > 0 {
      TimesLower(s, k - 1);
      LowerAppend(s, Times(s, k - 1));
      LowerLetters(s);
    }
  }

  lemma LowerLetters(s: string)
    requires forall j :: 0 <= j < |s| ==> 'a' <= s[j] <= 'z'
    ensures Lower(s) == s
  {
    if |s| > 0 {
      LowerLetters(s[1..]);
      assert s == [s[0]] + s[1..];
    }
  }

  /** The LilyPond name is the lower-case letter followed by one `es` per
      flat or one `is` per sharp; the letter B itself is not replaced. */
  lemma LilypondSpelled(n: Note)
    ensures Lilypond(n) ==
              [LowerChar(Tones.Name(n.tone))] +
              (if n.accidental < 0 then Times("es", -n.accidental) else Times("is", n.accidental))
  {
    var suffix := LilypondAccidental(n.accidental);
    assert Str(n) == [Tones.Name(n.tone)] + AccidentalText(n.accidental);
    LilypondOfLetter(Tones.Name(n.tone), AccidentalText(n.accidental), suffix);
  }

  /** A letter other than `b` followed by an accidental: the replacements
      leave the letter alone, and lowering it lowers only the letter. */
  lemma LilypondOfLetter(letter: char, acc: string, suffix: string)
    requires letter != 'b' && letter != '#'
    requires ReplaceChar(ReplaceChar(acc, 'b', "es"), '#', "is") == suffix && Lower(suffix) == suffix
    ensures Lower(ReplaceChar(ReplaceChar([letter] + acc, 'b', "es"), '#', "is")) == [LowerChar(letter)] + suffix
  {
    ReplaceCharAppend([letter], acc, 'b', "es");
    assert ReplaceChar([letter], 'b', "es") == [letter];
    ReplaceCharAppend([letter], ReplaceChar(acc, 'b', "es"), '#', "is");
    assert ReplaceChar([letter], '#', "is") == [letter];
    LowerAppend([letter], suffix);
  }

  /** The accidental with `b` replaced by `es` and `#` by `is`, already in
      lower case. */
  lemma LilypondAccidental(a: int) returns (suffix: string)
    ensures suffix == if a < 0 then Times("es", -a) else Times("is", a)
    ensures ReplaceChar(ReplaceChar(AccidentalText(a), 'b', "es"), '#', "is") == suffix
    ensures Lower(suffix) == suffix
  {
    if a < 0 {
      suffix := Times("es", -a);
      assert AccidentalText(a) == Repeat('b', -a);
      LilypondFlats(-a);
    } else {
      suffix := Times("is", a);
      assert AccidentalText(a) == Repeat('#', a);
      LilypondSharps(a);
    }
  }

  lemma LilypondFlats(k: nat)
    ensures ReplaceChar(ReplaceChar(Repeat('b', k), 'b', "es"), '#', "is") == Times("es", k)
    ensures Lower(Times("es", k)) == Times("es", k)
  {
    ReplaceRepeat('b', k, "es");
    TimesLower("es", k);
    ReplaceAbsent(Times("es", k), '#', "is");
  }

  lemma LilypondSharps(k: nat)
    ensures ReplaceChar(ReplaceChar(Repeat('#', k), 'b', "es"), '#', "is") == Times("is", k)
    ensures Lower(Times("is", k)) == Times("is", k)
  {
    ReplaceAbsent(Repeat('#', k), 'b', "es");
    ReplaceRepeat('#', k, "is");
    TimesLower("is", k);
  }

  lemma LilypondExamples()
    ensures Lilypond(Note(Tones.C, 0, 4)) == "c"
    ensures Lilypond(Note(Tones.C, 1, 4)) == "cis"
    ensures Lilypond(Note(Tones.C, -1, 4)) == "ces"
  {
    LilypondSpelled(Note(Tones.C, 0, 4));
    LilypondSpelled(Note(Tones.C, 1, 4));
    LilypondSpelled(Note(Tones.C, -1, 4));
  }

  /** Arguments that may be a note, a text to parse as one, or a value of
      any other type, as taken by the Chord and Scale constructors. */
  datatype Root = NoteRoot(note: Note) | TextRoot(text: string) | OtherRoot
}
