/** Scales: a root note, the name of one of eleven recipes, the recipe's
    intervals, and the notes they give on the root, moved to octave 0.

    A scale is indexed without bound: index `k` is the degree `k mod len`
    played `k div len` octaves above the root, and it contains a note when
    it holds the same spelling at any octave.
 */
module Scales {
  import opened Results
  import Tones
  import opened Intervals
  import opened Notes
  import Chords
  import Text

  /** The `scales` table. */
  function Recipe(name: string): Option<seq<string>> {
    if name == "major" then Some(["P1", "M2", "M3", "P4", "P5", "M6", "M7"])
    else if name == "natural_minor" then Some(["P1", "M2", "m3", "P4", "P5", "m6", "m7"])
    else if name == "harmonic_minor" then Some(["P1", "M2", "m3", "P4", "P5", "m6", "M7"])
    else if name == "melodic_minor" then Some(["P1", "M2", "m3", "P4", "P5", "M6", "M7"])
    else if name == "dorian" then Some(["P1", "M2", "m3", "P4", "P5", "M6", "m7"])
    else if name == "locrian" then Some(["P1", "m2", "m3", "P4", "d5", "m6", "m7"])
    else if name == "lydian" then Some(["P1", "M2", "M3", "A4", "P5", "M6", "M7"])
    else if name == "mixolydian" then Some(["P1", "M2", "M3", "P4", "P5", "M6", "m7"])
    else if name == "phrygian" then Some(["P1", "m2", "m3", "P4", "P5", "m6", "m7"])
    else if name == "major_pentatonic" then Some(["P1", "M2", "M3", "P5", "M6"])
    else if name == "minor_pentatonic" then Some(["P1", "m3", "P4", "P5", "m7"])
    else None
  }

  /** The table's keys in their iteration order. */
  const Names: seq<string> :=
    ["major", "natural_minor", "harmonic_minor", "melodic_minor", "dorian", "locrian",
     "lydian", "mixolydian", "phrygian", "major_pentatonic", "minor_pentatonic"]

  lemma NamesAreKeys(name: string)
    ensures Recipe(name).Some? <==> name in Names
  {
  }

  datatype Scale = Scale(root: Note, name: string, intervals: seq<Interval>, notes: seq<Note>)

  /** `[Interval(i) for i in recipe]`: the first text that is not an
      interval is the result. */
  function ParseAll(recipe: seq<string>): (r: Result<seq<Interval>>)
    ensures r.Ok? <==> forall k :: 0 <= k < |recipe| ==> Intervals.Parse(recipe[k]).Ok?
    ensures r.Ok? ==>
              && |r.value| == |recipe|
              && forall k :: 0 <= k < |recipe| ==> Intervals.Parse(recipe[k]) == Ok(r.value[k])
  {
    if |recipe| == 0 then Ok([])
    else
      var i :- Intervals.Parse(recipe[0]);
      var rest :- ParseAll(recipe[1..]);
      assert forall k :: 1 <= k < |recipe| ==> recipe[k] == recipe[1..][k - 1];
      Ok([i] + rest)
  }

  /** `[(root + i).to_octave(0) for i in intervals]`: the first failing
      addition is the result. */
  function Degrees(root: Note, intervals: seq<Interval>): (r: Result<seq<Note>>)
    ensures r.Ok? <==> forall k :: 0 <= k < |intervals| ==> AddInterval(root, intervals[k]).Ok?
    ensures r.Ok? ==>
              && |r.value| == |intervals|
              && forall k :: 0 <= k < |intervals| ==>
                   var m := AddInterval(root, intervals[k]).value;
                   r.value[k] == Note(m.tone, m.accidental, 0)
    ensures r.Err? ==> r.error == AddInterval(root, intervals[FirstFailure(root, intervals)]).error
  {
    if |intervals| == 0 then Ok([])
    else
      var m :- AddInterval(root, intervals[0]);
      var low := ToOctave(m, 0).value;
      var rest :- Degrees(root, intervals[1..]);
      assert forall k :: 1 <= k < |intervals| ==> intervals[k] == intervals[1..][k - 1];
      Ok([low] + rest)
  }

  /** The position of the first interval that cannot be added to `root`. */
  function FirstFailure(root: Note, intervals: seq<Interval>): (k: nat)
    requires exists k :: 0 <= k < |intervals| && AddInterval(root, intervals[k]).Err?
    ensures k < |intervals| && AddInterval(root, intervals[k]).Err?
    ensures forall j :: 0 <= j < k ==> AddInterval(root, intervals[j]).Ok?
  {
    if AddInterval(root, intervals[0]).Err? then 0
    else
      assert exists k :: 0 <= k < |intervals[1..]| && AddInterval(root, intervals[1..][k]).Err? by {
        var k :| 0 <= k < |intervals| && AddInterval(root, intervals[k]).Err?;
        assert intervals[1..][k - 1] == intervals[k];
      }
      1 + FirstFailure(root, intervals[1..])
  }

  /** The root note of `Scale(root, name)`: a text root is parsed as a note
      (a plain `Exception` when it is not one), and any root other than a
      note or a text is a `TypeError`. */
  function RootNote(root: Root): Result<Note> {
    match root
    case NoteRoot(n) => Ok(n)
    case TextRoot(text) => Notes.Parse(text)
    case OtherRoot => Err(TypeError)
  }

  /** `Scale(root, name)`: the root is read first, then an unknown name is a
      `NameError`; a known name builds exactly when all its degrees exist on
      the root. */
  function Construct(root: Root, name: string): (r: Result<Scale>)
    ensures root.OtherRoot? ==> r == Err(TypeError)
    ensures root.TextRoot? && Notes.Parse(root.text).Err? ==> r == Err(Exception)
    ensures root.NoteRoot? && Recipe(name).None? ==> r == Err(NameError)
    ensures root.TextRoot? && Notes.Parse(root.text).Ok? && Recipe(name).None? ==> r == Err(NameError)
    ensures r.Ok? <==>
              && RootNote(root).Ok? && Recipe(name).Some?
              && ParseAll(Recipe(name).value).Ok?
              && Degrees(RootNote(root).value, ParseAll(Recipe(name).value).value).Ok?
    ensures r.Ok? ==>
              && (root.NoteRoot? ==> r.value.root == root.note)
              && (root.TextRoot? ==> Notes.Parse(root.text) == Ok(r.value.root))
              && r.value.name == name
              && ParseAll(Recipe(name).value) == Ok(r.value.intervals)
              && Degrees(r.value.root, r.value.intervals) == Ok(r.value.notes)
  {
    var note :- match root
      case NoteRoot(n) => Ok(n)
      case TextRoot(text) => Notes.Parse(text)
      case OtherRoot => Err(TypeError);
    match Recipe(name)
    case None => Err(NameError)
    case Some(recipe) =>
      var intervals :- ParseAll(recipe);
      var notes :- Degrees(note, intervals);
      Ok(Scale(note, name, intervals, notes))
  }

  /** `len(s)`. */
  function Len(s: Scale): nat {
    |s.intervals|
  }

  /** `s[k]` for an integer `k`: the degree `k mod len`, added to the root
      moved `k div len` octaves (both by floor division; the offset
      `k - (k div len) * len` is `k mod len`). Moving the root with
      `to_octave` succeeds exactly when the new octave is a single digit
      (`ToOctave`), and gives `Moved`. Every failure inside, including the
      division by a zero length, becomes an `IndexError`. */
  function GetItem(s: Scale, k: int): (r: Result<Note>)
    ensures r.Err? ==> r.error == IndexError
    ensures r.Ok? ==> |s.intervals| > 0 && 0 <= s.root.octave + k / |s.intervals| <= 9
    ensures r.Ok? ==> r == AddInterval(Moved(s, k / |s.intervals|), s.intervals[k % |s.intervals|])
    ensures |s.intervals| > 0 && 0 <= s.root.octave + k / |s.intervals| <= 9 ==>
              (r.Ok? <==> AddInterval(Moved(s, k / |s.intervals|), s.intervals[k % |s.intervals|]).Ok?)
  {
    if |s.intervals| == 0 then Err(IndexError)
    else
      var len := |s.intervals|;
      var octaves := k / len;
      var offset := k % len;
      if !(0 <= s.root.octave + octaves <= 9) then Err(IndexError)
      else
        match AddInterval(Moved(s, octaves), s.intervals[offset])
        case Err(_) => Err(IndexError)
        case Ok(m) => Ok(m)
  }

  /** The root of `s` moved `octaves` octaves, when that octave exists. */
  function Moved(s: Scale, octaves: int): (r: Note)
    requires 0 <= s.root.octave + octaves <= 9
    ensures ToOctave(s.root, s.root.octave + octaves) == Ok(r)
  {
    Note(s.root.tone, s.root.accidental, s.root.octave + octaves)
  }

  /** What `s[k]` is: the letter moved by the degree's number, the pitch
      class moved by its semitones, and the pitch `k div len` octaves plus
      the degree's semitones above the root (twelve lower when spelled B#,
      B##, B### or A###). */
  lemma GetItemPitch(s: Scale, k: int)
    requires GetItem(s, k).Ok?
    ensures var len := |s.intervals|;
            var i := s.intervals[k % len];
            var m := GetItem(s, k).value;
            && i.number != 0
            && m.tone == Tones.Add(s.root.tone, i.number).value
            && NoteId(m) == (NoteId(s.root) + i.semitones) % 12
            && Midi(m) == Midi(s.root) + 12 * (k / len) + i.semitones
                            - (if AboveB(m.tone, m.accidental) then 12 else 0)
  {
    var len := |s.intervals|;
    ShiftedSum(s.root, k / len, s.intervals[k % len], GetItem(s, k).value);
  }

  /** Adding to a root moved `q` octaves: the sum is `q` octaves higher. */
  lemma ShiftedSum(root: Note, q: int, i: Interval, m: Note)
    requires 0 <= root.octave + q <= 9
    requires AddInterval(Note(root.tone, root.accidental, root.octave + q), i) == Ok(m)
    ensures i.number != 0
    ensures m.tone == Tones.Add(root.tone, i.number).value
    ensures NoteId(m) == (NoteId(root) + i.semitones) % 12
    ensures Midi(m) == Midi(root) + 12 * q + i.semitones - (if AboveB(m.tone, m.accidental) then 12 else 0)
  {
    var base := Note(root.tone, root.accidental, root.octave + q);
    AddFails(base, i);
    AddSound(base, i);
  }

  /** Only finitely many indices have a note: the moved root must keep a
      one-digit octave, so `k` lies within the ten octaves 0..9 counted from
      the root's own. */
  lemma IndexRange(s: Scale, k: int)
    requires GetItem(s, k).Ok?
    ensures var len, o := |s.intervals|, s.root.octave as int;
            -o * len <= k < (10 - o) * len
  {
    QuotientRange(k, |s.intervals|, s.root.octave);
  }

  /** The arithmetic of `IndexRange`: a quotient between `-o` and `9 - o`. */
  lemma QuotientRange(k: int, len: int, o: int)
    requires len > 0 && 0 <= o + k / len <= 9
    ensures -o * len <= k < (10 - o) * len
  {
    var q := k / len;
    assert k == len * q + k % len;
    MulMono(len, -o, q);
    MulMono(len, q, 9 - o);
  }

  lemma MulMono(n: int, a: int, b: int)
    requires n >= 0 && a <= b
    ensures n * a <= n * b
  {
    if a < b {
      MulAtLeast(n, b - a);
      assert n * b == n * a + n * (b - a);
    }
  }

  /** The note one octave above `n`, when there is one. */
  function Raise(n: Note): Result<Note> {
    ToOctave(n, n.octave + 1)
  }

  /** Indexing is periodic: `s[k + len]` is `s[k]` one octave higher, and
      it exists exactly when both the moved root and that note stay below
      octave 10. */
  lemma Periodic(s: Scale, k: int)
    requires GetItem(s, k).Ok?
    ensures var len := |s.intervals|;
            GetItem(s, k + len) ==
              if s.root.octave + k / len < 9 && GetItem(s, k).value.octave < 9
              then Raise(GetItem(s, k).value)
              else Err(IndexError)
  {
    var len := |s.intervals|;
    DivShift(k, len);
    if s.root.octave + k / len < 9 {
      PeriodicBelowTop(s, k);
    }
  }

  lemma PeriodicBelowTop(s: Scale, k: int)
    requires GetItem(s, k).Ok? && s.root.octave + k / |s.intervals| < 9
    ensures var m := GetItem(s, k).value;
            GetItem(s, k + |s.intervals|) == if m.octave < 9 then Raise(m) else Err(IndexError)
  {
    var len := |s.intervals|;
    var q := k / len;
    var i := s.intervals[k % len];
    var m := GetItem(s, k).value;
    var low := Moved(s, q);
    assert AddInterval(low, i) == Ok(m);
    AddRaised(low, i, m);
    var high := Moved(s, q + 1);
    assert high == Note(low.tone, low.accidental, low.octave + 1);
    DivShift(k, len);
    assert i == s.intervals[(k + len) % len];
    if m.octave < 9 {
      assert AddInterval(high, i) == Ok(Note(m.tone, m.accidental, m.octave + 1));
    } else {
      assert AddInterval(high, i).Err?;
    }
  }

  /** Euclidean division by `n` of `k + n`: one more quotient, the same
      remainder. */
  lemma DivShift(k: int, n: int)
    requires n > 0
    ensures (k + n) / n == k / n + 1 && (k + n) % n == k % n
  {
    var q, r := k / n, k % n;
    assert k + n == n * (q + 1) + r;
    DivUnique(k + n, n, q + 1, r);
  }

  /** The quotient and remainder are the only pair that rebuilds `a`. */
  lemma DivUnique(a: int, n: int, q: int, r: int)
    requires n > 0 && 0 <= r < n && a == n * q + r
    ensures a / n == q && a % n == r
  {
    var q', r' := a / n, a % n;
    assert n * (q - q') == r' - r;
    if q > q' {
      MulAtLeast(n, q - q');
    } else if q < q' {
      MulAtLeast(n, q' - q);
    }
  }

  lemma {:induction false} MulAtLeast(n: int, m: int)
    requires n >= 0 && m >= 1
    ensures n * m >= n
    decreases m
  {
    if m > 1 {
      MulAtLeast(n, m - 1);
      assert n * m == n * (m - 1) + n;
    }
  }

  /** The degrees of a constructed scale are its notes: for `0 <= k < len`,
      `s[k]` exists and is the `k`-th note at the octave the addition gave
      it. */
  lemma DegreesAreNotes(root: Root, name: string, k: int)
    requires Construct(root, name).Ok?
    requires 0 <= k < Len(Construct(root, name).value)
    ensures var s := Construct(root, name).value;
            && GetItem(s, k).Ok?
            && ToOctave(GetItem(s, k).value, 0) == Ok(s.notes[k])
  {
    var s := Construct(root, name).value;
    DivUnique(k, |s.intervals|, 0, k);
    assert Moved(s, 0) == s.root;
    assert AddInterval(s.root, s.intervals[k]).Ok?;
  }

  /** Every recipe starts with a perfect unison. */
  lemma RecipesStartWithUnison(name: string)
    requires Recipe(name).Some?
    ensures |Recipe(name).value| > 0 && Recipe(name).value[0] == "P1"
  {
  }

  /** The first note of a scale is its root at octave 0: the unison keeps
      the spelling. A root spelled B#, B##, B### or A### at octave 0 has no
      scale at all, because the unison would take it below octave 0. */
  lemma FirstDegreeIsRoot(root: Root, name: string)
    requires Construct(root, name).Ok?
    ensures var s := Construct(root, name).value;
            && |s.notes| > 0
            && Ok(s.notes[0]) == ToOctave(s.root, 0)
            && (AboveB(s.root.tone, s.root.accidental) ==> s.root.octave > 0)
  {
    var s := Construct(root, name).value;
    RecipesStartWithUnison(name);
    assert Intervals.Parse("P1") == Ok(Interval('P', 1, 0)) by {
      assert "P1"[1..] == "1";
    }
    assert s.intervals[0] == Interval('P', 1, 0);
    AddUnison(s.root);
  }

  /** A value tested with `in`: a note, a chord, a list, tuple or set (a
      set in its iteration order), or a value of any other type. */
  datatype Member =
    | NoteMember(note: Note)
    | ChordMember(chord: Chords.Chord)
    | Collection(items: seq<Member>)
    | OtherMember

  /** `n in notes` for a list of notes: `==` against each element in turn. */
  function InList(n: Note, notes: seq<Note>): bool {
    |notes| > 0 && (Equal(notes[0], n) || InList(n, notes[1..]))
  }

  /** List membership by `==` is plain membership, since note equality is
      identity. */
  lemma {:induction false} InListIsIn(n: Note, notes: seq<Note>)
    ensures InList(n, notes) <==> n in notes
  {
    if |notes| > 0 {
      EqualIsIdentity(notes[0], n);
      InListIsIn(n, notes[1..]);
      assert notes == [notes[0]] + notes[1..];
    }
  }

  /** `x in s`. A note is looked for at octave 0 among the notes; a chord
      is contained when each of its notes is; a collection when each of its
      items is, tested in order and stopping at the first that is not
      (so an empty one is contained); any other value is a `TypeError`. */
  function Contains(s: Scale, x: Member): (r: Result<bool>)
    ensures x.OtherMember? ==> r == Err(TypeError)
    ensures x.NoteMember? ==> r == Ok(Note(x.note.tone, x.note.accidental, 0) in s.notes)
    ensures x.ChordMember? ==>
              r == Ok(forall j :: 0 <= j < |x.chord.notes| ==>
                        Note(x.chord.notes[j].tone, x.chord.notes[j].accidental, 0) in s.notes)
    decreases x, 1
  {
    match x
    case NoteMember(n) =>
      InListIsIn(ToOctave(n, 0).value, s.notes);
      Ok(InList(ToOctave(n, 0).value, s.notes))
    case ChordMember(c) => Ok(NotesIn(s, c.notes))
    case Collection(items) => AllIn(s, items)
    case OtherMember => Err(TypeError)
  }

  /** `all(n in s for n in notes)` over the notes of a chord. */
  function NotesIn(s: Scale, notes: seq<Note>): (r: bool)
    ensures r <==> forall j :: 0 <= j < |notes| ==>
                     Note(notes[j].tone, notes[j].accidental, 0) in s.notes
  {
    if |notes| == 0 then true
    else
      var n := notes[0];
      InListIsIn(ToOctave(n, 0).value, s.notes);
      assert forall j :: 1 <= j < |notes| ==> notes[j] == notes[1..][j - 1];
      InList(ToOctave(n, 0).value, s.notes) && NotesIn(s, notes[1..])
  }

  /** `all(x in s for x in items)`: the first item that is not contained,
      or whose test raises, decides; later items are not looked at. */
  function AllIn(s: Scale, items: seq<Member>): (r: Result<bool>)
    ensures r == Ok(true) <==> forall j :: 0 <= j < |items| ==> Contains(s, items[j]) == Ok(true)
    ensures r != Ok(true) ==>
              exists j :: 0 <= j < |items| && r == Contains(s, items[j]) &&
                forall i :: 0 <= i < j ==> Contains(s, items[i]) == Ok(true)
    decreases items, 0
  {
    if |items| == 0 then Ok(true)
    else
      var first :- Contains(s, items[0]);
      if !first then Ok(false)
      else
        var rest := AllIn(s, items[1..]);
        assert forall j :: 1 <= j < |items| ==> items[j] == items[1..][j - 1];
        rest
  }

  /** For a scale built by the constructor, a note is contained exactly
      when one of the scale's notes has the same name: the octave is
      ignored, the spelling is not (C# and Db are told apart). */
  lemma ContainsBySpelling(root: Root, name: string, n: Note)
    requires Construct(root, name).Ok?
    ensures var s := Construct(root, name).value;
            Contains(s, NoteMember(n)) == Ok(exists j :: 0 <= j < |s.notes| && Str(s.notes[j]) == Str(n))
  {
    var s := Construct(root, name).value;
    var low := Note(n.tone, n.accidental, 0);
    forall j | 0 <= j < |s.notes|
      ensures s.notes[j] == low <==> Str(s.notes[j]) == Str(n)
    {
      StrIsSpelling(s.notes[j], n);
    }
  }

  /** The notes as a collection of members. */
  function NoteItems(notes: seq<Note>): (r: seq<Member>)
    ensures |r| == |notes|
    ensures forall j :: 0 <= j < |r| ==> r[j] == NoteMember(notes[j])
  {
    if |notes| == 0 then [] else [NoteMember(notes[0])] + NoteItems(notes[1..])
  }

  /** A chord is contained exactly when the collection of its notes is. */
  lemma ChordAsCollection(s: Scale, c: Chords.Chord)
    ensures Contains(s, ChordMember(c)) == Contains(s, Collection(NoteItems(c.notes)))
  {
    NotesCollection(s, c.notes);
  }

  /** A collection of notes never raises: it is contained exactly when each
      note is. */
  lemma NotesCollection(s: Scale, notes: seq<Note>)
    ensures AllIn(s, NoteItems(notes)) == Ok(NotesIn(s, notes))
  {
    var items := NoteItems(notes);
    if AllIn(s, items) != Ok(true) {
      var j :| 0 <= j < |items| && AllIn(s, items) == Contains(s, items[j]);
      assert Contains(s, items[j]).Ok?;
    }
  }

  /** An empty collection is contained in every scale. */
  lemma EmptyContained(s: Scale)
    ensures Contains(s, Collection([])) == Ok(true)
  {
  }

  /** `range(start, stop, step)` for a non-zero step: the arithmetic
      progression from `start` by `step`, up to the first value at or
      beyond `stop`, which it leaves out. */
  function Range(start: int, stop: int, step: int): (r: seq<int>)
    requires step != 0
    ensures |r| > 0 ==> r[0] == start
    ensures forall j :: 0 <= j < |r| - 1 ==> r[j + 1] == r[j] + step
    ensures forall j :: 0 <= j < |r| ==> if step > 0 then r[j] < stop else r[j] > stop
    ensures var next := if |r| == 0 then start else r[|r| - 1] + step;
            if step > 0 then next >= stop else next <= stop
    decreases if step > 0 then stop - start else start - stop
  {
    if (step > 0 && start < stop) || (step < 0 && start > stop) then
      var rest := Range(start + step, stop, step);
      var r := [start] + rest;
      assert forall j :: 1 <= j < |r| ==> r[j] == rest[j - 1];
      assert r[|r| - 1] == if |rest| == 0 then start else rest[|rest| - 1];
      r
    else []
  }

  lemma {:induction false} RangeByOne(a: int, b: int)
    ensures |Range(a, b, 1)| == if a < b then b - a else 0
    ensures forall j :: 0 <= j < |Range(a, b, 1)| ==> Range(a, b, 1)[j] == a + j
    decreases b - a
  {
    if a < b {
      RangeByOne(a + 1, b);
    }
  }

  /** `s[a:b]` with `b != 0` lists `s[a]`, `s[a + 1]`, ... up to `s[b - 1]`,
      and is an `IndexError` when one of them is. */
  lemma SliceByOne(s: Scale, a: int, b: int)
    requires b != 0
    ensures var r := GetSlice(s, Some(a), Some(b), None);
            && (r.Ok? <==> forall k :: a <= k < b ==> GetItem(s, k).Ok?)
            && (r.Err? ==> r.error == IndexError)
            && (r.Ok? ==> |r.value| == (if a < b then b - a else 0) &&
                          forall j :: 0 <= j < |r.value| ==> GetItem(s, a + j) == Ok(r.value[j]))
  {
    RangeByOne(a, b);
    var indices := Range(a, b, 1);
    var r := GetAll(s, indices);
    assert GetSlice(s, Some(a), Some(b), None) == r;
    if r.Ok? {
      forall k | a <= k < b
        ensures GetItem(s, k).Ok?
      {
        assert indices[k - a] == k;
      }
      ShiftedIndices(s, a, indices, r.value);
    }
    if forall k :: a <= k < b ==> GetItem(s, k).Ok? {
      forall j | 0 <= j < |indices|
        ensures GetItem(s, indices[j]).Ok?
      {
        assert a <= indices[j] < b;
      }
    }
  }

  lemma ShiftedIndices(s: Scale, a: int, indices: seq<int>, notes: seq<Note>)
    requires |notes| == |indices|
    requires forall j :: 0 <= j < |indices| ==> indices[j] == a + j
    requires forall j :: 0 <= j < |indices| ==> GetItem(s, indices[j]) == Ok(notes[j])
    ensures forall j :: 0 <= j < |notes| ==> GetItem(s, a + j) == Ok(notes[j])
  {
    forall j | 0 <= j < |notes|
      ensures GetItem(s, a + j) == Ok(notes[j])
    {
      assert indices[j] == a + j;
    }
  }

  /** `[s[i] for i in indices]`: the first index out of range is the
      result. */
  function GetAll(s: Scale, indices: seq<int>): (r: Result<seq<Note>>)
    ensures r.Ok? <==> forall j :: 0 <= j < |indices| ==> GetItem(s, indices[j]).Ok?
    ensures r.Ok? ==>
              && |r.value| == |indices|
              && forall j :: 0 <= j < |indices| ==> GetItem(s, indices[j]) == Ok(r.value[j])
    ensures r.Err? ==> r.error == IndexError
  {
    if |indices| == 0 then Ok([])
    else
      var first :- GetItem(s, indices[0]);
      var rest :- GetAll(s, indices[1..]);
      assert forall j :: 1 <= j < |indices| ==> indices[j] == indices[1..][j - 1];
      Ok([first] + rest)
  }

  /** `s[start:stop:step]`: a missing start is 0 and a missing or zero step
      is 1, but a missing or zero stop falls back on an attribute the class
      does not have, which is an `AttributeError`. */
  function GetSlice(s: Scale, start: Option<int>, stop: Option<int>, step: Option<int>): (r: Result<seq<Note>>)
    ensures stop == None || stop == Some(0) ==> r == Err(AttributeError)
    ensures r.Err? && stop != None && stop != Some(0) ==> r.error == IndexError
    ensures r.Ok? ==>
              var a := if start.Some? then start.value else 0;
              var b := if step.Some? && step.value != 0 then step.value else 1;
              var indices := Range(a, stop.value, b);
              && |r.value| == |indices|
              && forall j :: 0 <= j < |indices| ==> GetItem(s, indices[j]) == Ok(r.value[j])
  {
    var a := if start.Some? then start.value else 0;
    if stop == None || stop == Some(0) then Err(AttributeError)
    else
      var b := if step.Some? && step.value != 0 then step.value else 1;
      GetAll(s, Range(a, stop.value, b))
  }

  /** The argument of `s[...]`. */
  datatype Key =
    | IntKey(k: int)
    | SliceKey(start: Option<int>, stop: Option<int>, step: Option<int>)
    | OtherKey

  /** What `s[...]` returns: one note for an integer, a list for a slice. */
  datatype Item = One(note: Note) | Many(notes: seq<Note>)

  /** `s[key]`: integers and slices as above, anything else a `TypeError`. */
  function Index(s: Scale, key: Key): (r: Result<Item>)
    ensures key.OtherKey? ==> r == Err(TypeError)
    ensures key.IntKey? ==> (r.Ok? <==> GetItem(s, key.k).Ok?)
    ensures key.IntKey? && r.Ok? ==> r.value == One(GetItem(s, key.k).value)
    ensures key.SliceKey? ==> (r.Ok? <==> GetSlice(s, key.start, key.stop, key.step).Ok?)
    ensures key.SliceKey? && r.Ok? ==> r.value == Many(GetSlice(s, key.start, key.stop, key.step).value)
    ensures r.Err? && !key.OtherKey? ==> r.error == IndexError || r.error == AttributeError
  {
    match key
    case IntKey(k) =>
      var n :- GetItem(s, k);
      Ok(One(n))
    case SliceKey(start, stop, step) =>
      var ns :- GetSlice(s, start, stop, step);
      Ok(Many(ns))
    case OtherKey => Err(TypeError)
  }

  /** The letters in the order of the note table. */
  const Letters: seq<Tones.Tone> := [Tones.C, Tones.D, Tones.E, Tones.F, Tones.G, Tones.A, Tones.B]

  /** The accidentals `Scale.all` puts after each letter, in order. */
  const Marks: seq<string> := ["b", "", "#"]

  /** The texts of the 21 roots: each letter, followed by each mark. */
  function RootTexts(): (r: seq<string>)
    ensures |r| == 21
    ensures forall i :: 0 <= i < 21 ==> r[i] == [Tones.Name(Letters[i / 3])] + Marks[i % 3]
  {
    seq(21, i requires 0 <= i < 21 => [Tones.Name(Letters[i / 3])] + Marks[i % 3])
  }

  /** The scales of one root, one per name, in order; the first failure is
      the result. */
  function ScalesOn(root: Note, names: seq<string>): (r: Result<seq<Scale>>)
    ensures r.Ok? <==> forall j :: 0 <= j < |names| ==> Construct(NoteRoot(root), names[j]).Ok?
    ensures r.Ok? ==>
              && |r.value| == |names|
              && forall j :: 0 <= j < |names| ==> Construct(NoteRoot(root), names[j]) == Ok(r.value[j])
  {
    if |names| == 0 then Ok([])
    else
      var first :- Construct(NoteRoot(root), names[0]);
      var rest :- ScalesOn(root, names[1..]);
      PrependPointwise(names, name => Construct(NoteRoot(root), name), first, rest);
      Ok([first] + rest)
  }

  /** `block` is what the generator yields for the root text `text`: the
      text is a note, and `block` its scales, one per name. */
  predicate Block(text: string, names: seq<string>, block: seq<Scale>) {
    Notes.Parse(text).Ok? && ScalesOn(Notes.Parse(text).value, names) == Ok(block)
  }

  /** The generator of `Scale.all` over given root texts: parse a root,
      yield its scales, one per given recipe name, and go on with the next
      root. */
  function ScalesFrom(texts: seq<string>, names: seq<string>): (r: Result<seq<Scale>>)
    requires |names| == 11
    ensures r.Ok? ==>
              && |r.value| == |texts| * 11
              && forall i :: 0 <= i < |texts| ==> Block(texts[i], names, r.value[i * 11 .. (i + 1) * 11])
  {
    if |texts| == 0 then Ok([])
    else
      var root :- Notes.Parse(texts[0]);
      var first :- ScalesOn(root, names);
      var rest :- ScalesFrom(texts[1..], names);
      ScalesFromStep(texts, (text, block) => Block(text, names, block), first, rest);
      Ok(first + rest)
  }

  /** The generator runs to the end exactly when every text is a note on
      which every name builds a scale. */
  lemma {:induction false} ScalesFromSucceeds(texts: seq<string>, names: seq<string>)
    requires |names| == 11
    ensures ScalesFrom(texts, names).Ok? <==> forall i :: 0 <= i < |texts| ==>
              Notes.Parse(texts[i]).Ok? && ScalesOn(Notes.Parse(texts[i]).value, names).Ok?
  {
    if |texts| > 0 {
      assert forall i :: 1 <= i < |texts| ==> texts[i] == texts[1..][i - 1];
      ScalesFromSucceeds(texts[1..], names);
    }
  }

  /** Prepending one block of 11 to a sequence of blocks keeps every block
      matched with its text, one text later. */
  lemma ScalesFromStep<T>(texts: seq<string>, matches: (string, seq<T>) -> bool, first: seq<T>, rest: seq<T>)
    requires |texts| > 0 && matches(texts[0], first) && |first| == 11
    requires |rest| == (|texts| - 1) * 11
    requires forall i :: 0 <= i < |texts| - 1 ==> matches(texts[1..][i], rest[i * 11 .. (i + 1) * 11])
    ensures forall i :: 0 <= i < |texts| ==> matches(texts[i], (first + rest)[i * 11 .. (i + 1) * 11])
  {
    var r := first + rest;
    assert r[0 .. 11] == first;
    forall i | 1 <= i < |texts|
      ensures matches(texts[i], r[i * 11 .. (i + 1) * 11])
    {
      assert texts[i] == texts[1..][i - 1];
      SliceAfter(first, rest, i - 1);
    }
  }

  lemma SliceAfter<T>(first: seq<T>, rest: seq<T>, i: nat)
    requires |first| == 11 && (i + 1) * 11 <= |rest|
    ensures (first + rest)[(i + 1) * 11 .. (i + 2) * 11] == rest[i * 11 .. (i + 1) * 11]
  {
    var r := first + rest;
    forall k | (i + 1) * 11 <= k < (i + 2) * 11
      ensures r[k] == rest[k - 11]
    {
    }
  }

  /** `Scale.all()`: the 11 scales of each of the 21 roots Cb, C, C#, Db,
      ..., B#, at the default octave 4, in the order the generator yields
      them. */
  function All(): (r: Result<seq<Scale>>)
    ensures r.Ok?
    ensures r.Ok? ==>
              && |r.value| == 231
              && forall i :: 0 <= i < 21 ==>
                   ScalesOn(Note(Letters[i / 3], i % 3 - 1, 4), Names) == Ok(r.value[i * 11 .. (i + 1) * 11])
  {
    AllBuilds();
    ScalesFrom(RootTexts(), Names)
  }

  /** The generator runs to the end over the 21 root texts, and its blocks
      are the scales of the notes those texts spell. */
  lemma AllBuilds()
    ensures ScalesFrom(RootTexts(), Names).Ok?
    ensures var blocks := ScalesFrom(RootTexts(), Names).value;
            && |blocks| == 231
            && forall i :: 0 <= i < 21 ==>
                 ScalesOn(Note(Letters[i / 3], i % 3 - 1, 4), Names) == Ok(blocks[i * 11 .. (i + 1) * 11])
  {
    var texts := RootTexts();
    RootsParse(texts);
    RootsBuild(texts);
    AllSucceeds(texts, Names);
    BlocksOnRoots(texts, Names, ScalesFrom(texts, Names).value);
  }

  lemma AllSucceeds(texts: seq<string>, names: seq<string>)
    requires |texts| == 21 && |names| == 11
    requires forall i :: 0 <= i < 21 ==> Notes.Parse(texts[i]).Ok?
    requires forall i :: 0 <= i < 21 ==> ScalesOn(Notes.Parse(texts[i]).value, names).Ok?
    ensures ScalesFrom(texts, names).Ok?
  {
    ScalesFromSucceeds(texts, names);
  }

  lemma BlocksOnRoots(texts: seq<string>, names: seq<string>, blocks: seq<Scale>)
    requires |texts| == 21 && |blocks| == 21 * 11
    requires forall i :: 0 <= i < 21 ==> Notes.Parse(texts[i]) == Ok(Note(Letters[i / 3], i % 3 - 1, 4))
    requires forall i :: 0 <= i < |texts| ==> Block(texts[i], names, blocks[i * 11 .. (i + 1) * 11])
    ensures forall i :: 0 <= i < 21 ==>
              ScalesOn(Note(Letters[i / 3], i % 3 - 1, 4), names) == Ok(blocks[i * 11 .. (i + 1) * 11])
  {
    forall i | 0 <= i < 21
      ensures ScalesOn(Note(Letters[i / 3], i % 3 - 1, 4), names) == Ok(blocks[i * 11 .. (i + 1) * 11])
    {
      assert Block(texts[i], names, blocks[i * 11 .. (i + 1) * 11]);
    }
  }

  /** Each root text is the note it spells at octave 4. */
  lemma RootsParse(texts: seq<string>)
    requires texts == RootTexts()
    ensures forall i :: 0 <= i < 21 ==> Notes.Parse(texts[i]) == Ok(Note(Letters[i / 3], i % 3 - 1, 4))
  {
    forall i | 0 <= i < 21
      ensures Notes.Parse(texts[i]) == Ok(Note(Letters[i / 3], i % 3 - 1, 4))
    {
      RootParses(Letters[i / 3], i % 3);
    }
  }

  /** Every name builds a scale on every root of the enumeration. */
  lemma RootsBuild(texts: seq<string>)
    requires |texts| == 21
    requires forall i :: 0 <= i < 21 ==> Notes.Parse(texts[i]) == Ok(Note(Letters[i / 3], i % 3 - 1, 4))
    ensures forall i :: 0 <= i < 21 ==> ScalesOn(Notes.Parse(texts[i]).value, Names).Ok?
  {
    forall i, j | 0 <= i < 21 && 0 <= j < |Names|
      ensures Construct(NoteRoot(Notes.Parse(texts[i]).value), Names[j]).Ok?
    {
      NamesAreKeys(Names[j]);
      ScaleExists(Notes.Parse(texts[i]).value, Names[j]);
    }
  }

  lemma RootParses(t: Tones.Tone, m: int)
    requires 0 <= m < 3
    ensures Notes.Parse([Tones.Name(t)] + Marks[m]) == Ok(Note(t, m - 1, 4))
  {
    assert Marks[m] == AccidentalText(m - 1);
    ParseSpelled(t, m - 1, []);
    assert [Tones.Name(t)] + Marks[m] == [Tones.Name(t)] + AccidentalText(m - 1) + [];
  }

  /** The interval names the recipes use. */
  const StepNames: set<string> :=
    {"P1", "m2", "M2", "m3", "M3", "P4", "A4", "d5", "P5", "m6", "M6", "m7", "M7"}

  lemma RecipesUseSteps(name: string)
    requires Recipe(name).Some?
    ensures forall k :: 0 <= k < |Recipe(name).value| ==> Recipe(name).value[k] in StepNames
  {
  }

  /** A simple interval below the octave in one of the qualities the
      recipes use: major, minor, perfect, the augmented fourth and the
      diminished fifth. */
  predicate IsStep(i: Interval) {
    && 1 <= i.number <= 7
    && Valid(i)
    && (|| i.quality == 'M' || i.quality == 'm' || i.quality == 'P'
        || (i.quality == 'A' && i.number == 4) || (i.quality == 'd' && i.number == 5))
  }

  lemma StepNamesParse(t: string)
    requires t in StepNames
    ensures Intervals.Parse(t).Ok? && IsStep(Intervals.Parse(t).value)
  {
    assert |t| == 2 && '1' <= t[1] <= '7';
    assert t == [t[0], t[1]];
    ParseShort(t[0], t[1]);
  }

  /** From any natural letter, a step spans its letters with at most one
      semitone to spare either way. */
  lemma StepDeviation(t: Tones.Tone, i: Interval)
    requires IsStep(i)
    ensures i.number != 0 && 0 <= i.semitones <= 12
    ensures -1 <= Deviation(t, i) <= 1
  {
    SpanNearMajor(t, i.number);
    var excess := Span(t, i.number) - MajorSemitones(i.number);
    assert i.semitones - Span(t, i.number) ==
             QualitySemitones(i.quality, i.number) - MajorSemitones(i.number) - excess;
  }

  /** Steps parse, and add to any root with at most a double accidental
      that lies between octaves 1 and 8. */
  lemma StepsAdd(root: Note, recipe: seq<string>)
    requires -2 <= root.accidental <= 2 && 1 <= root.octave <= 8
    requires forall k :: 0 <= k < |recipe| ==> recipe[k] in StepNames
    ensures ParseAll(recipe).Ok? && Degrees(root, ParseAll(recipe).value).Ok?
  {
    forall k | 0 <= k < |recipe|
      ensures Intervals.Parse(recipe[k]).Ok? && IsStep(Intervals.Parse(recipe[k]).value)
    {
      StepNamesParse(recipe[k]);
    }
    var intervals := ParseAll(recipe).value;
    forall k | 0 <= k < |intervals|
      ensures AddInterval(root, intervals[k]).Ok?
    {
      StepDeviation(root.tone, intervals[k]);
      AddWithin(root, intervals[k]);
    }
  }

  /** Every recipe builds a scale on every root with at most a double
      accidental between octaves 1 and 8. */
  lemma ScaleExists(root: Note, name: string)
    requires -2 <= root.accidental <= 2 && 1 <= root.octave <= 8
    requires Recipe(name).Some?
    ensures Construct(NoteRoot(root), name).Ok?
  {
    RecipesUseSteps(name);
    StepsAdd(root, Recipe(name).value);
  }

  /** A scale whose recipe parses to `intervals`, and whose every degree is
      the sum `sums[k]` of the root and `intervals[k]`, is built with those
      sums, moved to octave 0, as its notes. */
  lemma ScaleOf(root: Note, name: string, intervals: seq<Interval>, sums: seq<Note>, notes: seq<Note>)
    requires Recipe(name).Some? && |intervals| == |sums| == |notes| == |Recipe(name).value|
    requires forall k :: 0 <= k < |intervals| ==> Intervals.Parse(Recipe(name).value[k]) == Ok(intervals[k])
    requires forall k :: 0 <= k < |intervals| ==> intervals[k].number != 0 && IsSum(root, intervals[k], sums[k])
    requires forall k :: 0 <= k < |notes| ==> notes[k] == Note(sums[k].tone, sums[k].accidental, 0)
    ensures Construct(NoteRoot(root), name) == Ok(Scale(root, name, intervals, notes))
  {
    var recipe := Recipe(name).value;
    assert ParseAll(recipe).value == intervals;
    forall k | 0 <= k < |intervals|
      ensures AddInterval(root, intervals[k]) == Ok(sums[k])
    {
      AddComplete(root, intervals[k], sums[k]);
    }
    assert Degrees(root, intervals).value == notes;
  }

  /** `Scale(Note('C'), 'major')` holds the notes C, D, E, F, G, A, B. */
  lemma CMajor()
    ensures Construct(NoteRoot(Note(Tones.C, 0, 4)), "major") ==
              Ok(Scale(Note(Tones.C, 0, 4), "major", MajorIntervals,
                       [Note(Tones.C, 0, 0), Note(Tones.D, 0, 0), Note(Tones.E, 0, 0), Note(Tones.F, 0, 0),
                        Note(Tones.G, 0, 0), Note(Tones.A, 0, 0), Note(Tones.B, 0, 0)]))
  {
    var c4 := Note(Tones.C, 0, 4);
    var sums := [Note(Tones.C, 0, 4), Note(Tones.D, 0, 4), Note(Tones.E, 0, 4), Note(Tones.F, 0, 4),
                 Note(Tones.G, 0, 4), Note(Tones.A, 0, 4), Note(Tones.B, 0, 4)];
    var notes := [Note(Tones.C, 0, 0), Note(Tones.D, 0, 0), Note(Tones.E, 0, 0), Note(Tones.F, 0, 0),
                  Note(Tones.G, 0, 0), Note(Tones.A, 0, 0), Note(Tones.B, 0, 0)];
    StepsOf("major", MajorIntervals);
    MajorSums(c4, sums);
    assert forall k :: 0 <= k < 7 ==> notes[k] == Note(sums[k].tone, sums[k].accidental, 0);
    ScaleOf(c4, "major", MajorIntervals, sums, notes);
  }

  /** The major scale on C4 is the seven natural notes of octave 4. */
  lemma MajorSums(c4: Note, sums: seq<Note>)
    requires c4 == Note(Tones.C, 0, 4)
    requires sums == [Note(Tones.C, 0, 4), Note(Tones.D, 0, 4), Note(Tones.E, 0, 4), Note(Tones.F, 0, 4),
                      Note(Tones.G, 0, 4), Note(Tones.A, 0, 4), Note(Tones.B, 0, 4)]
    ensures forall k :: 0 <= k < 7 ==> MajorIntervals[k].number != 0 && IsSum(c4, MajorIntervals[k], sums[k])
  {
    forall k | 0 <= k < 7
      ensures MajorIntervals[k].number != 0 && IsSum(c4, MajorIntervals[k], sums[k])
    {
      Tones.AddUp(Tones.C, k + 1);
      SumInOctave(c4, MajorIntervals[k], sums[k]);
    }
  }

  /** A sum that stays inside one octave of pitch classes: the pitch class
      and the MIDI pitch follow from the spelling alone. */
  lemma SumInOctave(n: Note, i: Interval, m: Note)
    requires i.number != 0 && Tones.Add(n.tone, i.number) == Ok(m.tone)
    requires !AboveB(m.tone, m.accidental)
    requires 0 <= Natural(n.tone) + n.accidental < 12 && 0 <= Natural(m.tone) + m.accidental < 12
    requires Natural(m.tone) + m.accidental + 12 * m.octave ==
             Natural(n.tone) + n.accidental + 12 * n.octave + i.semitones
    ensures IsSum(n, i, m)
  {
    var a := Natural(n.tone) + n.accidental;
    var b := Natural(m.tone) + m.accidental;
    assert NoteId(n) == a && NoteId(m) == b;
    assert a + i.semitones == b + 12 * (m.octave - n.octave);
    ShiftMod(b, m.octave - n.octave);
  }

  lemma ShiftMod(b: int, q: int)
    requires 0 <= b < 12
    ensures (b + 12 * q) % 12 == b
  {
  }

  /** The intervals of the major and the harmonic minor scale. */
  const MajorIntervals: seq<Interval> :=
    [Interval('P', 1, 0), Interval('M', 2, 2), Interval('M', 3, 4), Interval('P', 4, 5),
     Interval('P', 5, 7), Interval('M', 6, 9), Interval('M', 7, 11)]
  const HarmonicMinorIntervals: seq<Interval> :=
    [Interval('P', 1, 0), Interval('M', 2, 2), Interval('m', 3, 3), Interval('P', 4, 5),
     Interval('P', 5, 7), Interval('m', 6, 8), Interval('M', 7, 11)]

  lemma StepsOf(name: string, intervals: seq<Interval>)
    requires || (name == "major" && intervals == MajorIntervals)
             || (name == "harmonic_minor" && intervals == HarmonicMinorIntervals)
    ensures Recipe(name).Some? && |Recipe(name).value| == |intervals| == 7
    ensures forall k :: 0 <= k < 7 ==> Intervals.Parse(Recipe(name).value[k]) == Ok(intervals[k])
  {
    var recipe := Recipe(name).value;
    forall k | 0 <= k < 7
      ensures Intervals.Parse(recipe[k]) == Ok(intervals[k])
    {
      ParseShort(recipe[k][0], recipe[k][1]);
      assert recipe[k] == [recipe[k][0], recipe[k][1]];
    }
  }

  /** `Scale('C', 'harmonic_minor')` holds C, D, Eb, F, G, Ab, B. */
  lemma CHarmonicMinor()
    ensures Construct(NoteRoot(Note(Tones.C, 0, 4)), "harmonic_minor") ==
              Ok(Scale(Note(Tones.C, 0, 4), "harmonic_minor", HarmonicMinorIntervals,
                       [Note(Tones.C, 0, 0), Note(Tones.D, 0, 0), Note(Tones.E, -1, 0), Note(Tones.F, 0, 0),
                        Note(Tones.G, 0, 0), Note(Tones.A, -1, 0), Note(Tones.B, 0, 0)]))
  {
    var c4 := Note(Tones.C, 0, 4);
    var sums := [Note(Tones.C, 0, 4), Note(Tones.D, 0, 4), Note(Tones.E, -1, 4), Note(Tones.F, 0, 4),
                 Note(Tones.G, 0, 4), Note(Tones.A, -1, 4), Note(Tones.B, 0, 4)];
    var notes := [Note(Tones.C, 0, 0), Note(Tones.D, 0, 0), Note(Tones.E, -1, 0), Note(Tones.F, 0, 0),
                  Note(Tones.G, 0, 0), Note(Tones.A, -1, 0), Note(Tones.B, 0, 0)];
    StepsOf("harmonic_minor", HarmonicMinorIntervals);
    HarmonicMinorSums(c4, sums);
    assert forall k :: 0 <= k < 7 ==> notes[k] == Note(sums[k].tone, sums[k].accidental, 0);
    ScaleOf(c4, "harmonic_minor", HarmonicMinorIntervals, sums, notes);
  }

  lemma HarmonicMinorSums(c4: Note, sums: seq<Note>)
    requires c4 == Note(Tones.C, 0, 4)
    requires sums == [Note(Tones.C, 0, 4), Note(Tones.D, 0, 4), Note(Tones.E, -1, 4), Note(Tones.F, 0, 4),
                      Note(Tones.G, 0, 4), Note(Tones.A, -1, 4), Note(Tones.B, 0, 4)]
    ensures forall k :: 0 <= k < 7 ==>
              HarmonicMinorIntervals[k].number != 0 && IsSum(c4, HarmonicMinorIntervals[k], sums[k])
  {
    forall k | 0 <= k < 7
      ensures HarmonicMinorIntervals[k].number != 0 && IsSum(c4, HarmonicMinorIntervals[k], sums[k])
    {
      Tones.AddUp(Tones.C, k + 1);
      SumInOctave(c4, HarmonicMinorIntervals[k], sums[k]);
    }
  }

  /** `Scale('C', 'harmonic_minor')[10:15]` is F5, G5, Ab5, B5, C6: the
      fourth to seventh degrees one octave up, then the root two octaves
      up. */
  lemma HarmonicMinorSlice()
    ensures Construct(NoteRoot(Note(Tones.C, 0, 4)), "harmonic_minor").Ok?
    ensures Construct(TextRoot("C"), "harmonic_minor") == Construct(NoteRoot(Note(Tones.C, 0, 4)), "harmonic_minor")
    ensures var s := Construct(NoteRoot(Note(Tones.C, 0, 4)), "harmonic_minor").value;
            && GetSlice(s, Some(10), Some(15), None) ==
                 Ok([Note(Tones.F, 0, 5), Note(Tones.G, 0, 5), Note(Tones.A, -1, 5), Note(Tones.B, 0, 5), Note(Tones.C, 0, 6)])
            && GetSlice(s, Some(3), Some(0), None) == Err(AttributeError)
            && GetSlice(s, Some(3), Some(-2), None) == Ok([])
  {
    CHarmonicMinor();
    RootParses(Tones.C, 1);
    assert [Tones.Name(Tones.C)] + Marks[1] == "C";
    var s := Construct(NoteRoot(Note(Tones.C, 0, 4)), "harmonic_minor").value;
    HarmonicMinorTenToFifteen(s);
    SliceByOne(s, 3, -2);
  }

  lemma HarmonicMinorTenToFifteen(s: Scale)
    requires s == Scale(Note(Tones.C, 0, 4), "harmonic_minor", HarmonicMinorIntervals,
                        [Note(Tones.C, 0, 0), Note(Tones.D, 0, 0), Note(Tones.E, -1, 0), Note(Tones.F, 0, 0),
                         Note(Tones.G, 0, 0), Note(Tones.A, -1, 0), Note(Tones.B, 0, 0)])
    ensures GetSlice(s, Some(10), Some(15), None) ==
              Ok([Note(Tones.F, 0, 5), Note(Tones.G, 0, 5), Note(Tones.A, -1, 5), Note(Tones.B, 0, 5), Note(Tones.C, 0, 6)])
  {
    var items := [Note(Tones.F, 0, 5), Note(Tones.G, 0, 5), Note(Tones.A, -1, 5), Note(Tones.B, 0, 5), Note(Tones.C, 0, 6)];
    forall k | 10 <= k < 15
      ensures GetItem(s, k) == Ok(items[k - 10])
    {
      HarmonicMinorItem(s, k - 10);
    }
    SliceOf(s, 10, 15, items);
  }

  /** A slice by one whose every index holds the matching item is the list
      of those items. */
  lemma SliceOf(s: Scale, a: int, b: int, items: seq<Note>)
    requires a < b && b != 0 && |items| == b - a
    requires forall k :: a <= k < b ==> GetItem(s, k) == Ok(items[k - a])
    ensures GetSlice(s, Some(a), Some(b), None) == Ok(items)
  {
    SliceByOne(s, a, b);
    var r := GetSlice(s, Some(a), Some(b), None);
    assert r.Ok?;
    assert r.value == items;
  }

  lemma HarmonicMinorItem(s: Scale, j: int)
    requires s == Scale(Note(Tones.C, 0, 4), "harmonic_minor", HarmonicMinorIntervals,
                        [Note(Tones.C, 0, 0), Note(Tones.D, 0, 0), Note(Tones.E, -1, 0), Note(Tones.F, 0, 0),
                         Note(Tones.G, 0, 0), Note(Tones.A, -1, 0), Note(Tones.B, 0, 0)])
    requires 0 <= j < 5
    ensures GetItem(s, 10 + j) ==
              Ok([Note(Tones.F, 0, 5), Note(Tones.G, 0, 5), Note(Tones.A, -1, 5), Note(Tones.B, 0, 5), Note(Tones.C, 0, 6)][j])
  {
    var k := 10 + j;
    var items := [Note(Tones.F, 0, 5), Note(Tones.G, 0, 5), Note(Tones.A, -1, 5), Note(Tones.B, 0, 5), Note(Tones.C, 0, 6)];
    var q := if j < 4 then 1 else 2;
    var d := if j < 4 then j + 3 else 0;
    assert k / 7 == q && k % 7 == d;
    var root := Moved(s, q);
    var i := HarmonicMinorIntervals[d];
    Tones.AddUp(Tones.C, d + 1);
    SumInOctave(root, i, items[j]);
    AddComplete(root, i, items[j]);
  }
}
