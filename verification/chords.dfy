/** Chords: a chord type from a recipe table (or an alias of one) and the
    notes obtained by adding each interval of the recipe to a root.

    A chord can also be named by one text such as `Cmaj7`: the longest
    chord type the text ends with is taken as the type, and what precedes
    it is parsed as the root note.
 */
module Chords {
  import opened Results
  import Intervals
  import opened Notes

  /** The `recipes` table: each chord type and its intervals above the root. */
  const Recipes: map<string, seq<string>> := map[
    "maj"    := ["P1", "M3", "P5"],
    "min"    := ["P1", "m3", "P5"],
    "aug"    := ["P1", "M3", "A5"],
    "dim"    := ["P1", "m3", "d5"],
    "dom7"   := ["P1", "M3", "P5", "m7"],
    "min7"   := ["P1", "m3", "P5", "m7"],
    "maj7"   := ["P1", "M3", "P5", "M7"],
    "aug7"   := ["P1", "M3", "A5", "m7"],
    "dim7"   := ["P1", "m3", "d5", "d7"],
    "m7dim5" := ["P1", "m3", "d5", "m7"],
    "sus2"   := ["P1", "P5", "P8", "M2"],
    "sus4"   := ["P1", "P5", "P8", "P4"],
    "open5"  := ["P1", "P5", "P8"]
  ]

  /** The `aliases` table: other names of some chord types. The degree sign
      and the slashed o are written as escapes. */
  const Aliases: map<string, string> := map[
    "M"          := "maj",
    "m"          := "min",
    "+"          := "aug",
    "\U{00B0}"   := "dim",
    "7"          := "dom7",
    "m7"         := "min7",
    "M7"         := "maj7",
    "+7"         := "aug7",
    "7aug5"      := "aug7",
    "7#5"        := "aug7",
    "\U{00B0}7"  := "m7dim5",
    "\U{00F8}7"  := "m7dim5",
    "m7b5"       := "m7dim5"
  ]

  /** The keys of the two tables in their order of definition. */
  const RecipeTypes: seq<string> :=
    ["maj", "min", "aug", "dim", "dom7", "min7", "maj7", "aug7", "dim7",
     "m7dim5", "sus2", "sus4", "open5"]

  const AliasTypes: seq<string> :=
    ["M", "m", "+", "\U{00B0}", "7", "m7", "M7", "+7", "7aug5", "7#5",
     "\U{00B0}7", "\U{00F8}7", "m7b5"]

  /** `valid_types`: recipe keys, then alias keys. */
  const ValidTypes: seq<string> := RecipeTypes + AliasTypes

  /** The types of `ts` of length exactly `n`, in their order in `ts`. */
  function OfLength(ts: seq<string>, n: nat): (r: seq<string>)
    ensures forall k :: 0 <= k < |r| ==> |r[k]| == n && r[k] in ts
  {
    if |ts| == 0 then []
    else (if |ts[0]| == n then [ts[0]] else []) + OfLength(ts[1..], n)
  }

  /** The types of `ts` no longer than `n`, in their order in `ts`. */
  function AtMost(ts: seq<string>, n: nat): seq<string> {
    if |ts| == 0 then []
    else (if |ts[0]| <= n then [ts[0]] else []) + AtMost(ts[1..], n)
  }

  /** `sorted(ts, key=lambda x: -len(x))` restricted to types no longer
      than `n`: Python's sort is stable, so it lists the types of length
      `n` in their original order, then those of length `n - 1`, and so on. */
  function SortByLength(ts: seq<string>, n: nat): seq<string> {
    if n == 0 then OfLength(ts, 0) else OfLength(ts, n) + SortByLength(ts, n - 1)
  }

  /** The length of the longest type in `ts`. */
  function MaxLength(ts: seq<string>): (n: nat)
    ensures forall k :: 0 <= k < |ts| ==> |ts[k]| <= n
  {
    if |ts| == 0 then 0
    else
      var rest := MaxLength(ts[1..]);
      assert forall k :: 1 <= k < |ts| ==> ts[k] == ts[1..][k - 1];
      if |ts[0]| > rest then |ts[0]| else rest
  }

  /** `sorted(ts, key=lambda x: -len(x))`. */
  function StableSort(ts: seq<string>): seq<string> {
    SortByLength(ts, MaxLength(ts))
  }

  /** The order in which the constructor tries the valid types: `m7dim5`;
      `open5`, `7aug5`; the eight types of length 4; the five of length 3;
      the five of length 2; the five of length 1. */
  const ByLength: seq<string> := StableSort(ValidTypes)

  /** The ordered key lists list exactly the keys of the tables. */
  lemma TypesAreKeys()
    ensures forall t :: t in RecipeTypes <==> t in Recipes
    ensures forall t :: t in AliasTypes <==> t in Aliases
    ensures forall t :: t in ValidTypes <==> t in Recipes || t in Aliases
  {
  }

  /** Every alias names a chord type of the recipe table, and no name is
      both an alias and a recipe. */
  lemma AliasesResolve()
    ensures forall t :: t in Aliases ==> Aliases[t] in Recipes
    ensures forall t :: t in Aliases ==> t !in Recipes
  {
    AliasTargets();
    AliasesAreNotRecipes();
  }

  lemma AliasTargets()
    ensures forall t :: t in Aliases ==> Aliases[t] in Recipes
  {
    TypesAreKeys();
    forall k | 0 <= k < |AliasTypes|
      ensures Aliases[AliasTypes[k]] in Recipes
    {
    }
  }

  /** Aliases are told from recipe types by length and first character:
      every recipe type has at least three characters and starts with a
      letter, and every alias but `m7b5` is shorter or starts with `7`. */
  lemma AliasesAreNotRecipes()
    ensures forall t :: t in Aliases ==> t !in Recipes
  {
    TypesAreKeys();
    forall k | 0 <= k < |RecipeTypes|
      ensures |RecipeTypes[k]| >= 3 && RecipeTypes[k][0] != '7' && RecipeTypes[k] != "m7b5"
    {
    }
    forall k | 0 <= k < |AliasTypes|
      ensures |AliasTypes[k]| <= 2 || AliasTypes[k][0] == '7' || AliasTypes[k] == "m7b5"
    {
    }
  }

  lemma {:induction false} SortedAtMost(ts: seq<string>, n: nat)
    ensures forall k :: 0 <= k < |SortByLength(ts, n)| ==> |SortByLength(ts, n)[k]| <= n
    ensures forall i, j :: 0 <= i < j < |SortByLength(ts, n)| ==>
              |SortByLength(ts, n)[i]| >= |SortByLength(ts, n)[j]|
  {
    if n > 0 {
      SortedAtMost(ts, n - 1);
      var head, tail := OfLength(ts, n), SortByLength(ts, n - 1);
      assert SortByLength(ts, n) == head + tail;
      forall k | 0 <= k < |head + tail|
        ensures |(head + tail)[k]| <= n
      {
        if k >= |head| {
          assert (head + tail)[k] == tail[k - |head|];
        }
      }
      forall i, j | 0 <= i < j < |head + tail|
        ensures |(head + tail)[i]| >= |(head + tail)[j]|
      {
        if j >= |head| {
          assert (head + tail)[j] == tail[j - |head|];
          if i >= |head| {
            assert (head + tail)[i] == tail[i - |head|];
          }
        }
      }
    }
  }

  lemma {:induction false} OfLengthAppend(a: seq<string>, b: seq<string>, n: nat)
    ensures OfLength(a + b, n) == OfLength(a, n) + OfLength(b, n)
  {
    if |a| == 0 {
      assert a + b == b;
    } else {
      assert (a + b)[0] == a[0] && (a + b)[1..] == a[1..] + b;
      OfLengthAppend(a[1..], b, n);
    }
  }

  /** Selecting one length from a selection of one length. */
  lemma {:induction false} OfLengthTwice(ts: seq<string>, n: nat, m: nat)
    ensures OfLength(OfLength(ts, n), m) == if m == n then OfLength(ts, n) else []
  {
    if |ts| > 0 {
      var first := if |ts[0]| == n then [ts[0]] else [];
      OfLengthTwice(ts[1..], n, m);
      OfLengthAppend(first, OfLength(ts[1..], n), m);
    }
  }

  /** The sort is stable: the types of each length come out in the order
      they went in, and no type longer than `n` comes out. */
  lemma {:induction false} SortIsStable(ts: seq<string>, n: nat, m: nat)
    ensures OfLength(SortByLength(ts, n), m) == if m <= n then OfLength(ts, m) else []
  {
    if n == 0 {
      OfLengthTwice(ts, 0, m);
    } else {
      OfLengthAppend(OfLength(ts, n), SortByLength(ts, n - 1), m);
      OfLengthTwice(ts, n, m);
      SortIsStable(ts, n - 1, m);
    }
  }

  lemma {:induction false} AtMostSplits(ts: seq<string>, n: nat)
    requires n > 0
    ensures multiset(AtMost(ts, n)) == multiset(OfLength(ts, n)) + multiset(AtMost(ts, n - 1))
  {
    if |ts| > 0 {
      AtMostSplits(ts[1..], n);
    }
  }

  /** The sort is a permutation of the types no longer than `n`. */
  lemma {:induction false} SortPermutes(ts: seq<string>, n: nat)
    ensures multiset(SortByLength(ts, n)) == multiset(AtMost(ts, n))
  {
    if n == 0 {
      ZeroIsOfLength(ts);
    } else {
      var head, tail := OfLength(ts, n), SortByLength(ts, n - 1);
      var rest := AtMost(ts, n - 1);
      SortPermutes(ts, n - 1);
      assert multiset(tail) == multiset(rest);
      AtMostSplits(ts, n);
      assert multiset(AtMost(ts, n)) == multiset(head) + multiset(rest);
      assert SortByLength(ts, n) == head + tail;
    }
  }

  lemma {:induction false} ZeroIsOfLength(ts: seq<string>)
    ensures AtMost(ts, 0) == OfLength(ts, 0)
  {
    if |ts| > 0 {
      ZeroIsOfLength(ts[1..]);
    }
  }

  lemma {:induction false} AtMostLongest(ts: seq<string>, n: nat)
    requires forall k :: 0 <= k < |ts| ==> |ts[k]| <= n
    ensures AtMost(ts, n) == ts
  {
    if |ts| > 0 {
      AtMostLongest(ts[1..], n);
    }
  }

  /** The sort holds every type once, is ordered by non-increasing length,
      and keeps the original order among types of one length. */
  lemma StableSortSpec(ts: seq<string>)
    ensures multiset(StableSort(ts)) == multiset(ts)
    ensures forall i, j :: 0 <= i < j < |StableSort(ts)| ==> |StableSort(ts)[i]| >= |StableSort(ts)[j]|
    ensures forall m: nat :: OfLength(StableSort(ts), m) == OfLength(ts, m)
  {
    var n := MaxLength(ts);
    AtMostLongest(ts, n);
    SortPermutes(ts, n);
    SortedAtMost(ts, n);
    forall m: nat
      ensures OfLength(StableSort(ts), m) == OfLength(ts, m)
    {
      SortIsStable(ts, n, m);
      if m > n {
        NoneLonger(ts, m);
      }
    }
  }

  lemma {:induction false} NoneLonger(ts: seq<string>, m: nat)
    requires forall k :: 0 <= k < |ts| ==> |ts[k]| < m
    ensures OfLength(ts, m) == []
  {
    if |ts| > 0 {
      NoneLonger(ts[1..], m);
    }
  }

  /** `s.endswith(t)`. */
  predicate IsSuffix(t: string, s: string) {
    |t| <= |s| && s[|s| - |t|..] == t
  }

  /** The `for ... break` loop: the first type in `types` that `s` ends with. */
  function FirstSuffix(s: string, types: seq<string>): (r: Option<string>)
    ensures r.None? <==> forall k :: 0 <= k < |types| ==> !IsSuffix(types[k], s)
    ensures r.Some? ==> r.value in types && IsSuffix(r.value, s)
  {
    if |types| == 0 then None
    else if IsSuffix(types[0], s) then Some(types[0])
    else FirstSuffix(s, types[1..])
  }

  /** Two suffixes of one text with the same length are the same text. */
  lemma SuffixesOfOneLength(t: string, u: string, s: string)
    requires IsSuffix(t, s) && IsSuffix(u, s) && |t| == |u|
    ensures t == u
  {
  }

  /** On types ordered by non-increasing length, the first match is a
      longest match: every type `s` ends with is shorter, or is the match. */
  lemma {:induction false} FirstSuffixIsLongest(s: string, types: seq<string>)
    requires forall i, j :: 0 <= i < j < |types| ==> |types[i]| >= |types[j]|
    ensures FirstSuffix(s, types).Some? ==>
              forall u :: u in types && IsSuffix(u, s) ==>
                |u| < |FirstSuffix(s, types).value| || u == FirstSuffix(s, types).value
  {
    if |types| > 0 {
      if IsSuffix(types[0], s) {
        forall u | u in types && IsSuffix(u, s)
          ensures |u| < |types[0]| || u == types[0]
        {
          if |u| == |types[0]| {
            SuffixesOfOneLength(u, types[0], s);
          }
        }
      } else {
        FirstSuffixIsLongest(s, types[1..]);
        assert forall u :: u in types && u != types[0] ==> u in types[1..];
      }
    }
  }

  /** The chord-type search of the constructor: `None` exactly when the
      text ends with no valid type, and otherwise the longest valid type it
      ends with, which is unique. */
  lemma LongestType(s: string)
    ensures FirstSuffix(s, ByLength).None? <==>
              forall t :: t in ValidTypes ==> !IsSuffix(t, s)
    ensures FirstSuffix(s, ByLength).Some? ==>
              var t := FirstSuffix(s, ByLength).value;
              && t in ValidTypes && IsSuffix(t, s)
              && forall u :: u in ValidTypes && IsSuffix(u, s) ==> |u| < |t| || u == t
  {
    StableSortSpec(ValidTypes);
    FirstSuffixIsLongest(s, ByLength);
    assert forall t :: t in ValidTypes <==> t in multiset(ValidTypes);
    assert forall t :: t in ByLength <==> t in multiset(ByLength);
  }

  /** Alias resolution: an alias becomes its recipe key, and a name that is
      neither an alias nor a recipe key is a plain `Exception`. */
  function Resolve(t: string): (r: Result<string>)
    ensures r.Ok? <==> t in Recipes || t in Aliases
    ensures r.Ok? ==> r.value in Recipes
    ensures t in Recipes ==> r == Ok(t)
    ensures t in Aliases ==> r == Ok(Aliases[t])
    ensures r.Err? ==> r.error == Exception
  {
    AliasesResolve();
    var canonical := if t in Aliases then Aliases[t] else t;
    if canonical in Recipes then Ok(canonical) else Err(Exception)
  }

  /** `[root + Interval(i) for i in recipe]`: each interval is parsed and
      added to the root in turn, and the first failure is the result. */
  function Stack(root: Note, recipe: seq<string>): (r: Result<seq<Note>>)
    ensures r.Ok? <==>
              forall k :: 0 <= k < |recipe| ==>
                Intervals.Parse(recipe[k]).Ok? && AddInterval(root, Intervals.Parse(recipe[k]).value).Ok?
    ensures r.Ok? ==>
              && |r.value| == |recipe|
              && forall k :: 0 <= k < |recipe| ==>
                   Ok(r.value[k]) == AddInterval(root, Intervals.Parse(recipe[k]).value)
  {
    if |recipe| == 0 then Ok([])
    else
      var i :- Intervals.Parse(recipe[0]);
      var m :- AddInterval(root, i);
      var rest :- Stack(root, recipe[1..]);
      assert forall k :: 1 <= k < |recipe| ==> recipe[k] == recipe[1..][k - 1];
      Ok([m] + rest)
  }

  /** Stacking intervals that all parse and are not the zero interval can
      only fail with a plain `Exception`. */
  lemma {:induction false} StackError(root: Note, recipe: seq<string>)
    requires forall k :: 0 <= k < |recipe| ==>
               Intervals.Parse(recipe[k]).Ok? && Intervals.Parse(recipe[k]).value.number != 0
    ensures Stack(root, recipe).Err? ==> Stack(root, recipe).error == Exception
  {
    if |recipe| > 0 {
      assert forall k :: 1 <= k < |recipe| ==> recipe[k] == recipe[1..][k - 1];
      StackError(root, recipe[1..]);
    }
  }

  datatype Chord = Chord(chordType: string, notes: seq<Note>)

  /** The constructor once the root is a note: resolve the type, then stack
      its recipe on the root. */
  function FromNote(root: Note, t: string): (r: Result<Chord>)
    ensures r.Ok? ==>
              && r.value.chordType in Recipes
              && (t in Recipes ==> r.value.chordType == t)
              && (t in Aliases ==> r.value.chordType == Aliases[t])
              && Stack(root, Recipes[r.value.chordType]) == Ok(r.value.notes)
    ensures t !in Recipes && t !in Aliases ==> r == Err(Exception)
    ensures t in Recipes || t in Aliases ==> (r.Ok? <==> Stack(root, Recipes[Resolve(t).value]).Ok?)
    ensures r.Err? ==> r.error == Exception
  {
    var c :- Resolve(t);
    RecipeIntervalsParse(c);
    StackError(root, Recipes[c]);
    var notes :- Stack(root, Recipes[c]);
    Ok(Chord(c, notes))
  }

  /** `Chord(root, chord_type)`. A text root decides the type by its
      longest valid suffix (a text with none is a `ValueError`) and the rest
      is parsed as a note (a plain `Exception` when it is not one); the
      `chord_type` argument is then ignored. A root of any other type
      passes the type check and fails at the first `root + Interval`. */
  function Make(root: Root, chordType: string): (r: Result<Chord>)
    ensures root.TextRoot? && FirstSuffix(root.text, ByLength).None? ==> r == Err(ValueError)
    ensures root.NoteRoot? ==> r == FromNote(root.note, chordType)
    ensures root.OtherRoot? ==> r == Err(if chordType in Recipes || chordType in Aliases then TypeError else Exception)
  {
    match root
    case TextRoot(text) =>
      (match FirstSuffix(text, ByLength)
       case None => Err(ValueError)
       case Some(t) =>
         var note :- Notes.Parse(text[..|text| - |t|]);
         FromNote(note, t))
    case NoteRoot(note) => FromNote(note, chordType)
    case OtherRoot =>
      var _ :- Resolve(chordType);
      Err(TypeError)
  }

  /** A chord named by one text is the chord of its longest valid suffix on
      the note spelled by the rest of the text. */
  lemma MakeFromText(text: string, chordType: string)
    requires FirstSuffix(text, ByLength).Some?
    ensures var t := FirstSuffix(text, ByLength).value;
            var root := Notes.Parse(text[..|text| - |t|]);
            && (root.Err? ==> Make(TextRoot(text), chordType) == Err(Exception))
            && (root.Ok? ==> Make(TextRoot(text), chordType) == Make(NoteRoot(root.value), t))
  {
  }

  /** The notes of a chord are the root plus each interval of the recipe of
      its type, as many as the recipe has. */
  lemma ChordNotes(root: Note, t: string)
    requires FromNote(root, t).Ok?
    ensures var c := FromNote(root, t).value;
            && |c.notes| == |Recipes[c.chordType]|
            && forall k :: 0 <= k < |c.notes| ==>
                 Ok(c.notes[k]) == AddInterval(root, Intervals.Parse(Recipes[c.chordType][k]).value)
  {
  }

  /** `==` on chords: the same number of notes and pairwise equal notes;
      the chord types are not compared. */
  function Same(a: Chord, b: Chord): bool {
    |a.notes| == |b.notes| && forall k :: 0 <= k < |a.notes| ==> Equal(a.notes[k], b.notes[k])
  }

  /** Two chords are equal exactly when their note lists are. */
  lemma SameIsNotes(a: Chord, b: Chord)
    ensures Same(a, b) <==> a.notes == b.notes
  {
    if Same(a, b) {
      forall k | 0 <= k < |a.notes|
        ensures a.notes[k] == b.notes[k]
      {
        EqualIsIdentity(a.notes[k], b.notes[k]);
      }
    }
    if a.notes == b.notes {
      forall k | 0 <= k < |a.notes|
        ensures Equal(a.notes[k], b.notes[k])
      {
        EqualIsIdentity(a.notes[k], b.notes[k]);
      }
    }
  }

  /** `Chord('Cdim') != Chord('Cdim7')`, and likewise on every root: the
      two recipes have different lengths. */
  lemma DimIsNotDim7(root: Note)
    ensures FromNote(root, "dim").Ok? && FromNote(root, "dim7").Ok? ==>
              !Same(FromNote(root, "dim").value, FromNote(root, "dim7").value)
  {
    if FromNote(root, "dim").Ok? && FromNote(root, "dim7").Ok? {
      assert |Recipes["dim"]| == 3 && |Recipes["dim7"]| == 4;
      assert |FromNote(root, "dim").value.notes| == 3;
    }
  }

  /** A valid type that the text ends with, and no longer one, is the one
      the constructor finds. */
  lemma SuffixFound(text: string, t: string)
    requires t in ValidTypes && IsSuffix(t, text)
    requires forall u :: IsSuffix(u, text) && |u| > |t| ==> u !in ValidTypes
    ensures FirstSuffix(text, ByLength) == Some(t)
  {
    LongestType(text);
    var r := FirstSuffix(text, ByLength);
    assert r.Some?;
    assert |t| < |r.value| || t == r.value;
    assert !(|t| < |r.value|);
  }

  /** An alias builds the same chord as the type it stands for. */
  lemma FromAlias(root: Note, t: string)
    requires t in Aliases
    ensures FromNote(root, t) == FromNote(root, Aliases[t])
  {
    assert Resolve(t) == Resolve(Aliases[t]);
  }

  lemma EndsWith(a: string, t: string)
    ensures IsSuffix(t, a + t)
  {
    assert (a + t)[|a|..] == t;
  }

  /** A valid type that ends no longer valid type is the type found in any
      text ending with it. */
  lemma TypeAfter(prefix: string, t: string)
    requires t in ValidTypes
    requires forall u :: u in ValidTypes && |u| > |t| ==> !IsSuffix(t, u)
    ensures FirstSuffix(prefix + t, ByLength) == Some(t)
  {
    TypeAfterSorted(prefix, t, ValidTypes);
  }

  lemma TypeAfterSorted(prefix: string, t: string, ts: seq<string>)
    requires t in ts
    requires forall u :: u in ts && |u| > |t| ==> !IsSuffix(t, u)
    ensures FirstSuffix(prefix + t, StableSort(ts)) == Some(t)
  {
    StableSortSpec(ts);
    assert t in multiset(ts);
    forall u | u in StableSort(ts) && |u| > |t|
      ensures !IsSuffix(t, u)
    {
      assert u in multiset(StableSort(ts));
    }
    TypeAfterIn(prefix, t, StableSort(ts));
  }

  /** The same on any list of types sorted by non-increasing length. */
  lemma TypeAfterIn(prefix: string, t: string, types: seq<string>)
    requires forall i, j :: 0 <= i < j < |types| ==> |types[i]| >= |types[j]|
    requires t in types
    requires forall u :: u in types && |u| > |t| ==> !IsSuffix(t, u)
    ensures FirstSuffix(prefix + t, types) == Some(t)
  {
    var text := prefix + t;
    EndsWith(prefix, t);
    var k :| 0 <= k < |types| && types[k] == t;
    assert IsSuffix(types[k], text);
    FirstSuffixIsLongest(text, types);
    var r := FirstSuffix(text, types).value;
    assert r in types && IsSuffix(r, text);
  }

  /** A note's name followed by such a type names the chord of that type on
      that note (at the default octave). */
  lemma NamedChord(n: Note, t: string, chordType: string)
    requires n.octave == 4 && t in ValidTypes
    requires forall u :: u in ValidTypes && |u| > |t| ==> !IsSuffix(t, u)
    ensures Make(TextRoot(Str(n) + t), chordType) == FromNote(n, t)
  {
    var text := Str(n) + t;
    TypeAfter(Str(n), t);
    assert Notes.Parse(text[..|text| - |t|]) == Ok(n) by {
      assert text[..|text| - |t|] == Str(n);
      ParseExactly(Str(n), n);
    }
    MakeFromText(text, chordType);
  }

  /** `Chord('CM') == Chord(Note('C'), 'maj')`, and likewise on every note:
      no longer type ends in `M`. */
  lemma MajorByAlias(n: Note, chordType: string)
    requires n.octave == 4
    ensures Make(TextRoot(Str(n) + "M"), chordType) == Make(NoteRoot(n), "maj")
  {
    assert Make(TextRoot(Str(n) + "M"), chordType) == FromNote(n, "M") by {
      NoTypeEndsInM();
      NamedChord(n, "M", chordType);
    }
    assert FromNote(n, "M") == FromNote(n, "maj") by {
      FromAlias(n, "M");
      MajorAlias();
    }
  }

  /** `M` is the alias of the major chord. */
  lemma MajorAlias()
    ensures "M" in Aliases && Aliases["M"] == "maj" && "maj" in Recipes
  {
  }

  lemma NoTypeEndsInM()
    ensures forall u :: u in ValidTypes && |u| > 1 ==> !IsSuffix("M", u)
  {
    NoLongTypeEndsIn('M', 1);
  }

  /** No valid type longer than `n` ends in the character `c`. */
  lemma NoLongTypeEndsIn(c: char, n: nat)
    requires (c == 'M' && n == 1) || (c == 'm' && n == 3)
    ensures forall u :: u in ValidTypes && |u| > n ==> u[|u| - 1] != c
  {
    forall k | 0 <= k < |ValidTypes|
      ensures |ValidTypes[k]| > n ==> ValidTypes[k][|ValidTypes[k]| - 1] != c
    {
    }
  }

  /** `Chord('Cbdim') == Chord(Note('Cb'), 'dim')`, and likewise on every
      note: the `b` of a flat root is not taken into the type, since no
      type ends in `bdim`. */
  lemma DiminishedByName(n: Note, chordType: string)
    requires n.octave == 4
    ensures Make(TextRoot(Str(n) + "dim"), chordType) == Make(NoteRoot(n), "dim")
  {
    NoTypeEndsInDim();
    NamedChord(n, "dim", chordType);
  }

  lemma NoTypeEndsInDim()
    ensures forall u :: u in ValidTypes && |u| > 3 ==> !IsSuffix("dim", u)
  {
    NoLongTypeEndsIn('m', 3);
    forall u | u in ValidTypes && |u| > 3
      ensures !IsSuffix("dim", u)
    {
      assert u[|u| - 3..][2] == u[|u| - 1];
    }
  }

  /** `Chord(root)`: the type defaults to `M`, an alias of `maj`. */
  function MakeDefault(root: Root): (r: Result<Chord>)
    ensures r == Make(root, "maj")
    ensures root.NoteRoot? ==> r == FromNote(root.note, "maj")
    ensures root.OtherRoot? ==> r == Err(TypeError)
  {
    DefaultIsMajor(root);
    Make(root, "M")
  }

  lemma DefaultIsMajor(root: Root)
    ensures Make(root, "M") == Make(root, "maj")
  {
    match root
    case NoteRoot(n) =>
      FromAlias(n, "M");
      MajorAlias();
    case TextRoot(text) =>
      if FirstSuffix(text, ByLength).Some? {
        MakeFromText(text, "M");
        MakeFromText(text, "maj");
      }
    case OtherRoot =>
      MajorAlias();
  }

  /** The interval names the chord recipes use. */
  const IntervalNames: set<string> :=
    {"P1", "M2", "m3", "M3", "P4", "d5", "P5", "A5", "m7", "M7", "d7", "P8"}

  lemma RecipesUseIntervals(c: string)
    requires c in Recipes
    ensures forall k :: 0 <= k < |Recipes[c]| ==> Recipes[c][k] in IntervalNames
  {
  }

  /** The intervals of the chord recipes: the major, minor and perfect
      intervals below the octave, the augmented fifth, the diminished fifth
      and seventh, and the octave. */
  predicate IsChordInterval(i: Intervals.Interval) {
    && Intervals.Valid(i)
    && (|| (i.quality == 'P' && i.number == 8)
        || (1 <= i.number <= 7 &&
            (|| i.quality == 'M' || i.quality == 'm' || i.quality == 'P'
             || (i.quality == 'A' && i.number == 5)
             || (i.quality == 'd' && (i.number == 5 || i.number == 7)))))
  }

  lemma IntervalNamesParse(t: string)
    requires t in IntervalNames
    ensures Intervals.Parse(t).Ok? && IsChordInterval(Intervals.Parse(t).value)
  {
    assert |t| == 2 && '1' <= t[1] <= '8';
    assert t == [t[0], t[1]];
    Intervals.ParseShort(t[0], t[1]);
  }

  /** Every interval of every recipe parses, to a non-zero number. */
  lemma RecipeIntervalsParse(c: string)
    requires c in Recipes
    ensures forall k :: 0 <= k < |Recipes[c]| ==>
              Intervals.Parse(Recipes[c][k]).Ok? && IsChordInterval(Intervals.Parse(Recipes[c][k]).value)
  {
    RecipesUseIntervals(c);
    forall k | 0 <= k < |Recipes[c]|
      ensures Intervals.Parse(Recipes[c][k]).Ok? && IsChordInterval(Intervals.Parse(Recipes[c][k]).value)
    {
      IntervalNamesParse(Recipes[c][k]);
    }
  }

  /** From any natural letter, a chord interval spans its letters with at
      most two semitones to spare either way. */
  lemma ChordIntervalDeviation(t: Tones.Tone, i: Intervals.Interval)
    requires IsChordInterval(i)
    ensures i.number != 0 && 0 <= i.semitones <= 12
    ensures -2 <= Deviation(t, i) <= 2
  {
    if i.number == 8 {
      Tones.AddPeriodic(t, 1);
      Tones.AddOne(t);
      assert Span(t, 8) == 0;
    } else {
      SpanNearMajor(t, i.number);
      var excess := Span(t, i.number) - Intervals.MajorSemitones(i.number);
      assert i.semitones - Span(t, i.number) ==
               Intervals.QualitySemitones(i.quality, i.number) - Intervals.MajorSemitones(i.number) - excess;
    }
  }

  /** Every chord type builds on every root with at most one sharp or flat
      between octaves 1 and 8. */
  lemma ChordExists(root: Note, t: string)
    requires -1 <= root.accidental <= 1 && 1 <= root.octave <= 8
    requires t in Recipes || t in Aliases
    ensures FromNote(root, t).Ok?
  {
    var c := Resolve(t).value;
    var recipe := Recipes[c];
    RecipeIntervalsParse(c);
    forall k | 0 <= k < |recipe|
      ensures AddInterval(root, Intervals.Parse(recipe[k]).value).Ok?
    {
      var i := Intervals.Parse(recipe[k]).value;
      ChordIntervalDeviation(root.tone, i);
      AddWithin(root, i);
    }
  }

  /** The bound is tight: the augmented chord on B##4 needs an F with eight
      flats for its fifth. */
  lemma AugmentedOnDoubleSharp()
    ensures FromNote(Note(Tones.B, 2, 4), "aug") == Err(Exception)
  {
    var root := Note(Tones.B, 2, 4);
    var i := Intervals.Interval('A', 5, 8);
    assert Intervals.Parse("A5") == Ok(i) by {
      assert "A5" == ['A', '5'];
      Intervals.ParseShort('A', '5');
    }
    FifthOfDoubleSharp();
    var recipe := Recipes["aug"];
    assert recipe == ["P1", "M3", "A5"];
    StackFails(root, recipe, 2);
  }

  /** A recipe one of whose intervals does not add to the root does not
      stack. */
  lemma StackFails(root: Note, recipe: seq<string>, k: int)
    requires 0 <= k < |recipe| && Intervals.Parse(recipe[k]).Ok?
    requires AddInterval(root, Intervals.Parse(recipe[k]).value).Err?
    ensures Stack(root, recipe).Err?
  {
  }

  lemma FifthOfDoubleSharp()
    ensures AddInterval(Note(Tones.B, 2, 4), Intervals.Interval('A', 5, 8)).Err?
  {
    var root := Note(Tones.B, 2, 4);
    var i := Intervals.Interval('A', 5, 8);
    assert Tones.Add(Tones.B, 5) == Ok(Tones.F);
    assert NoteId(root) == 1;
    assert Normalize((1 + 8) % 12 - Natural(Tones.F)) == -8;
    UnspellableSum(root, i);
  }
}
