# musthe in Dafny

A model of the music-theory engine of `musthe`. The engine does exact
arithmetic on pitch spellings:

- **tones**: the seven letters C to B, as a cycle where steps count from 1;
- **notes**: a letter, up to three sharps or flats, and a one-digit octave;
- **intervals**: a quality and a diatonic number, sized in semitones by a table;
- **chords**: recipes of intervals stacked on a root, named by type or alias;
- **scales**: recipes of intervals on a root, which can be indexed without
  bound and tested for containment.

One module per concept:

| file | module | models |
|---|---|---|
| `results.dfy` | `Results` | the exception classes the engine raises, as an `Error` enumeration, and `Result`/`Option` |
| `text.dfy` | `Text` | the parts of Python's text handling the engine relies on: `str(int)`, `int(str)`, `str.replace`, `str.lower` |
| `tones.dfy` | `Tones` | class `Tone` |
| `intervals.dfy` | `Intervals` | class `Interval` and its table |
| `notes.dfy` | `Notes` | class `Note`: the parser, renderings, `to_octave`, `+` and `-` |
| `chords.dfy` | `Chords` | class `Chord`: recipes, aliases, the type lookup in a chord name, the constructor, `==` |
| `scales.dfy` | `Scales` | class `Scale`: recipes, the constructor, indexing and slicing, `in`, `Scale.all` |

How the Python code maps onto Dafny:

- **Exceptions.** Every operation returns a `Result`. The exception class the
  source raises is part of the result: `ValueError`, `TypeError`, `NameError`,
  `IndexError`, `AttributeError` or the plain `Exception`.
- **Dynamic types.** Where the type of an argument picks the branch (`isinstance`),
  the argument is a small closed variant. Examples: `Tones.Operand`,
  `Notes.Operand`, `Notes.Root`, `Scales.Member`, `Scales.Key`.
- **Every note comes from the parser.** Every `Note` the engine makes is
  produced by parsing a string. This includes the results of `+`, `-` and
  `to_octave`, which build the text of the new note and parse it. So the
  ranges of the accidental (-3..3) and the octave (0..9) are invariants of the
  `Note` type. An operation whose result falls outside them fails the way the
  parser fails.
- **Note equality.** `==` on notes compares scientific notations. It is proved
  to be structural equality (`Notes.EqualIsIdentity`).
- **Division.** Python's floor division `//` by a positive length is Dafny's
  `/`, so scale indexing uses `/` and `%` directly. Division by a zero length
  is one of the failures that indexing turns into an `IndexError`.

Behaviour of this version of the code that later versions of the library
describe differently. The model follows the code:

- **Compound intervals.** For each octave the constructor removes from a
  compound interval's number, it adds 12 to the semitones
  (musthe/musthe.py:170). It then overwrites the semitones with the reduced
  interval's table entry (musthe/musthe.py:174), so those octaves are lost.
  `M10` has the 4 semitones of `M3`, and `C4 + M10` is `E4`
  (`Intervals.CompoundSemitones`, `Notes.AddCompound`). Later tests expect `E5`.
- **B-sharp spellings.** A result spelled B#, B##, B### or A### is moved down
  one octave.
  - `midi_note` does not carry the sharp into the next octave, so this
    correction is visible: `B#4 + P1` is `B#3` (`Notes.AddUnisonToBSharp`),
    and `B#4 + d2` is `C4`, where later tests expect `C5`.
  - `Notes.AddSpec` states the rule exactly: the MIDI pitch of such a result
    is 12 below the plain sum.
- **Negation.** Unary minus on an interval reparses its text. A negated
  interval therefore cannot be negated again (`Intervals.NegTwiceFails`).
- **Scale containment.** Testing whether a scale contains something that is
  not a note, chord, list, set or tuple is a `TypeError`.

## Model

| member | source | states |
|---|---|---|
| Tones.FromName | musthe/musthe.py:27-31 | A tone is constructed exactly from one of the seven one-letter names, and it is the tone that name denotes. Any other text is a `ValueError`. |
| Tones.FromNameOfName | musthe/musthe.py:24-31 | The name of every tone constructs that tone again. |
| Tones.Add | musthe/musthe.py:33-38 | Moving a tone by an integer fails, with `ValueError`, exactly when the integer is 0. |
| Tones.Plus | musthe/musthe.py:33-40 | Adding anything but an integer to a tone is a `TypeError`. Adding a non-zero integer always succeeds. |
| Tones.Sub | musthe/musthe.py:47-48 | Moving a tone down fails exactly for 0 steps. |
| Tones.Distance | musthe/musthe.py:43-46 | The step distance between two tones is never 0 or -1. It lies in 1..7 when the first tone is not before the second in `CDEFGAB`, and in -7..-2 otherwise. |
| Tones.Minus | musthe/musthe.py:42-50 | Subtracting a tone gives a non-zero step count. Subtracting an integer moves the tone, and fails only for 0. Anything else is a `TypeError`. |
| Tones.AddOne | musthe/musthe.py:37 | A step of 1 or -1 keeps the letter: steps count from 1. |
| Tones.AddUp | musthe/musthe.py:37 | Moving up 1..7 steps lands `n - 1` letters further round the cycle. |
| Tones.SubAfterAdd | musthe/musthe.py:37-48 | Moving down by `n` undoes moving up by `n`, for every non-zero `n`. |
| Tones.AddDistance | musthe/musthe.py:37-46 | Moving `u` by the distance `t - u` lands on `t`, for all tones. |
| Tones.AddPeriodic | musthe/musthe.py:37 | Seven more steps in the same direction land on the same tone. |
| Tones.AddCompose | musthe/musthe.py:37 | Moving up by `m` and then by `n` is moving up by `m + n - 1`. |
| Text.ParseIntOfString | musthe/musthe.py:163-179 | `int(str(n)) == n` for every integer, including negatives. This is the round trip of an interval's number through its text. |
| Text.ParseInt | musthe/musthe.py:163 | `int()` accepts exactly an optional sign followed by one or more ASCII digits. The value is the decimal value of the digits, negated after a minus sign. |
| Text.ParseIntPadded | musthe/musthe.py:163 | Leading zeros and a plus sign do not change the value `int()` reads: `int('007') == int('+7') == 7`, and a minus sign negates it. |
| Intervals.TableIsClassical | musthe/musthe.py:150-159 | The table holds exactly the 27 classical simple interval names: P with 1, 4, 5, 8; M and m with 2, 3, 6, 7; A with 1..8; d with 2..8. Each has the size those naming rules give it. |
| Intervals.Reduce | musthe/musthe.py:167-169 | The reduction of a number is at most 8 and differs from it by a multiple of 7. A number already at most 8 is unchanged, and a larger one reduces to at least 2. |
| Intervals.Parse | musthe/musthe.py:161-176 | Parsing succeeds exactly when the text is non-empty, its tail is an integer, and that integer's reduction names a classical simple interval. The result keeps the quality and number, and is sized by that simple interval. Empty text is an `IndexError`; a non-integer tail is a `ValueError`; an unknown name is a plain `Exception`. |
| Intervals.ParseRender | musthe/musthe.py:161-179 | Every interval the constructor can produce parses back from its text. |
| Intervals.Neg | musthe/musthe.py:184-188 | A successful negation keeps the quality and gives a negative number. |
| Intervals.NegValid | musthe/musthe.py:184-188 | Negating a valid interval flips the signs of both its number and its semitones. |
| Intervals.NegTwiceFails | musthe/musthe.py:184-188 | A negated interval cannot be negated again: the minus sign in its text reduces to no table entry. |
| Intervals.CompoundSemitones | musthe/musthe.py:166-174 | A compound interval has exactly the semitones of its reduction, and never more than 13. |
| Intervals.PaddedNumber | musthe/musthe.py:161-176 | An interval number written with leading zeros or a plus sign names the same interval as the bare number, or fails the same way. |
| Intervals.ParseShort | musthe/musthe.py:161-176 | A quality followed by one digit from 1 to 8 is the table's simple interval of that name, or a plain `Exception` when the table has no such name. |
| Intervals.Examples | musthe/musthe.py:150-176 | d5, P8 and A8 have 6, 12 and 13 semitones. M10 has 4. `M03` and `M+3` are M3. P3 is no interval. |
| Notes.AccidentalText | musthe/musthe.py:102 | The accidental text of a count has as many characters as the count's magnitude. They are all flats for a negative count and all sharps otherwise. |
| Notes.NoteId | musthe/musthe.py:83-87 | The pitch class of a note lies in 0..11 and is congruent to its letter's natural semitone plus its accidental. |
| Notes.ParseOctave | musthe/musthe.py:72-81 | The octave part of a note is accepted exactly when it is absent or one digit. |
| Notes.ParseExactly | musthe/musthe.py:72-81 | Parsing gives `n` exactly for the spellings of `n`. A spelling is the scientific notation, optionally followed by one newline. For octave 4 the bare name also counts, optionally followed by one newline. |
| Notes.ParseSpellings | musthe/musthe.py:72-81 | Every spelling of a note parses to that note. |
| Notes.ParseShape | musthe/musthe.py:72-81 | Every text that parses is a spelling of the note it parses to. |
| Notes.ParseSpelled | musthe/musthe.py:72-81 | A letter followed by a run of one accidental mark and a tail parses exactly when there are at most three marks and the tail is an octave. |
| Notes.ParseNewline | musthe/musthe.py:72 | One trailing newline does not change what a text parses to. |
| Notes.EqualIsIdentity | musthe/musthe.py:135-136 | Two notes are `==` exactly when they have the same letter, accidental and octave. |
| Notes.StrIsSpelling | musthe/musthe.py:132-133 | Two notes print the same exactly when their letter and accidental agree, whatever their octaves. |
| Notes.EnharmonicsDiffer | musthe/musthe.py:113-136 | C#4 and Db4 have the same MIDI number but are not `==`. |
| Notes.ToOctave | musthe/musthe.py:120-121 | Moving a note to an octave succeeds exactly for octaves 0..9 and changes nothing but the octave. Other octaves fail as the parser does. |
| Notes.ToOctaveKeepsName | musthe/musthe.py:113-121 | `to_octave` keeps the printed name and shifts the MIDI number by 12 per octave moved. |
| Notes.BuildIsParse | musthe/musthe.py:104-108 | The text an operation builds from a letter, a count and an octave parses back to that note exactly when the count and octave are in range. Otherwise it fails. |
| Notes.OctaveOfString | musthe/musthe.py:81 | The printed octave reads back exactly when it is a single digit. |
| Notes.Normalize | musthe/musthe.py:99-101 | Normalizing a difference in -11..11 lands in -8..3 and stays congruent modulo 12. |
| Notes.WrapsOctaveByCount | musthe/musthe.py:104-106 | The four spellings moved down an octave (B#, B##, B###, A###) are exactly the letter B with one to three sharps, and A with three. |
| Notes.AddInterval | musthe/musthe.py:89-108 | Adding an interval fails with `ValueError` for the number 0 and with a plain `Exception` otherwise. |
| Notes.UnspellableSum | musthe/musthe.py:99-108 | A sum whose normalized difference from the moved letter is more than three semitones either way fails with a plain `Exception`. |
| Notes.AddSpec | musthe/musthe.py:89-108 | `n + i == m` exactly when `m` has the moved letter and the moved pitch class, and its MIDI number is `n`'s plus the interval's semitones (12 less when `m` is spelled B#, B##, B### or A###). |
| Notes.AddFails | musthe/musthe.py:35-108 | A zero number is a `ValueError`. Any other failed sum is a plain `Exception`, and a sum succeeds exactly when some note satisfies the sum relation. |
| Notes.SpanNearMajor | musthe/musthe.py:73 | The natural letters a number from 1 to 7 spans are as wide as the major or perfect interval of that number, or one less. The exceptions are F to B (one more) and B to F (one less). |
| Notes.AccidentalOfSum | musthe/musthe.py:95-102 | When the result can be spelled, its accidental is the start note's accidental plus how far the interval exceeds the natural letters it spans. |
| Notes.AddWithin | musthe/musthe.py:89-108 | Adding an interval of 0..12 semitones to a note in octaves 1..8 succeeds whenever the resulting accidental is in range. The result is the moved letter with that accidental. |
| Notes.Plus | musthe/musthe.py:89-91 | Adding anything but an Interval to a note is a plain `Exception`. A successful sum satisfies the sum relation. |
| Notes.SubIsAddNegated | musthe/musthe.py:110-111 | Subtracting a valid interval is adding the interval with both signs flipped. |
| Notes.AddNegated | musthe/musthe.py:89-108 | Adding a negated interval lands on the letter that many steps down, with the pitch that many semitones lower. |
| Notes.SubSpec | musthe/musthe.py:110-111 | `n - i == m` exactly when `m` has the letter `i.number` steps down and the pitch class `i.semitones` lower, and its MIDI number is that many semitones lower (12 less for the B#-like spellings). |
| Notes.Minus | musthe/musthe.py:110-111 | Subtracting a number negates it and then fails as a non-Interval operand (`Exception`). Subtracting a value without unary minus is a `TypeError`. Subtracting a valid interval adds its negation. |
| Notes.AddDiminishedFifth | tests/tests.py:103 | A4 + d5 = Eb5. |
| Notes.AddToDoubleSharp | tests/tests.py:105 | G##4 + m3 = B#4. |
| Notes.AddAcrossOctave | tests/tests.py:106 | F3 + P5 = C4. |
| Notes.AddUnisonToBSharp | musthe/musthe.py:104-106 | B#4 + P1 is B#3: the unison moves a B-sharp down an octave. |
| Notes.AddUnison | musthe/musthe.py:89-108 | Adding a unison returns the note itself, except for the B#-like spellings. Those move down one octave, or fail in octave 0. |
| Notes.AddRaised | musthe/musthe.py:89-108 | Adding an interval to a note one octave higher gives the sum one octave higher. It fails when that would leave octave 9. |
| Notes.AddCompound | musthe/musthe.py:166-174 | C4 + M10 is E4: a compound interval moves no further than its reduction. |
| Notes.LilypondSpelled | musthe/musthe.py:123-124 | The LilyPond name is the lower-case letter followed by one `es` per flat or one `is` per sharp. |
| Notes.LilypondExamples | tests/tests.py:147-149 | C, C# and Cb are written `c`, `cis` and `ces`. |
| Chords.TypesAreKeys | musthe/musthe.py:198-228 | The valid types are exactly the keys of the recipe and alias tables. |
| Chords.AliasesResolve | musthe/musthe.py:198-227 | Every alias names a recipe, and no alias is itself a recipe. |
| Chords.StableSortSpec | musthe/musthe.py:232 | Sorting the types by decreasing length permutes them, orders them by non-increasing length, and keeps the original order among types of equal length (a stable sort). |
| Chords.FirstSuffix | musthe/musthe.py:232-236 | The search finds nothing exactly when no listed type ends the text. What it finds is a listed type that ends the text. |
| Chords.FirstSuffixIsLongest | musthe/musthe.py:232-236 | In a list ordered by non-increasing length, the first type that ends a text is the unique longest one that does. |
| Chords.LongestType | musthe/musthe.py:228-236 | The type taken from a chord name is the unique longest valid type the name ends with. There is none exactly when no valid type ends it. |
| Chords.SuffixFound | musthe/musthe.py:232-236 | A valid type that ends the text, with no longer valid type ending it, is the type found. |
| Chords.Resolve | musthe/musthe.py:240-243 | A chord type resolves exactly when it is a recipe or an alias: a recipe to itself, an alias to its recipe. Anything else is a plain `Exception`. |
| Chords.Stack | musthe/musthe.py:246 | Stacking a recipe on a root succeeds exactly when every interval parses and adds to the root. The notes are those sums, in recipe order. |
| Chords.StackError | musthe/musthe.py:246 | When every interval of a recipe parses to a non-zero number, stacking it can only fail with a plain `Exception`. |
| Chords.StackFails | musthe/musthe.py:246 | One interval that does not add to the root makes the whole chord fail. |
| Chords.FromNote | musthe/musthe.py:240-246 | A chord built on a note has the resolved type, and its notes are that recipe stacked on the note. For a known type it succeeds exactly when that recipe stacks on the note. An unknown type, and every other failure, is a plain `Exception`. |
| Chords.RecipeIntervalsParse | musthe/musthe.py:198-212 | Every interval of every chord recipe parses. Each is a major, minor or perfect interval below the octave, A5, d5, d7 or P8. |
| Chords.ChordIntervalDeviation | musthe/musthe.py:99-101 | A chord interval spans 0..12 semitones and differs from the natural letters it spans by at most two semitones. |
| Chords.ChordExists | musthe/musthe.py:240-246 | Every chord type, recipe or alias, builds a chord on every root with at most one sharp or flat in octaves 1..8. |
| Chords.AugmentedOnDoubleSharp | musthe/musthe.py:246 | The bound of one sharp is tight: the augmented chord on B##4 fails with a plain `Exception`, because its fifth falls on the letter F, and the four sharps it needs normalize to eight flats, outside the spelling range. |
| Chords.MakeDefault | musthe/musthe.py:230 | With no chord type given, the default `M` gives the major chord: the same result as the type `maj` for every root, and a `TypeError` for a root that is neither a text nor a note. |
| Chords.Make | musthe/musthe.py:230-246 | A chord name with no valid type at its end is a `ValueError`. A note root uses the given type. A root that is neither a text nor a note fails at the first `+` with `TypeError`, or with `Exception` when the type is unknown. |
| Chords.MakeFromText | musthe/musthe.py:231-246 | A chord named by text is the chord of its longest valid type on the note the rest of the text spells. The given type is ignored, and an unparseable rest is a plain `Exception`. |
| Chords.ChordNotes | musthe/musthe.py:246 | A chord has one note per recipe interval, each the root plus that interval. |
| Chords.SameIsNotes | musthe/musthe.py:254-259 | Two chords are `==` exactly when their note lists are equal. The type is not compared. |
| Chords.DimIsNotDim7 | musthe/musthe.py:254-259 | The diminished and the diminished-seventh chord on the same root are never `==`. |
| Chords.FromAlias | musthe/musthe.py:240-241 | A chord built with an alias is the chord built with the type it stands for. |
| Chords.TypeAfter | musthe/musthe.py:232-236 | A valid type that is not the end of any longer valid type is found after any prefix. |
| Chords.NamedChord | musthe/musthe.py:230-246 | A note's name followed by such a type names the chord of that type on the note. |
| Chords.MajorByAlias | tests/tests.py:247 | `XM` is the major chord on X, for every note name X. |
| Chords.DiminishedByName | tests/tests.py:252 | `Xdim` is the diminished chord on X, for every note name X. |
| Scales.NamesAreKeys | musthe/musthe.py:270-282 | The listed names are exactly the scale recipes. |
| Scales.RecipesStartWithUnison | musthe/musthe.py:270-282 | Every scale recipe is non-empty and starts with the unison. |
| Scales.ParseAll | musthe/musthe.py:301 | A recipe's intervals parse exactly when each name does, and they are those intervals in order. |
| Scales.Degrees | musthe/musthe.py:302 | The notes of a scale exist exactly when each interval adds to the root. They are those sums moved to octave 0. Otherwise the first failing sum's error is raised. |
| Scales.FirstFailure | musthe/musthe.py:302 | The first failing degree fails, and every degree before it succeeds. |
| Scales.Construct | musthe/musthe.py:291-302 | A root that is neither a note nor a text is a `TypeError` and an unparseable text a plain `Exception`. On any other root an unknown name is a `NameError`. A scale is built exactly when the root is read, the name is known, its recipe parses and every degree adds to the root. A built scale keeps the root and name, parses the recipe, and holds the degrees at octave 0. |
| Scales.GetItem | musthe/musthe.py:304-311 | `s[k]` is degree `k mod len`, added to the root moved `k div len` octaves. It exists exactly when the moved root has a one-digit octave and that sum succeeds. Every failure is an `IndexError`. |
| Scales.Moved | musthe/musthe.py:309 | The moved root is what `to_octave` returns for the shifted octave. |
| Scales.GetItemPitch | musthe/musthe.py:307-309 | `s[k]` has the degree's letter and pitch class. Its MIDI number is the root's, plus 12 per octave of `k div len`, plus the degree's semitones (12 less for the B#-like spellings). |
| Scales.ShiftedSum | musthe/musthe.py:309 | A sum on a root moved `q` octaves is the sum on the root, `12q` semitones higher. |
| Scales.IndexRange | musthe/musthe.py:307-311 | Only indices from `-octave * len` up to `(10 - octave) * len` exist. |
| Scales.Periodic | musthe/musthe.py:307-309 | `s[k + len]` is `s[k]` one octave higher. It exists exactly when both the moved root and `s[k]` are below octave 9. |
| Scales.DegreesAreNotes | musthe/musthe.py:302-309 | For every index within one octave, `s[k]` exists, and moved to octave 0 it is the scale's `k`-th note. |
| Scales.FirstDegreeIsRoot | musthe/musthe.py:302 | The first note of every scale is its root at octave 0. A B#-like root is never in octave 0. |
| Scales.InListIsIn | musthe/musthe.py:322 | Membership in a list of notes by `==` is plain membership. |
| Scales.Contains | musthe/musthe.py:320-328 | A note is in a scale when its spelling at octave 0 is among the scale's notes. A chord is in a scale when all its notes are. Any other kind of value is a `TypeError`. |
| Scales.NotesIn | musthe/musthe.py:324 | All notes are in the scale exactly when each one's spelling at octave 0 is among the scale's notes. |
| Scales.AllIn | musthe/musthe.py:326 | A collection is contained exactly when every item is. Otherwise the answer is the first item that is not contained, or the error that item raises. |
| Scales.ContainsBySpelling | musthe/musthe.py:321-322 | A scale contains a note exactly when one of its notes prints the same, at any octave. |
| Scales.ChordAsCollection | musthe/musthe.py:323-326 | Containing a chord is containing the list of its notes. |
| Scales.NotesCollection | musthe/musthe.py:324-326 | A list of notes is contained exactly when all its notes are in the scale. |
| Scales.EmptyContained | musthe/musthe.py:325-326 | The empty collection is in every scale. |
| Scales.Range | musthe/musthe.py:313 | A range starts at `start`, moves by `step`, stays strictly before `stop`, and stops at the first value that would reach `stop`. |
| Scales.RangeByOne | musthe/musthe.py:313 | `range(a, b)` holds `a, a+1, ..., b-1`, and is empty when `b <= a`. |
| Scales.GetAll | musthe/musthe.py:313 | A list of indices succeeds exactly when each index does, and gives their notes in order. Otherwise it is an `IndexError`. |
| Scales.GetSlice | musthe/musthe.py:312-313 | A slice without a stop, or with stop 0, is an `AttributeError`. A missing start counts as 0 and a missing or zero step as 1. The notes are those of the range's indices, and any failure is an `IndexError`. |
| Scales.SliceByOne | musthe/musthe.py:312-313 | `s[a:b]` succeeds exactly when every index in `a..b-1` exists, and lists `s[a], ..., s[b-1]`. |
| Scales.Index | musthe/musthe.py:304-315 | An integer index gives one note and a slice a list of notes. Any other index is a `TypeError`. |
| Scales.RootTexts | musthe/musthe.py:285-287 | The roots of all scales are the 21 names: each letter, flat, natural and sharp, in that order. |
| Scales.ScalesOn | musthe/musthe.py:288-289 | The scales on one root succeed exactly when each named scale does, and are those scales in order. |
| Scales.ScalesFrom | musthe/musthe.py:284-289 | The generator gives 11 scales per root, in root order: the scales on the parsed root. |
| Scales.ScalesFromSucceeds | musthe/musthe.py:284-289 | Generating scales over given roots succeeds exactly when every root parses and every named scale on it exists. |
| Scales.All | musthe/musthe.py:284-289 | `Scale.all` never fails. It yields 231 scales: for each of the 21 roots, in order, the 11 scales in table order. |
| Scales.RootsParse | musthe/musthe.py:285-287 | Each of the 21 root texts parses to its letter and accidental at octave 4. |
| Scales.RecipesUseSteps | musthe/musthe.py:270-282 | Every scale recipe uses only simple steps: P1 to M7 with major, minor or perfect quality, A4 and d5. |
| Scales.StepNamesParse | musthe/musthe.py:270-282 | Every such step name parses to a valid simple interval. |
| Scales.StepDeviation | musthe/musthe.py:99-101 | A step spans 0..12 semitones and deviates from the natural letters it spans by at most one semitone. |
| Scales.StepsAdd | musthe/musthe.py:301-302 | Degrees built only of steps always exist on a root with at most two sharps or flats in octaves 1..8. |
| Scales.ScaleOf | musthe/musthe.py:291-302 | A scale whose recipe parses to given intervals, each of which adds to the root, is built from those intervals, with the sums moved to octave 0 as its notes. |
| Scales.SliceOf | musthe/musthe.py:312-313 | `s[a:b]` with `a < b` is the list of `s[a], ..., s[b-1]` whenever each of them exists. |
| Scales.SumInOctave | musthe/musthe.py:89-108 | A note whose letter is the moved letter, and whose spelled pitch is the start's plus the interval's semitones within one octave of pitch classes, is the sum. |
| Scales.CMajor | tests/tests.py:295 | The C major scale is C, D, E, F, G, A, B. |
| Scales.CHarmonicMinor | tests/tests.py:297 | The C harmonic minor scale is C, D, Eb, F, G, Ab, B. |
| Scales.HarmonicMinorSlice | tests/tests.py:311-314 | `Scale('C', 'harmonic_minor')` is the scale on C4, and on it `s[10:15]` is F5, G5, Ab5, B5, C6. `s[3:0]` is an `AttributeError` and `s[3:-2]` is empty. |
| Scales.ScaleExists | musthe/musthe.py:291-302 | Every named scale exists on every root with at most two sharps or flats in octaves 1..8. |

## Left out

- `Note.frequency` (musthe/musthe.py:116-118): floating-point arithmetic is not modelled.
- `__repr__` of every class, and `__str__` of `Chord` and `Scale`: these only format text for display. `str` of tones, notes and intervals is modelled (`Tones.Name`, `Notes.Str`, `Intervals.Render`).
- Text.ParseInt: Python's `int()` also accepts surrounding whitespace, digit-group underscores and non-ASCII decimal digits. The model accepts only an optional sign and ASCII digits, which covers every interval text the engine itself produces.
- Notes.Parse: the pattern's `\d` also matches non-ASCII decimal digits. Only ASCII octave digits are modelled.
- `Note`, `Tone` and `Interval` constructed from a value that is not a string are not modelled. The Python errors for those come from `re` and `dict` internals. A non-string root is modelled for `Chord` and `Scale`, whose code checks the type.
- `==` on a note or chord against a value of another class is not modelled. The source raises `AttributeError` on the missing attribute.
- Scales.Contains: Python sets are modelled as sequences in iteration order. The order cannot change the result. Only hashable values can be set items. Notes, chords, lists and sets are not hashable, and neither is a tuple that holds one. So every item is one of two kinds. It may be a value of another type (a string, a number, a frozenset, `None`, or a `Tone`, `Interval` or `Scale` object), which raises `TypeError`. Or it is a tuple of such values, which raises `TypeError` unless its nested tuples all end empty (such as `()`). No item is ever not contained, so a set is contained exactly when none of its items raises.
- Scales.GetSlice: a slice without a stop, or with stop 0, reads the attribute `max_index`, which the class does not define. It is modelled as an `AttributeError` and not as the scale's length.
- Python's `bool` is a subclass of `int`. `True` and `False` as operands or indices are the integers 1 and 0 here.
- `musthe/lilypond_example.py`, `harmonize_dict.py` and `harmonize_list.py` print and write files. They only use the engine's public operations, and are not part of this model.
- Tests written for a later version of the library are not modelled. They expect letter objects, `Note.all`, note-minus-note intervals, compound intervals that add octaves, Greek mode scale names, `False` for containment of foreign values, a `ValueError` for unknown chord types, a MIDI number of 60 for C4 (this code gives 48, and `Notes.Midi` follows it), and a `TypeError` for adding a non-interval to a note (this code raises a plain `Exception`, as `Notes.Plus` states). This code does none of these.
