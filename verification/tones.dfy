/** The seven letter names C, D, E, F, G, A, B as a cyclic group.

    Steps are counted the musical way, from 1: moving up by 1 is staying on
    the same letter, up by 2 is the next letter, and there is no step 0.
 */
module Tones {
  import opened Results

  datatype Tone = C | D | E | F | G | A | B

  /** Position in the cycle `CDEFGAB`. */
  function Index(t: Tone): (i: nat)
    ensures i < 7
  {
    match t
    case C => 0
    case D => 1
    case E => 2
    case F => 3
    case G => 4
    case A => 5
    case B => 6
  }

  function FromIndex(i: nat): (t: Tone)
    requires i < 7
    ensures Index(t) == i
  {
    if i == 0 then C else if i == 1 then D else if i == 2 then E else if i == 3 then F
    else if i == 4 then G else if i == 5 then A else B
  }

  function Name(t: Tone): char {
    match t
    case C => 'C'
    case D => 'D'
    case E => 'E'
    case F => 'F'
    case G => 'G'
    case A => 'A'
    case B => 'B'
  }

  /** The characters of `tones`, the string `CDEFGAB`. */
  predicate IsName(c: char) {
    c == 'C' || c == 'D' || c == 'E' || c == 'F' || c == 'G' || c == 'A' || c == 'B'
  }

  /** Constructing a tone from its name: anything but one of the seven
      one-letter names is a `ValueError`. */
  function FromName(s: string): (r: Result<Tone>)
    ensures r.Ok? <==> |s| == 1 && IsName(s[0])
    ensures r.Ok? ==> s == [Name(r.value)]
    ensures r.Err? ==> r.error == ValueError
  {
    if |s| == 1 && IsName(s[0]) then
      var t := match s[0]
        case 'C' => C case 'D' => D case 'E' => E case 'F' => F
        case 'G' => G case 'A' => A case _ => B;
      Ok(t)
    else Err(ValueError)
  }

  lemma FromNameOfName(t: Tone)
    ensures FromName([Name(t)]) == Ok(t)
  {
  }

  /** `t + o` for an integer `o`: move `o` steps, counting from 1, downwards
      when `o` is negative. Zero steps is a `ValueError`. */
  function Add(t: Tone, o: int): (r: Result<Tone>)
    ensures r.Err? <==> o == 0
    ensures r.Err? ==> r.error == ValueError
  {
    if o == 0 then Err(ValueError)
    else Ok(FromIndex((Index(t) + o - (if o > 0 then 1 else -1)) % 7))
  }

  /** `t - o` for an integer `o`, defined as `t + -o`. */
  function Sub(t: Tone, o: int): (r: Result<Tone>)
    ensures r.Err? <==> o == 0
  {
    Add(t, -o)
  }

  /** `t - u` for two tones: the signed step count from `u` to `t`, counted
      from 1, so it is never 0 and never -1. */
  function Distance(t: Tone, u: Tone): (d: int)
    ensures 1 <= d <= 7 || -7 <= d <= -2
    ensures d > 0 <==> Index(t) >= Index(u)
  {
    var d := Index(t) - Index(u);
    if d >= 0 then d + 1 else d - 1
  }

  /** The right-hand operand of `+` and `-` on a tone, whose Python type
      decides the operation. */
  datatype Operand = ToneOperand(tone: Tone) | IntOperand(n: int) | OtherOperand

  /** What `t - x` returns: a step count for a tone, a tone for an integer. */
  datatype Difference = Steps(steps: int) | Moved(tone: Tone)

  /** `t + x`: only an integer may be added to a tone; anything else is a
      `TypeError`. */
  function Plus(t: Tone, x: Operand): (r: Result<Tone>)
    ensures !x.IntOperand? ==> r == Err(TypeError)
    ensures x.IntOperand? && x.n != 0 ==> r.Ok?
  {
    match x
    case IntOperand(n) => Add(t, n)
    case _ => Err(TypeError)
  }

  /** `t - x`: a tone gives the step distance, an integer moves down, and
      anything else is a `TypeError`. */
  function Minus(t: Tone, x: Operand): (r: Result<Difference>)
    ensures x.OtherOperand? <==> r == Err(TypeError)
    ensures x.ToneOperand? ==> r.Ok? && r.value.Steps? && r.value.steps != 0
    ensures x.IntOperand? ==> (r.Ok? <==> x.n != 0) && (r.Ok? ==> r.value.Moved?)
  {
    match x
    case ToneOperand(u) => Ok(Steps(Distance(t, u)))
    case IntOperand(n) =>
      (match Sub(t, n)
       case Ok(v) => Ok(Moved(v))
       case Err(e) => Err(e))
    case OtherOperand => Err(TypeError)
  }

  /** One step, up or down, stays on the same letter. */
  lemma AddOne(t: Tone)
    ensures Add(t, 1) == Ok(t) && Add(t, -1) == Ok(t)
  {
  }

  /** Moving up `n` steps, for `n` from 1 to 7, without the modulus. */
  lemma AddUp(t: Tone, n: int)
    requires 1 <= n <= 7
    ensures Add(t, n).Ok?
    ensures Index(Add(t, n).value) ==
              if Index(t) + n - 1 < 7 then Index(t) + n - 1 else Index(t) + n - 8
  {
  }

  /** Moving `n` steps and then back `n` steps returns to the start. */
  lemma SubAfterAdd(t: Tone, n: int)
    requires n != 0
    ensures Add(t, n).Ok? && Sub(Add(t, n).value, n) == Ok(t)
  {
    var i := Index(t);
    var s := if n > 0 then 1 else -1;
    var j := (i + n - s) % 7;
    var v := FromIndex(j);
    assert Add(t, n) == Ok(v);
    assert Sub(v, n) == Ok(FromIndex((j - n + s) % 7));
    ModSum(i + n - s, -n + s);
    assert (j - n + s) % 7 == i;
    IndexRoundTrip(t);
  }

  /** A letter is determined by its position. */
  lemma IndexRoundTrip(t: Tone)
    ensures FromIndex(Index(t)) == t
  {
  }

  /** Moving from `u` by the distance `t - u` lands on `t`. */
  lemma AddDistance(t: Tone, u: Tone)
    ensures Add(u, Distance(t, u)) == Ok(t)
  {
  }

  /** The step count is periodic with period 7, on each side of 0. */
  lemma AddPeriodic(t: Tone, n: int)
    requires n != 0
    ensures n > 0 ==> Add(t, n + 7) == Add(t, n)
    ensures n < 0 ==> Add(t, n - 7) == Add(t, n)
  {
    var s := if n > 0 then 1 else -1;
    if n > 0 {
      ModSum(Index(t) + n - s, 7);
    } else {
      ModSum(Index(t) + n - s, -7);
    }
  }

  /** Upward steps compose with the 1-based bias: a second on top of a
      third is a fourth (2 + 3 - 1). */
  lemma AddCompose(t: Tone, m: int, n: int)
    requires m > 0 && n > 0
    ensures Add(t, m).Ok? && Add(Add(t, m).value, n) == Add(t, m + n - 1)
  {
    ModSum(Index(t) + m - 1, n - 1);
  }

  lemma ModSum(a: int, b: int)
    ensures (a % 7 + b) % 7 == (a + b) % 7
  {
  }
}
