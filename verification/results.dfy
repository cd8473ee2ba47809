/** Failure-compatible wrappers for the engine's operations.

    Every operation of the engine either returns a value or raises one of a
    handful of Python exception classes; which class is raised is part of the
    observable behaviour, so the error is a closed enumeration of those
    classes rather than a message.
 */
module Results {

  /** The exception classes the engine raises. `Exception` is the plain base
      class, raised for unparseable notes, unknown intervals, a non-Interval
      operand of `Note +` and an unknown chord type. */
  datatype Error =
    | ValueError
    | TypeError
    | NameError
    | IndexError
    | AttributeError
    | Exception

  datatype Result<+T> = Ok(value: T) | Err(error: Error) {

    predicate IsFailure() {
      Err?
    }

    function PropagateFailure<U>(): Result<U>
      requires Err?
    {
      Err(error)
    }

    function Extract(): T
      requires Ok?
    {
      value
    }
  }

  datatype Option<+T> = None | Some(value: T)

  /** Putting one more successful result in front of a list of results
      keeps every result next to its input. */
  lemma PrependPointwise<A, B>(xs: seq<A>, f: A -> Result<B>, first: B, rest: seq<B>)
    requires |xs| > 0 && f(xs[0]) == Ok(first) && |rest| == |xs| - 1
    requires forall j :: 0 <= j < |rest| ==> f(xs[1..][j]) == Ok(rest[j])
    ensures forall j :: 0 <= j < |xs| ==> f(xs[j]) == Ok(([first] + rest)[j])
  {
    forall j | 1 <= j < |xs|
      ensures f(xs[j]) == Ok(([first] + rest)[j])
    {
      assert xs[j] == xs[1..][j - 1];
    }
  }
}
