/** Failure-carrying results shared by every stage of the pipeline. */
module Common {

  datatype Option<+T> = None | Some(value: T)

  datatype Result<+T, +E> = Ok(value: T) | Err(error: E)

  /** The exceptions of the scripts' own code that the model keeps. None of
      them is caught by the scripts' handlers (those catch only solver and
      attribute errors), so each one stops the whole run. */
  datatype Failure =
    | ValueError(text: string)  // int() was given `text`, which is not a decimal literal
    | IndexError                // a list was indexed past its end

  /** No element occurs twice. */
  predicate NoRepeats<T(==)>(s: seq<T>) {
    forall i, j :: 0 <= i < j < |s| ==> s[i] != s[j]
  }

  /** Concatenation regroups freely; stated once so that loop proofs can
      cite it instead of comparing sequences element by element. */
  lemma AppendAssoc<T>(a: seq<T>, b: seq<T>, c: seq<T>)
    ensures a + (b + c) == a + b + c
  {
  }
}
