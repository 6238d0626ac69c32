// The two shapes a JavaScript call can come back in: a value that may be
// absent (`null`/`undefined`), and a value or a thrown error.

module Outcomes {

  datatype Option<T> = None | Some(value: T)

  datatype Result<T> = Success(value: T) | Failure(error: string)

  /** A validation loop that returns on the first element `check` rejects:
      the first problem found, in list order. */
  function FirstSome<T, P>(xs: seq<T>, check: T -> Option<P>): Option<P> {
    if xs == [] then None
    else if check(xs[0]).Some? then check(xs[0])
    else FirstSome(xs[1..], check)
  }

  /** The loop passes exactly when every element passes, and otherwise
      reports the problem of an element all of whose predecessors pass. */
  lemma {:induction false} FirstSomeSpec<T, P>(xs: seq<T>, check: T -> Option<P>)
    ensures FirstSome(xs, check).None? <==> forall i :: 0 <= i < |xs| ==> check(xs[i]).None?
    ensures FirstSome(xs, check).Some? ==>
      exists i :: 0 <= i < |xs| && check(xs[i]) == FirstSome(xs, check)
        && forall j :: 0 <= j < i ==> check(xs[j]).None?
  {
    if xs != [] {
      var rest := xs[1..];
      FirstSomeSpec(rest, check);
      assert forall i :: 1 <= i < |xs| ==> xs[i] == rest[i - 1];
      if FirstSome(xs, check).Some? && check(xs[0]).None? {
        var i :| 0 <= i < |rest| && check(rest[i]) == FirstSome(rest, check)
          && forall j :: 0 <= j < i ==> check(rest[j]).None?;
        assert xs[i + 1] == rest[i];
        forall j | 0 <= j < i + 1
          ensures check(xs[j]).None?
        {
          if j > 0 {
            assert xs[j] == rest[j - 1];
          }
        }
      }
    }
  }
}
