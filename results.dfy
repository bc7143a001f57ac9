/** Option and Result, the two failure-carrying types the client uses, and the
    fail-fast traversal that a Rust loop of `push(f(x)?)` performs. Errors are
    the messages of the client's boxed errors, so they are strings. */
module Results {

  datatype Option<+T> = None | Some(value: T)

  datatype Result<+T> = Ok(value: T) | Err(error: string) {

    predicate IsFailure() {
      Err?
    }

    function PropagateFailure<U>(): Result<U>
      requires Err?
    {
      Err(error)
    }

    function Extract(): T
      requires Ok?
    {
      value
    }
  }

  /** Applies `f` to the elements of `xs` in order and stops at the first
      failure, whose error becomes the error of the whole traversal. */
  function MapAll<A, B>(f: A -> Result<B>, xs: seq<A>): (r: Result<seq<B>>)
    ensures r.Ok? <==> forall i :: 0 <= i < |xs| ==> f(xs[i]).Ok?
    ensures r.Ok? ==> |r.value| == |xs|
    ensures r.Ok? ==> forall i :: 0 <= i < |xs| ==> r.value[i] == f(xs[i]).value
    ensures r.Err? ==> exists i :: FirstFailure(f, xs, i) && r.error == f(xs[i]).error
  {
    if xs == [] then Ok([])
    else match f(xs[0])
      case Err(e) =>
        assert FirstFailure(f, xs, 0);
        Err(e)
      case Ok(y) =>
        match MapAll(f, xs[1..])
        case Err(e) =>
          var i :| FirstFailure(f, xs[1..], i) && e == f(xs[1..][i]).error;
          assert FirstFailure(f, xs, i + 1);
          Err(e)
        case Ok(ys) => Ok([y] + ys)
  }

  /** `i` is the position of the first element on which `f` fails. */
  predicate FirstFailure<A, B>(f: A -> Result<B>, xs: seq<A>, i: int) {
    0 <= i < |xs| && f(xs[i]).Err? && forall j :: 0 <= j < i ==> f(xs[j]).Ok?
  }

  /** The first failure is unique, so the error of a failed traversal is
      determined by the input. */
  lemma FirstFailureUnique<A, B>(f: A -> Result<B>, xs: seq<A>, i: int, k: int)
    requires FirstFailure(f, xs, i) && FirstFailure(f, xs, k)
    ensures i == k
  {
  }
}
