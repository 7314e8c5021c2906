/** The R-style `which` helper of geedar_lib/utils.py. */
module Utils {
  import opened Wrappers

  /** What `which` is called with: something `iter()` accepts, with the
      truthiness of each element already taken, or anything else. */
  datatype Argument = Iterable(items: seq<bool>) | NotIterable

  datatype WhichError = NotIterableError

  /** The list comprehension over `enumerate`, indices counted from `offset`. */
  function IndicesFrom(xs: seq<bool>, offset: nat): (r: seq<nat>)
    ensures forall k :: 0 <= k < |r| ==> offset <= r[k] < offset + |xs|
    ensures forall k :: 0 <= k < |r| ==> xs[r[k] - offset]
    ensures forall j, k :: 0 <= j < k < |r| ==> r[j] < r[k]
    decreases |xs|
  {
    if xs == [] then []
    else if xs[0] then [offset] + IndicesFrom(xs[1..], offset + 1)
    else IndicesFrom(xs[1..], offset + 1)
  }

  /** Indices of the truthy elements of `xs`. */
  function Indices(xs: seq<bool>): seq<nat>
  {
    IndicesFrom(xs, 0)
  }

  /** `which(self)`: the indices of the truthy elements, or the exception for a non-iterable. */
  function Which(arg: Argument): (r: Result<seq<nat>, WhichError>)
    ensures arg.NotIterable? <==> r.Err?
    ensures arg.Iterable? ==> r == Ok(Indices(arg.items))
  {
    match arg
    case Iterable(items) => Ok(Indices(items))
    case NotIterable => Err(NotIterableError)
  }

  /** Every truthy index is in the result (the other direction of the comprehension's filter). */
  lemma {:induction false} IndicesFromComplete(xs: seq<bool>, offset: nat, i: nat)
    requires i < |xs| && xs[i]
    ensures offset + i in IndicesFrom(xs, offset)
    decreases |xs|
  {
    if i > 0 {
      IndicesFromComplete(xs[1..], offset + 1, i - 1);
    }
  }

  /** `which(xs)` holds exactly the indices of truthy elements, strictly ascending and in range. */
  lemma {:induction false} IndicesExact(xs: seq<bool>)
    ensures forall i :: i in Indices(xs) <==> 0 <= i < |xs| && xs[i]
    ensures forall j, k :: 0 <= j < k < |Indices(xs)| ==> Indices(xs)[j] < Indices(xs)[k]
  {
    forall i | 0 <= i < |xs| && xs[i] ensures i in Indices(xs) {
      IndicesFromComplete(xs, 0, i);
    }
  }

  /** An input with no truthy element, the empty one included, gives `[]`. */
  lemma {:induction false} IndicesNoneTruthy(xs: seq<bool>, offset: nat)
    requires forall i :: 0 <= i < |xs| ==> !xs[i]
    ensures IndicesFrom(xs, offset) == []
    decreases |xs|
  {
    if xs != [] {
      IndicesNoneTruthy(xs[1..], offset + 1);
    }
  }
}
