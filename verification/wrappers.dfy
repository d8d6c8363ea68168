/** Optional values, and the "keep the successful items" step that follows
    every per-item fan-out of the program (`Promise.all` over a list, then a
    filter that drops the items whose fetch failed). */
module Wrappers {

  /** JavaScript's `null`/`undefined` versus a value. */
  datatype Option<+T> = None | Some(value: T) {

    /** The value, or `default` when absent (the `??` operator). */
    function GetOr(default: T): T {
      match this
      case Some(v) => v
      case None => default
    }
  }

  /** The values of the `Some` outcomes, in the order of the outcomes. */
  function Successes<T>(outcomes: seq<Option<T>>): (r: seq<T>)
    ensures |r| <= |outcomes|
    ensures forall i :: 0 <= i < |r| ==> Some(r[i]) in outcomes
    ensures forall i :: 0 <= i < |outcomes| && outcomes[i].Some? ==> outcomes[i].value in r
    ensures (forall i :: 0 <= i < |outcomes| ==> outcomes[i].Some?) ==>
              |r| == |outcomes| && forall i :: 0 <= i < |r| ==> Some(r[i]) == outcomes[i]
  {
    if |outcomes| == 0 then []
    else
      var rest := Successes(outcomes[1..]);
      assert outcomes == [outcomes[0]] + outcomes[1..];
      if outcomes[0].Some? then [outcomes[0].value] + rest else rest
  }

  /** Filtering distributes over concatenation: the survivors of the first
      part precede the survivors of the second, so order is kept. */
  lemma {:induction false} SuccessesAppend<T>(a: seq<Option<T>>, b: seq<Option<T>>)
    ensures Successes(a + b) == Successes(a) + Successes(b)
  {
    if |a| == 0 {
      assert a + b == b;
    } else {
      assert (a + b)[1..] == a[1..] + b;
      SuccessesAppend(a[1..], b);
    }
  }

  /** A failed outcome contributes nothing: dropping it leaves the result as it was. */
  lemma {:induction false} SuccessesSkipFailure<T>(a: seq<Option<T>>, b: seq<Option<T>>)
    ensures Successes(a + [None] + b) == Successes(a + b)
  {
    var none: seq<Option<T>> := [None];
    assert Successes(none) == [] by {
      assert none[1..] == [];
    }
    SuccessesAppend(a + none, b);
    SuccessesAppend(a, none);
    SuccessesAppend(a, b);
  }
}
