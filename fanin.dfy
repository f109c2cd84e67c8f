/** Fan-in of a sequence of per-item outcomes: every outcome is collected
    first, then the lowest-indexed failure is raised, or else the values are
    returned in input order. `asyncio.gather(..., return_exceptions=True)`
    followed by the checking loop of remover.py has this meaning, and so do the
    loops of routes.py that stop at the first item that raises. */
module FanIn {
  import opened Wrappers

  predicate AllOk<T, E>(outs: seq<Result<T, E>>) {
    forall i :: 0 <= i < |outs| ==> outs[i].Ok?
  }

  /** Item `k` is the lowest-indexed failure of `outs`. */
  predicate FirstFailureAt<T, E>(outs: seq<Result<T, E>>, k: nat) {
    k < |outs| && outs[k].Err? && forall j :: 0 <= j < k ==> outs[j].Ok?
  }

  /** The batch outcome of the item outcomes `outs`. */
  function Gather<T, E>(outs: seq<Result<T, E>>): (r: Result<seq<T>, E>)
    ensures r.Ok? <==> AllOk(outs)
    ensures r.Ok? ==> |r.value| == |outs| && forall i :: 0 <= i < |outs| ==> r.value[i] == outs[i].value
  {
    if outs == [] then Ok([])
    else match outs[0]
      case Err(e) => Err(e)
      case Ok(v) =>
        match Gather(outs[1..])
        case Err(e) => Err(e)
        case Ok(vs) => Ok([v] + vs)
  }

  /** A batch whose every item succeeded returns the items' values in order. */
  lemma {:induction false} GatherAllOk<T, E>(outs: seq<Result<T, E>>, values: seq<T>)
    requires |values| == |outs|
    requires forall j :: 0 <= j < |outs| ==> outs[j] == Ok(values[j])
    ensures Gather(outs) == Ok(values)
  {
    if outs != [] {
      GatherAllOk(outs[1..], values[1..]);
      assert values == [values[0]] + values[1..];
    }
  }

  /** A failing batch raises the error of its lowest-indexed failing item. */
  lemma {:induction false} GatherFirstFailure<T, E>(outs: seq<Result<T, E>>, k: nat)
    requires FirstFailureAt(outs, k)
    ensures Gather(outs) == Err(outs[k].error)
  {
    if k > 0 {
      GatherFirstFailure(outs[1..], k - 1);
    }
  }

  /** A batch that fails raises the error of some item, and that item is its
      lowest-indexed failure. */
  lemma {:induction false} GatherFailure<T, E>(outs: seq<Result<T, E>>)
    requires Gather(outs).Err?
    ensures exists k: nat :: FirstFailureAt(outs, k) && Gather(outs).error == outs[k].error
  {
    if outs[0].Err? {
      assert FirstFailureAt(outs, 0);
    } else {
      GatherFailure(outs[1..]);
      var k: nat :| FirstFailureAt(outs[1..], k) && Gather(outs[1..]).error == outs[1..][k].error;
      assert FirstFailureAt(outs, k + 1);
    }
  }
}
