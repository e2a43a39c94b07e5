/** The batch of customer requests offered to the driver in a state. */
module RequestBatch {
  import opened CabTypes
  import opened ActionSpaces

  /** Largest number of customer requests offered at once. */
  const MaxRequests: nat := 15

  /** Mean of the Poisson-distributed request count at each location; no
      mean, and so no count, at any other location. */
  function RequestMean(loc: nat): (r: Option<nat>)
    ensures r.Some? <==> loc < m
    ensures loc == 1 ==> r == Some(15)
  {
    if loc == 0 then Some(2)
    else if loc == 1 then Some(15)
    else if loc == 2 then Some(4)
    else if loc == 3 then Some(7)
    else if loc == 4 then Some(8)
    else None
  }

  /** The request count capped at MaxRequests. The cap never exceeds the
      number of non-idle actions, so sampling without replacement from them
      always succeeds. */
  function CapRequests(n: nat): (r: nat)
    ensures r <= n && r <= MaxRequests
    ensures n <= MaxRequests ==> r == n
    ensures n > MaxRequests ==> r == MaxRequests
    ensures r <= NumActions - 1
  {
    if n > MaxRequests then MaxRequests else n
  }

  /** Raised when the location has no request mean: the count is never set. */
  datatype RequestError = CountUnassigned

  /** A candidate sample of k distinct non-idle action indices. */
  predicate ValidSample(sample: seq<nat>, k: nat) {
    |sample| == k &&
    (forall j :: 0 <= j < |sample| ==> 1 <= sample[j] < NumActions) &&
    (forall i, j :: 0 <= i < j < |sample| ==> sample[i] != sample[j])
  }

  /** Assembles the request batch of state s. `drawn` is the Poisson draw for
      the location and `sample` the draw of CapRequests(drawn) distinct
      indices from 1 .. NumActions - 1; the idle index 0 is put first and
      every index is resolved against the action space. */
  method Requests(actionSpace: seq<Action>, s: State, drawn: nat, sample: seq<nat>)
    returns (r: Result<(seq<nat>, seq<Action>), RequestError>)
    requires |actionSpace| == NumActions
    requires forall k :: 0 <= k < NumActions ==> actionSpace[k] == ActionAt(k)
    requires ValidSample(sample, CapRequests(drawn))
    ensures r.Failure? <==> RequestMean(s.loc).None?
    ensures r.Success? ==>
      var (indices, actions) := r.value;
      |indices| == 1 + CapRequests(drawn) && indices[0] == 0 && indices[1..] == sample &&
      |actions| == |indices| &&
      (forall k :: 0 <= k < |indices| ==> indices[k] < NumActions && actions[k] == actionSpace[indices[k]])
    ensures r.Success? ==>
      var actions := r.value.1;
      actions[0] == Idle &&
      (forall k :: 1 <= k < |actions| ==> ValidAction(actions[k]) && actions[k].pickup != actions[k].drop) &&
      (forall i, j :: 0 <= i < j < |actions| ==> actions[i] != actions[j])
  {
    if RequestMean(s.loc).None? {
      return Failure(CountUnassigned);
    }
    var indices := [0] + sample;
    var actions := [];
    var k := 0;
    while k < |indices|
      invariant 0 <= k <= |indices|
      invariant |actions| == k
      invariant forall q :: 0 <= q < k ==> actions[q] == ActionAt(indices[q])
    {
      actions := actions + [actionSpace[indices[k]]];
      k := k + 1;
    }
    forall i, j | 0 <= i < j < |actions|
      ensures actions[i] != actions[j]
    {
      if i > 0 {
        ActionAtOrdered(if indices[i] < indices[j] then indices[i] else indices[j],
                        if indices[i] < indices[j] then indices[j] else indices[i]);
      }
    }
    r := Success((indices, actions));
  }
}
