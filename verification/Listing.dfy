/** The order in which the command line lists targets (cmd/nexthop/ctl.go). */
module Listing {
  import opened Configuration
  import opened StableSort

  datatype TargetStatus = TargetStatus(
    name: string, ip: string, weight: int, probe: ProbeMethod, up: bool)

  function StatusWeight(t: TargetStatus): int {
    t.weight
  }

  /** In-place insertion sort of a copy: the unique stable descending order, the
      one SortByKey computes. */
  method SortedByWeight(ts: seq<TargetStatus>) returns (sorted: seq<TargetStatus>)
    ensures StableOrder(ts, sorted, StatusWeight)
    ensures forall p, q :: 0 <= p < q < |sorted| ==> sorted[p].weight >= sorted[q].weight
    ensures sorted == SortByKey(ts, StatusWeight)
  {
    var out := new TargetStatus[|ts|](i requires 0 <= i < |ts| => ts[i]);
    assert out[..] == ts;
    var i := 1;
    while i < out.Length
      invariant 1 <= i && (i <= out.Length || out.Length == 0)
      invariant forall p, q :: 0 <= p < q < i && q < out.Length ==> out[p].weight >= out[q].weight
      invariant SameClasses(out[..], ts, StatusWeight)
    {
      var j := i;
      while j > 0 && out[j - 1].weight < out[j].weight
        invariant 0 <= j <= i < out.Length
        invariant forall p, q :: 0 <= p < q <= i && q != j ==> out[p].weight >= out[q].weight
        invariant SameClasses(out[..], ts, StatusWeight)
      {
        ghost var before := out[..];
        out[j - 1], out[j] := out[j], out[j - 1];
        SwapKeepsOrder(before, out[..], j, StatusWeight);
        SameClassesTrans(out[..], before, ts, StatusWeight);
        j := j - 1;
      }
      i := i + 1;
    }
    sorted := out[..];
    SortByKeyIsStable(ts, StatusWeight);
    StableOrderUnique(sorted, SortByKey(ts, StatusWeight), StatusWeight);
  }
}
