/** The check a collector makes of its own batch before anyone sees it (src/collector.rs:260-305). */
module Collector {
  import opened Domain
  import opened BatchLaws

  datatype Refusal = DuplicateFlowId(flowId: FlowId) | InvalidSnapshot(flowId: FlowId)

  /** What is wrong with the snapshot at `i`, given those before it. */
  ghost function Flaw(flows: seq<Flow>, i: nat): Option<Refusal>
    requires i < |flows|
  {
    if exists j :: 0 <= j < i && flows[j].flowId == flows[i].flowId then Some(DuplicateFlowId(flows[i].flowId))
    else if Malformed(flows[i]) then Some(InvalidSnapshot(flows[i].flowId))
    else None
  }

  /** A batch passes when its flow ids are distinct and its snapshots valid; otherwise the first flaw is reported. */
  method ValidateBatch(flows: seq<Flow>) returns (refusal: Option<Refusal>)
    ensures refusal.None? <==> DistinctIds(flows) && forall i :: 0 <= i < |flows| ==> !Malformed(flows[i])
    ensures refusal.Some? ==>
              exists i ::
                0 <= i < |flows| && Flaw(flows, i) == refusal && forall j :: 0 <= j < i ==> Flaw(flows, j) == None
  {
    var ids: set<FlowId> := {};
    for i := 0 to |flows|
      invariant forall id :: id in ids <==> exists j :: 0 <= j < i && flows[j].flowId == id
      invariant DistinctIds(flows[..i])
      invariant forall j :: 0 <= j < i ==> Flaw(flows, j) == None && !Malformed(flows[j])
    {
      if flows[i].flowId in ids {
        assert Flaw(flows, i) == Some(DuplicateFlowId(flows[i].flowId));
        return Some(DuplicateFlowId(flows[i].flowId));
      }
      ids := ids + {flows[i].flowId};
      ValidUnlessMalformed(flows[i]);
      if !ValidFlow(flows[i]) {
        assert Flaw(flows, i) == Some(InvalidSnapshot(flows[i].flowId));
        return Some(InvalidSnapshot(flows[i].flowId));
      }
    }
    assert flows[..|flows|] == flows;
    return None;
  }
}
