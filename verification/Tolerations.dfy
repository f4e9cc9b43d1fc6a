/** Which nodes a Sosreport is scheduled on. Whether one toleration tolerates one taint is the Kubernetes
    library's business. */
module Tolerations {
  import opened Codec

  datatype Toleration = Toleration(key: string, operator: string, value: string, effect: string)
  datatype Taint = Taint(key: string, value: string, effect: string)
  datatype Node = Node(labels: map<string, NodeName>, taints: seq<Taint>)

  type Match = (Toleration, Taint) -> bool

  ghost predicate ToleratedBySome(ts: seq<Toleration>, taint: Taint, matches: Match) {
    exists i | 0 <= i < |ts| :: matches(ts[i], taint)
  }

  ghost predicate AllTolerated(ts: seq<Toleration>, taints: seq<Taint>, matches: Match) {
    forall k | 0 <= k < |taints| :: ToleratedBySome(ts, taints[k], matches)
  }

  /** The nested loop with its break and its test for the last toleration decides the for-all-exists form. */
  method Tolerates(tolerations: seq<Toleration>, node: Node, matches: Match) returns (tolerated: bool)
    ensures tolerated <==> AllTolerated(tolerations, node.taints, matches)
  {
    for k := 0 to |node.taints|
      invariant AllTolerated(tolerations, node.taints[..k], matches)
    {
      var taint := node.taints[k];
      if |tolerations| == 0 {
        assert !ToleratedBySome(tolerations, taint, matches);
        return false;
      }
      for ti := 0 to |tolerations|
        invariant forall i | 0 <= i < ti :: !matches(tolerations[i], taint)
        invariant ti < |tolerations|
      {
        if matches(tolerations[ti], taint) {
          break;
        }
        if ti == |tolerations| - 1 {
          assert !ToleratedBySome(tolerations, taint, matches);
          return false;
        }
      }
      assert ToleratedBySome(tolerations, taint, matches);
    }
    assert node.taints[..|node.taints|] == node.taints;
    return true;
  }

  const HOSTNAME := "kubernetes.io/hostname"

  /** Reading a missing label gives the empty string. */
  function HostName(node: Node): NodeName {
    if HOSTNAME in node.labels then node.labels[HOSTNAME] else ""
  }

  ghost function EligibleNames(ts: seq<Toleration>, nodes: seq<Node>, matches: Match): set<NodeName> {
    set i | 0 <= i < |nodes| && AllTolerated(ts, nodes[i].taints, matches) :: HostName(nodes[i])
  }

  lemma AllMeansAll(ts: seq<Toleration>, taints: seq<Taint>, matches: Match)
    ensures AllTolerated(ts, taints, matches) <==> forall t | t in taints :: exists r | r in ts :: matches(r, t)
  {
    if AllTolerated(ts, taints, matches) {
      forall t | t in taints ensures exists r | r in ts :: matches(r, t) {
        var k :| 0 <= k < |taints| && taints[k] == t;
        assert ToleratedBySome(ts, taints[k], matches);
        var i :| 0 <= i < |ts| && matches(ts[i], t);
        assert ts[i] in ts;
      }
    }
    if forall t | t in taints :: exists r | r in ts :: matches(r, t) {
      forall k | 0 <= k < |taints| ensures ToleratedBySome(ts, taints[k], matches) {
        assert taints[k] in taints;
        var r :| r in ts && matches(r, taints[k]);
        var i :| 0 <= i < |ts| && ts[i] == r;
      }
    }
  }

  /** The names are the host name labels of the nodes all of whose taints are tolerated; a node without the label
      counts under the empty name. */
  lemma EligibleAreLabels(ts: seq<Toleration>, nodes: seq<Node>, matches: Match, n: NodeName)
    ensures n in EligibleNames(ts, nodes, matches) <==>
      exists node | node in nodes ::
        && AllTolerated(ts, node.taints, matches)
        && n == if "kubernetes.io/hostname" in node.labels then node.labels["kubernetes.io/hostname"] else ""
  {
    if n in EligibleNames(ts, nodes, matches) {
      var i :| 0 <= i < |nodes| && AllTolerated(ts, nodes[i].taints, matches) && HostName(nodes[i]) == n;
      assert nodes[i] in nodes;
    }
  }

  /** More tolerations never make a node ineligible, and a node without taints is always eligible. */
  lemma MoreTolerationsMoreNodes(ts: seq<Toleration>, extra: seq<Toleration>, nodes: seq<Node>, matches: Match)
    ensures EligibleNames(ts, nodes, matches) <= EligibleNames(ts + extra, nodes, matches)
    ensures forall i | 0 <= i < |nodes| && nodes[i].taints == [] ::
      HostName(nodes[i]) in EligibleNames(ts, nodes, matches)
  {
    forall taint | ToleratedBySome(ts, taint, matches) ensures ToleratedBySome(ts + extra, taint, matches) {
      var i :| 0 <= i < |ts| && matches(ts[i], taint);
      assert (ts + extra)[i] == ts[i];
    }
    forall i | 0 <= i < |nodes| && AllTolerated(ts, nodes[i].taints, matches)
      ensures AllTolerated(ts + extra, nodes[i].taints, matches)
    {
    }
  }
}
