/**
 * The acceptance rule of the MPS capability scan and a reference definition
 * of the indices the scan selects, with the properties the scan promises:
 * it keeps exactly the accepted nodes, in topological order, and skips null
 * nodes and nodes claimed by another provider.
 */
module MpsCapability {
  import opened Framework
  import opened MpsTypes

  /**
   * Whether the scan takes a non-null node. A node already assigned to a
   * provider is taken only if that provider is MPS; an unassigned node is
   * taken exactly when the kernel lookup finds an MPS kernel for it.
   */
  predicate Accepted(node: Node, hasKernel: Node -> bool)
  {
    if node.provider != [] then node.provider == MpsProviderName else hasKernel(node)
  }

  /** The acceptance rule read as "assigned to MPS, or unassigned with a kernel", both ways. */
  lemma AcceptedMeans(node: Node, hasKernel: Node -> bool)
    ensures Accepted(node, hasKernel) <==>
      node.provider == MpsProviderName || (node.provider == [] && hasKernel(node))
  {
  }

  /** A node assigned to any other provider is refused, whatever the kernel lookup says. */
  lemma OtherProviderRefused(node: Node, hasKernel: Node -> bool)
    requires node.provider != [] && node.provider != MpsProviderName
    ensures !Accepted(node, hasKernel)
  {
  }

  /** Whether a graph slot holds a node the scan takes. */
  predicate SlotAccepted(slot: Option<Node>, hasKernel: Node -> bool)
  {
    slot.Some? && Accepted(slot.value, hasKernel)
  }

  /** The node indices the scan selects from `graph`, in the order it meets them. */
  function Candidates(graph: Graph, hasKernel: Node -> bool): (r: seq<nat>)
    ensures |r| <= |graph|
  {
    if |graph| == 0 then []
    else
      var last := graph[|graph| - 1];
      Candidates(graph[..|graph| - 1], hasKernel)
        + (if SlotAccepted(last, hasKernel) then [last.value.index] else [])
  }

  /** The positions in `graph` of the slots the scan takes, in increasing order. */
  function AcceptedPositions(graph: Graph, hasKernel: Node -> bool): seq<nat>
  {
    if |graph| == 0 then []
    else
      AcceptedPositions(graph[..|graph| - 1], hasKernel)
        + (if SlotAccepted(graph[|graph| - 1], hasKernel) then [|graph| - 1] else [])
  }

  /** Every position of `positions` is a slot of `graph` that the scan takes. */
  ghost predicate OnlyAccepted(graph: Graph, hasKernel: Node -> bool, positions: seq<nat>)
  {
    forall k :: 0 <= k < |positions| ==>
      positions[k] < |graph| && SlotAccepted(graph[positions[k]], hasKernel)
  }

  /** `positions` lists every slot of `graph` that the scan takes. */
  ghost predicate AllAccepted(graph: Graph, hasKernel: Node -> bool, positions: seq<nat>)
  {
    forall j :: 0 <= j < |graph| && SlotAccepted(graph[j], hasKernel) ==> j in positions
  }

  ghost predicate StrictlyIncreasing(positions: seq<nat>)
  {
    forall k, l :: 0 <= k < l < |positions| ==> positions[k] < positions[l]
  }

  /**
   * The scan's result is the accepted subsequence of the graph: position k of
   * the result is the index of the k-th accepted slot, the accepted slots are
   * listed in topological order, and none is missed.
   */
  lemma {:induction false} CandidatesAreAcceptedSubsequence(graph: Graph, hasKernel: Node -> bool)
    ensures var p := AcceptedPositions(graph, hasKernel);
      |p| == |Candidates(graph, hasKernel)|
      && OnlyAccepted(graph, hasKernel, p)
      && AllAccepted(graph, hasKernel, p)
      && StrictlyIncreasing(p)
      && (forall k :: 0 <= k < |p| ==> Candidates(graph, hasKernel)[k] == graph[p[k]].value.index)
  {
    if |graph| > 0 {
      var n := |graph| - 1;
      var front := graph[..n];
      CandidatesAreAcceptedSubsequence(front, hasKernel);
      var pf := AcceptedPositions(front, hasKernel);
      var p := AcceptedPositions(graph, hasKernel);
      assert forall k :: 0 <= k < |pf| ==> pf[k] < n && graph[pf[k]] == front[pf[k]];
      assert forall j :: 0 <= j < n ==> graph[j] == front[j];
      assert forall k :: 0 <= k < |pf| ==> p[k] == pf[k];
    }
  }

  /** Soundness: every selected index is that of a non-null node the acceptance rule takes. */
  lemma CandidatesSound(graph: Graph, hasKernel: Node -> bool, x: nat)
    requires x in Candidates(graph, hasKernel)
    ensures exists j :: (0 <= j < |graph| && graph[j].Some? && graph[j].value.index == x
                         && (graph[j].value.provider == MpsProviderName
                             || (graph[j].value.provider == [] && hasKernel(graph[j].value))))
  {
    CandidatesAreAcceptedSubsequence(graph, hasKernel);
    var c := Candidates(graph, hasKernel);
    var p := AcceptedPositions(graph, hasKernel);
    var k :| 0 <= k < |c| && c[k] == x;
    AcceptedMeans(graph[p[k]].value, hasKernel);
  }

  /** Completeness: the index of every non-null node the acceptance rule takes is selected. */
  lemma CandidatesComplete(graph: Graph, hasKernel: Node -> bool, j: nat)
    requires j < |graph| && graph[j].Some?
    requires graph[j].value.provider == MpsProviderName
          || (graph[j].value.provider == [] && hasKernel(graph[j].value))
    ensures graph[j].value.index in Candidates(graph, hasKernel)
  {
    CandidatesAreAcceptedSubsequence(graph, hasKernel);
    AcceptedMeans(graph[j].value, hasKernel);
    var p := AcceptedPositions(graph, hasKernel);
    var k :| 0 <= k < |p| && p[k] == j;
  }

  /** No two nodes of the graph share an index, as in the host's graphs. */
  ghost predicate UniqueIndices(graph: Graph)
  {
    forall i, j ::
      (0 <= i < |graph| && 0 <= j < |graph| && graph[i].Some? && graph[j].Some?
       && graph[i].value.index == graph[j].value.index) ==> i == j
  }

  /**
   * A node assigned to another provider never appears in the result, and
   * neither does an unassigned node without a kernel or a position whose
   * slot is null.
   */
  lemma RefusedNodesNotSelected(graph: Graph, hasKernel: Node -> bool, j: nat)
    requires UniqueIndices(graph)
    requires j < |graph| && graph[j].Some?
    requires (graph[j].value.provider != [] && graph[j].value.provider != MpsProviderName)
          || (graph[j].value.provider == [] && !hasKernel(graph[j].value))
    ensures graph[j].value.index !in Candidates(graph, hasKernel)
  {
    if graph[j].value.index in Candidates(graph, hasKernel) {
      CandidatesSound(graph, hasKernel, graph[j].value.index);
    }
  }

  /** Order: of two accepted nodes, the earlier one in topological order comes first in the result. */
  lemma CandidatesKeepTopologicalOrder(graph: Graph, hasKernel: Node -> bool, i: nat, j: nat)
    requires i < j < |graph|
    requires SlotAccepted(graph[i], hasKernel) && SlotAccepted(graph[j], hasKernel)
    ensures exists k, l :: (0 <= k < l < |Candidates(graph, hasKernel)|
                            && Candidates(graph, hasKernel)[k] == graph[i].value.index
                            && Candidates(graph, hasKernel)[l] == graph[j].value.index)
  {
    CandidatesAreAcceptedSubsequence(graph, hasKernel);
    var p := AcceptedPositions(graph, hasKernel);
    var k :| 0 <= k < |p| && p[k] == i;
    var l :| 0 <= l < |p| && p[l] == j;
  }

  /** The scan is compositional: scanning two pieces of a graph and joining the results. */
  lemma {:induction false} CandidatesAppend(front: Graph, back: Graph, hasKernel: Node -> bool)
    ensures Candidates(front + back, hasKernel)
         == Candidates(front, hasKernel) + Candidates(back, hasKernel)
  {
    if |back| > 0 {
      var g := front + back;
      var n := |back| - 1;
      assert g[..|g| - 1] == front + back[..n];
      CandidatesAppend(front, back[..n], hasKernel);
    } else {
      assert front + back == front;
    }
  }

  /** A slot the scan refuses (null, other provider, no kernel) leaves the result as if it were absent. */
  lemma RefusedSlotContributesNothing(graph: Graph, hasKernel: Node -> bool, j: nat)
    requires j < |graph| && !SlotAccepted(graph[j], hasKernel)
    ensures Candidates(graph, hasKernel) == Candidates(graph[..j] + graph[j + 1..], hasKernel)
  {
    var front, slot, back := graph[..j], [graph[j]], graph[j + 1..];
    assert graph == front + slot + back;
    assert Candidates(slot, hasKernel) == [] by {
      assert slot[..0] == [];
    }
    CandidatesAppend(front + slot, back, hasKernel);
    CandidatesAppend(front, slot, hasKernel);
    CandidatesAppend(front, back, hasKernel);
  }

  /**
   * Three nodes: A unassigned with a kernel, B unassigned without one, C
   * already assigned to MPS. The scan selects A and C, in that order.
   */
  lemma ThreeNodeScenario(a: Node, b: Node, c: Node, hasKernel: Node -> bool)
    requires a.provider == [] && hasKernel(a)
    requires b.provider == [] && !hasKernel(b)
    requires c.provider == MpsProviderName
    ensures Candidates([Some(a), Some(b), Some(c)], hasKernel) == [a.index, c.index]
  {
    var g := [Some(a), Some(b), Some(c)];
    assert [Some(a)][..0] == [];
    assert Candidates([Some(a)], hasKernel) == [a.index];
    assert [Some(a), Some(b)][..1] == [Some(a)];
    assert Candidates([Some(a), Some(b)], hasKernel) == [a.index];
    assert g[..2] == [Some(a), Some(b)];
  }

  /** A lone node assigned to another provider yields nothing. */
  lemma ForeignNodeScenario(n: Node, hasKernel: Node -> bool)
    requires n.provider != [] && n.provider != MpsProviderName
    ensures Candidates([Some(n)], hasKernel) == []
  {
    assert [Some(n)][..0] == [];
  }
}
