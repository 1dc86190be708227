/**
 * Host-engine types that the MPS execution provider consumes but does not
 * define: graph nodes, sub-graph descriptors, compute contexts, statuses and
 * the kernel registry. Only the parts the provider reads or builds are kept.
 */
module Framework {

  /** A raw pointer as the provider sees it: null, or some opaque address. */
  datatype Ptr = Null | Addr(address: nat)

  /** The result of a framework call (`common::Status`). */
  datatype Status = Ok | Fail(message: string)

  /**
   * A graph node as exposed by the graph viewer: its stable index, operator
   * type, name, and the execution provider it is already assigned to.
   * An empty `provider` means the node is not assigned yet.
   */
  datatype Node = Node(index: nat, opType: string, name: string, provider: string)

  /**
   * The nodes of a graph viewer, listed in topological order; `None` stands
   * for a node index whose lookup yields no node.
   */
  type Graph = seq<Option<Node>>

  datatype Option<T> = None | Some(value: T)

  /** A sub-graph handed back to the host: the node indices it covers. */
  datatype IndexedSubGraph = IndexedSubGraph(nodes: seq<nat>)

  /** One unit of capability reported to the host. */
  datatype ComputeCapability = ComputeCapability(subGraph: IndexedSubGraph)

  /** A fused node produced by the host, paired with the indices of its filtered sub-graph. */
  datatype FusedNodeAndGraph = FusedNodeAndGraph(fusedNode: Node, filteredGraph: seq<nat>)

  /**
   * The per-node context the host passes to create-state: its allocation
   * and release callbacks, its allocator and the node's name.
   */
  datatype ComputeContext = ComputeContext(
    allocateFunc: Ptr, releaseFunc: Ptr, allocatorHandle: Ptr, nodeName: string)

  /**
   * The callbacks a `NodeComputeInfo` may hold. The provider only ever
   * installs its own three; `Unset` is a slot nobody filled.
   */
  datatype Callback = Unset | MpsCreateState | MpsReleaseState | MpsCompute

  /** The compiled unit for one fused node: create-state, compute, release-state. */
  datatype NodeComputeInfo = NodeComputeInfo(
    createStateFunc: Callback, computeFunc: Callback, releaseStateFunc: Callback)

  /** The host's kernel registry; its contents are not modelled. */
  class KernelRegistry {
    constructor () {}
  }
}
