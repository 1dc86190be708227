/**
 * The MPS execution provider: construction with or without Metal, the
 * capability scan over a graph, compilation of fused nodes into compute
 * units, and the provider's identity accessors.
 */
module MpsExecutionProvider {
  import opened Framework
  import opened MpsTypes
  import opened MpsCapability

  /** The compute unit every fused node gets: the provider's three callbacks. */
  function MpsComputeInfo(): (info: NodeComputeInfo)
    ensures info.createStateFunc == MpsCreateState
    ensures info.computeFunc == MpsCompute
    ensures info.releaseStateFunc == MpsReleaseState
  {
    NodeComputeInfo(MpsCreateState, MpsCompute, MpsReleaseState)
  }

  class MpsExecutionProvider {
    var options: ProviderOptions
    var kernelRegistry: KernelRegistry?

    /**
     * Stores the options. Without Metal the kernel registry is left null;
     * with Metal it is a new registry.
     */
    constructor (options: ProviderOptions, hasMetal: bool)
      ensures this.options == options
      ensures !hasMetal ==> kernelRegistry == null
      ensures hasMetal ==> kernelRegistry != null && fresh(kernelRegistry)
    {
      this.options := options;
      if hasMetal {
        kernelRegistry := new KernelRegistry();
      } else {
        kernelRegistry := null;
      }
    }

    /** Construction without arguments: the same as passing default options. */
    constructor WithDefaultOptions(hasMetal: bool)
      ensures options == DefaultProviderOptions() && options.enableCpuFallback
      ensures !hasMetal ==> kernelRegistry == null
      ensures hasMetal ==> kernelRegistry != null && fresh(kernelRegistry)
    {
      options := DefaultProviderOptions();
      if hasMetal {
        kernelRegistry := new KernelRegistry();
      } else {
        kernelRegistry := null;
      }
    }

    /**
     * One pass over the graph in topological order collecting candidate
     * indices, then one single-node capability per candidate, in order.
     * Neither the options nor the Metal check take part.
     */
    method GetCapability(graph: Graph, kernelLookup: Node -> bool) returns (result: seq<ComputeCapability>)
      ensures |result| == |Candidates(graph, kernelLookup)|
      ensures forall k :: 0 <= k < |result| ==>
        result[k].subGraph.nodes == [Candidates(graph, kernelLookup)[k]]
    {
      var candidates: seq<nat> := [];
      var i := 0;
      while i < |graph|
        invariant 0 <= i <= |graph|
        invariant candidates == Candidates(graph[..i], kernelLookup)
      {
        assert graph[..i + 1][..i] == graph[..i];
        match graph[i] {
          case None =>
          case Some(node) =>
            if node.provider != [] {
              if node.provider == MpsProviderName {
                candidates := candidates + [node.index];
              }
            } else if kernelLookup(node) {
              candidates := candidates + [node.index];
            }
        }
        i := i + 1;
      }
      assert graph[..i] == graph;

      result := [];
      var k := 0;
      while k < |candidates|
        invariant 0 <= k <= |candidates|
        invariant |result| == k
        invariant forall m :: 0 <= m < k ==> result[m].subGraph.nodes == [candidates[m]]
      {
        result := result + [ComputeCapability(IndexedSubGraph([candidates[k]]))];
        k := k + 1;
      }
    }

    /**
     * Appends one compute unit per fused node to `nodeComputeFuncs`, leaves
     * the entries already there alone, and succeeds.
     */
    method Compile(fusedNodes: seq<FusedNodeAndGraph>, nodeComputeFuncs: seq<NodeComputeInfo>)
      returns (status: Status, funcs: seq<NodeComputeInfo>)
      ensures status == Ok
      ensures |funcs| == |nodeComputeFuncs| + |fusedNodes|
      ensures funcs[..|nodeComputeFuncs|] == nodeComputeFuncs
      ensures forall k :: |nodeComputeFuncs| <= k < |funcs| ==> funcs[k] == MpsComputeInfo()
    {
      funcs := nodeComputeFuncs;
      var i := 0;
      while i < |fusedNodes|
        invariant 0 <= i <= |fusedNodes|
        invariant |funcs| == |nodeComputeFuncs| + i
        invariant funcs[..|nodeComputeFuncs|] == nodeComputeFuncs
        invariant forall k :: |nodeComputeFuncs| <= k < |funcs| ==> funcs[k] == MpsComputeInfo()
      {
        funcs := funcs + [MpsComputeInfo()];
        i := i + 1;
      }
      status := Ok;
    }

    /** The registry set up at construction (null without Metal). */
    function GetKernelRegistry(): (r: KernelRegistry?)
      reads this
      ensures r == kernelRegistry
    {
      kernelRegistry
    }

    /** No host/device copy is provided: always null. */
    function GetDataTransfer(): (r: Ptr)
      ensures r.Null?
    {
      Null
    }

    /** No native device handle is exposed: always null. */
    function GetExecutionHandle(): (r: Ptr)
      ensures r.Null?
    {
      Null
    }
  }

  /**
   * Without Metal the provider still scans: a graph with a node assigned to
   * MPS yields a capability for it, and the registry stays null.
   */
  method ScanWithoutMetal(node: Node, kernelLookup: Node -> bool)
    returns (registry: KernelRegistry?, result: seq<ComputeCapability>)
    requires node.provider == MpsProviderName
    ensures registry == null
    ensures result == [ComputeCapability(IndexedSubGraph([node.index]))]
  {
    var provider := new MpsExecutionProvider.WithDefaultOptions(false);
    result := provider.GetCapability([Some(node)], kernelLookup);
    assert [Some(node)][..0] == [];
    assert Candidates([Some(node)], kernelLookup) == [node.index];
    registry := provider.GetKernelRegistry();
  }

  /** The registry is the same object before and after compiling, and compiling appends in order. */
  method RegistryStableAcrossCompile(fusedNodes: seq<FusedNodeAndGraph>, hasMetal: bool)
    returns (before: KernelRegistry?, after: KernelRegistry?, funcs: seq<NodeComputeInfo>)
    ensures before == after
    ensures (before == null) == !hasMetal
    ensures |funcs| == |fusedNodes|
    ensures forall k :: 0 <= k < |funcs| ==> funcs[k] == MpsComputeInfo()
  {
    var provider := new MpsExecutionProvider(DefaultProviderOptions(), hasMetal);
    before := provider.GetKernelRegistry();
    var status;
    status, funcs := provider.Compile(fusedNodes, []);
    after := provider.GetKernelRegistry();
  }
}
