/**
 * The plain records declared by the MPS execution provider's header:
 * its options and the per-node state its create-state callback allocates.
 */
module MpsTypes {
  import opened Framework

  /** Configuration captured when the provider is built. */
  datatype ProviderOptions = ProviderOptions(enableCpuFallback: bool)

  /** `MPSProviderOptions()`: CPU fallback is allowed unless switched off. */
  function DefaultProviderOptions(): (o: ProviderOptions)
    ensures o.enableCpuFallback
  {
    ProviderOptions(enableCpuFallback := true)
  }

  /** The state handed to the compute callback of one node. */
  datatype FuncState = FuncState(
    allocateFunc: Ptr, releaseFunc: Ptr, allocatorHandle: Ptr, nodeName: string)

  /** `MPSFuncState()`: every pointer null and the node name empty. */
  function DefaultFuncState(): (s: FuncState)
    ensures s.allocateFunc.Null? && s.releaseFunc.Null? && s.allocatorHandle.Null?
    ensures s.nodeName == []
  {
    FuncState(Null, Null, Null, "")
  }

  /** The provider's name, as the host records it on assigned nodes. */
  const MpsProviderName: string := "MPSExecutionProvider"
}
