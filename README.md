# MPS execution provider model

A Dafny model of the Metal Performance Shaders (MPS) execution provider of
ONNX Runtime. The provider is the plug-in through which the inference engine
hands graph nodes to Apple's GPU backend. The model covers these parts:

- **Construction.** The provider stores its options. It creates a kernel
  registry only when Metal is available. The preprocessor platform detection
  becomes a `hasMetal` parameter.
- **Capability scan (`GetCapability`).** One pass over the graph in
  topological order picks the nodes the provider will take. Each picked node
  becomes a one-node `IndexedSubGraph` wrapped in a `ComputeCapability`.
- **Compilation (`Compile`).** Every fused node gets one `NodeComputeInfo`
  holding the provider's create-state, compute and release-state callbacks.
- **Function-state lifecycle.** create-state allocates an `MPSFuncState` from
  the compute context. release-state frees it. compute is a stub that
  succeeds.
- **Identity accessors.** `GetKernelRegistry`, `GetDataTransfer` and
  `GetExecutionHandle`.

Files:

- `framework.dfy` (module `Framework`): the host types the provider uses. These
  are nodes, the graph as a sequence of optional nodes in topological order,
  sub-graphs, capabilities, compute contexts, statuses, callback slots and the
  kernel registry.
- `mps_types.dfy` (module `MpsTypes`): the records from the header
  (`MPSProviderOptions` and `MPSFuncState`) with their default values, and the
  provider's name.
- `mps_capability.dfy` (module `MpsCapability`): the acceptance rule, a
  reference definition `Candidates` of what the scan selects, and lemmas about
  it: soundness, completeness, exclusion, order, compositionality and the
  scenarios.
- `mps_func_state.dfy` (module `MpsFuncStates`): the heap of live function
  states and the three callbacks.
- `mps_execution_provider.dfy` (module `MpsExecutionProvider`): the provider
  class.

Modelling choices:

- A node's `provider` is a string, and the empty string means "not assigned".
  This matches the source's `empty()` test.
- The kernel lookup is a predicate `Node -> bool`. It is true when
  `LookUpKernel` returns a non-null kernel.
- Raw pointers are `Ptr`, which is either `Null` or an opaque address.
- `node_compute_funcs` is an in/out vector in the source. In the model it is an
  input sequence, and `Compile` returns the extended sequence.
- The callbacks are identified by tags. The source's lambdas capture nothing,
  so every fused node gets the same triple. "In input order" therefore comes
  down to "one entry per fused node, appended after the existing ones".
- The provider name `kMPSExecutionProvider` is defined in a constants header,
  which is not part of this model. The model takes its value to be
  `"MPSExecutionProvider"`. The proofs use only the fact that the name is not
  empty.

Behaviour of the code worth noting:

- A null node met during the scan is skipped silently. It is not a fatal
  error.
- Without Metal the kernel registry stays null. It is not an empty registry.
- The scan never looks at whether Metal is available. Without Metal it still
  takes nodes that are pre-assigned to MPS or that the kernel lookup accepts
  (`ScanWithoutMetal`). It does not return an empty result.

## Model

| member | source | states |
|---|---|---|
| `MpsTypes.DefaultProviderOptions` | onnxruntime/core/providers/mps/mps_execution_provider.h:15-17 | default options allow CPU fallback |
| `MpsTypes.DefaultFuncState` | onnxruntime/core/providers/mps/mps_execution_provider.h:20-25 | a default function state has null allocate/release functions, a null allocator handle and an empty node name |
| `MpsCapability.AcceptedMeans` | onnxruntime/core/providers/mps/mps_execution_provider.cc:65-86 | a node is taken iff it is assigned to MPS, or it is unassigned and the kernel lookup finds a kernel |
| `MpsCapability.OtherProviderRefused` | onnxruntime/core/providers/mps/mps_execution_provider.cc:65-70 | a node assigned to another provider is refused whatever the kernel lookup says |
| `MpsCapability.Candidates` | onnxruntime/core/providers/mps/mps_execution_provider.cc:59-87 | the scan selects at most one index per graph slot |
| `MpsCapability.CandidatesAreAcceptedSubsequence` | onnxruntime/core/providers/mps/mps_execution_provider.cc:59-87 | the selected indices are those of exactly the accepted slots, in strictly increasing topological position, with none missed |
| `MpsCapability.CandidatesSound` | onnxruntime/core/providers/mps/mps_execution_provider.cc:59-87 | every selected index belongs to a non-null node that is assigned to MPS, or is unassigned with a kernel |
| `MpsCapability.CandidatesComplete` | onnxruntime/core/providers/mps/mps_execution_provider.cc:60-86 | every non-null node meeting the acceptance rule has its index selected |
| `MpsCapability.RefusedNodesNotSelected` | onnxruntime/core/providers/mps/mps_execution_provider.cc:65-78 | when node indices are unique, a node assigned elsewhere or unassigned without a kernel is never selected |
| `MpsCapability.CandidatesKeepTopologicalOrder` | onnxruntime/core/providers/mps/mps_execution_provider.cc:59-94 | of two accepted nodes, the one earlier in topological order comes earlier in the result |
| `MpsCapability.CandidatesAppend` | onnxruntime/core/providers/mps/mps_execution_provider.cc:59-87 | scanning a concatenated graph gives the concatenation of the scans of its parts |
| `MpsCapability.RefusedSlotContributesNothing` | onnxruntime/core/providers/mps/mps_execution_provider.cc:60-78 | null nodes, nodes of other providers and kernel-less nodes are skipped without effect, as if absent |
| `MpsCapability.ThreeNodeScenario` | onnxruntime/core/providers/mps/mps_execution_provider.cc:59-87 | with A (kernel), B (no kernel) and C (assigned to MPS), the scan selects A then C |
| `MpsCapability.ForeignNodeScenario` | onnxruntime/core/providers/mps/mps_execution_provider.cc:65-70 | a single node assigned to another provider gives an empty result |
| `MpsFuncStates.FuncStateHeap.constructor` | onnxruntime/core/providers/mps/mps_execution_provider.cc:113-124 | the state table starts with nothing allocated |
| `MpsFuncStates.FuncStateHeap.CreateState` | onnxruntime/core/providers/mps/mps_execution_provider.cc:113-118 | create-state returns 0 and a fresh, never-used address that now holds a state equal to the context's four fields, and nothing else changes |
| `MpsFuncStates.FuncStateHeap.ReleaseState` | onnxruntime/core/providers/mps/mps_execution_provider.cc:121-124 | release-state with null changes nothing; with a live state it frees exactly that state, once |
| `MpsFuncStates.Compute` | onnxruntime/core/providers/mps/mps_execution_provider.cc:127-139 | compute returns OK |
| `MpsFuncStates.TwoLifecycles` | onnxruntime/core/providers/mps/mps_execution_provider.cc:113-139 | two units get distinct states, each holding its own context, and after create/compute/release on both nothing stays allocated |
| `MpsExecutionProvider.MpsComputeInfo` | onnxruntime/core/providers/mps/mps_execution_provider.cc:110-139 | every compute unit holds create-state in its create slot, compute in its compute slot and release-state in its release slot |
| `MpsExecutionProvider.MpsExecutionProvider.constructor` | onnxruntime/core/providers/mps/mps_execution_provider.cc:22-47 | options are stored unchanged; the registry is null without Metal and a fresh registry with Metal |
| `MpsExecutionProvider.MpsExecutionProvider.WithDefaultOptions` | onnxruntime/core/providers/mps/mps_execution_provider.h:30 | construction without arguments stores the default options, with the same registry behaviour |
| `MpsExecutionProvider.MpsExecutionProvider.GetCapability` | onnxruntime/core/providers/mps/mps_execution_provider.cc:53-98 | the result has one capability per selected index, in order, each holding exactly that one node index, and depends only on the graph and the lookup |
| `MpsExecutionProvider.MpsExecutionProvider.Compile` | onnxruntime/core/providers/mps/mps_execution_provider.cc:100-145 | appends exactly one MPS compute unit per fused node, keeps earlier entries, returns OK |
| `MpsExecutionProvider.MpsExecutionProvider.GetKernelRegistry` | onnxruntime/core/providers/mps/mps_execution_provider.cc:147-150 | returns the registry field set at construction |
| `MpsExecutionProvider.MpsExecutionProvider.GetDataTransfer` | onnxruntime/core/providers/mps/mps_execution_provider.cc:152-156 | always null |
| `MpsExecutionProvider.MpsExecutionProvider.GetExecutionHandle` | onnxruntime/core/providers/mps/mps_execution_provider.h:43-45 | always null |
| `MpsExecutionProvider.ScanWithoutMetal` | onnxruntime/core/providers/mps/mps_execution_provider.cc:39-42 | without Metal the registry is null, yet a node assigned to MPS is still reported as a capability |
| `MpsExecutionProvider.RegistryStableAcrossCompile` | onnxruntime/core/providers/mps/mps_execution_provider.cc:147-150 | the registry is the same before and after compiling, null exactly when Metal is absent, and compiling into an empty vector yields one MPS compute unit per fused node |

## Left out

- Logging (`LOGS` and the static logger singleton): it has no functional effect.
- Platform detection (`__APPLE__`, `TARGET_OS_*`): it is replaced by the `hasMetal` constructor parameter.
- The body of compute and `Ort::KernelContext`: the source has only a placeholder, so compute is modelled as a no-op that returns OK.
- Internals of `KernelRegistry`, `GraphViewer`, `IKernelLookup` and `ComputeCapability`: these are foreign framework types. They become an empty class, a sequence of optional nodes, a predicate and records.
- The provider factory, registration glue, `GetProvider`, the fixed device count and `Initialize`/`Shutdown`: these are glue around registry functions that are not part of this model.
- The destructor: it only logs.
- `shared_ptr`/`unique_ptr` ownership: there is no reference counting. Only the table of live function states is modelled.
- MpsFuncStates.FuncStateHeap.ReleaseState: freeing a pointer that is not live is undefined behaviour in the source. The model requires a live state instead of modelling that behaviour.
- MpsFuncStates.FuncStateHeap.CreateState: addresses stand for object identity and are never reused. C++ `new` may hand out the address of a state deleted earlier; the model does not capture that reuse.
- MpsExecutionProvider.MpsExecutionProvider.GetCapability: determinism is not stated as a separate lemma. The result is determined by the `Candidates` function of the graph and the lookup, so equal inputs give equal outputs.
