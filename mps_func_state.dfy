/**
 * The three callbacks that `Compile` installs for every fused node, acting on
 * a table of the `MPSFuncState` objects currently allocated. create-state
 * allocates a fresh state, release-state frees one, compute reads nothing and
 * succeeds. The ghost sets `created` and `released` record each state's
 * history, so that "released at most once, and only after it was created"
 * is part of the table's invariant.
 */
module MpsFuncStates {
  import opened Framework
  import opened MpsTypes

  /** The state create-state builds from a compute context: the context's four fields, unchanged. */
  function StateFromContext(context: ComputeContext): FuncState
  {
    FuncState(context.allocateFunc, context.releaseFunc, context.allocatorHandle, context.nodeName)
  }

  /** The MPS function states allocated on the heap, by address. */
  class FuncStateHeap {
    var live: map<nat, FuncState>
    var nextAddress: nat
    ghost var created: set<nat>
    ghost var released: set<nat>

    /** Live states are exactly those created and not yet released; new addresses are unused. */
    ghost predicate Valid()
      reads this
    {
      released <= created
      && live.Keys == created - released
      && (forall a :: a in created ==> a < nextAddress)
    }

    constructor ()
      ensures Valid()
      ensures live == map[] && created == {} && released == {}
    {
      live := map[];
      nextAddress := 0;
      created := {};
      released := {};
    }

    /**
     * create-state: allocate a state copied from the context, hand its
     * address back through the out pointer, and return 0.
     */
    method CreateState(context: ComputeContext) returns (state: Ptr, rc: int)
      requires Valid()
      modifies this
      ensures Valid()
      ensures rc == 0
      ensures state.Addr? && state.address !in old(created)
      ensures live == old(live)[state.address := StateFromContext(context)]
      ensures created == old(created) + {state.address} && released == old(released)
    {
      state := Addr(nextAddress);
      live := live[nextAddress := StateFromContext(context)];
      created := created + {nextAddress};
      nextAddress := nextAddress + 1;
      rc := 0;
    }

    /**
     * release-state: a null state is ignored; any other state must be a live
     * one (freeing anything else is undefined) and is freed.
     */
    method ReleaseState(state: Ptr)
      requires Valid()
      requires state.Addr? ==> state.address in live
      modifies this
      ensures Valid()
      ensures created == old(created)
      ensures state.Null? ==> live == old(live) && released == old(released)
      ensures state.Addr? ==>
        live == old(live) - {state.address} && released == old(released) + {state.address}
    {
      if state.Addr? {
        live := live - {state.address};
        released := released + {state.address};
      }
    }
  }

  /** compute: not implemented yet; it touches neither the state nor the kernel context and succeeds. */
  method Compute(state: Ptr, kernelContext: Ptr) returns (status: Status)
    ensures status == Ok
  {
    status := Ok;
  }

  /**
   * Two compiled units run their lifecycles side by side: each create-state
   * yields its own state holding its own context, releasing one leaves the
   * other intact, and once both are released nothing stays allocated.
   */
  method TwoLifecycles(first: ComputeContext, second: ComputeContext)
    returns (a: Ptr, b: Ptr, stateA: FuncState, stateB: FuncState, remaining: map<nat, FuncState>)
    ensures a.Addr? && b.Addr? && a != b
    ensures stateA == StateFromContext(first) && stateB == StateFromContext(second)
    ensures remaining == map[]
  {
    var heap := new FuncStateHeap();
    var rc;
    a, rc := heap.CreateState(first);
    b, rc := heap.CreateState(second);
    var s := Compute(a, Null);
    stateA := heap.live[a.address];
    heap.ReleaseState(a);
    s := Compute(b, Null);
    stateB := heap.live[b.address];
    heap.ReleaseState(b);
    heap.ReleaseState(Null);
    remaining := heap.live;
  }
}
