/**
  The lifecycle states a managed projection reports. Only the enumeration
  itself is modelled: which states exist, in declaration order. The
  declaration order is not an order of transitions, and no transitions are
  modelled.
 */
module ProjectionState {

  datatype ManagedProjectionState =
    | Creating
    | Loading
    | Loaded
    | Preparing
    | Prepared
    | Writing
    | Stopped
    | Completed
    | Aborted
    | Faulted
    | Starting
    | LoadingState
    | Running
    | Stopping
}
