/** Optional values, results and the exceptions the gate editor can raise. */
module Outcomes {

  datatype Option<+T> = None | Some(value: T)

  /** The exceptions of the gate editor, named by their cause. */
  datatype Fault =
    | NoPatch                // the gate's artists have not been created yet (AttributeError)
    | NoGuideLine            // the line to the proposed vertex was never drawn (AttributeError on None)
    | EmptyVertexList        // a vertex list was indexed while empty (IndexError)
    | NoClosestInfo          // no closest vertex was recorded before a move (AttributeError)
    | VertexIndexOutOfRange  // the recorded vertex index is past the ring (IndexError)
    | NoChannels             // a gate was built before any channel pair was chosen (TypeError)
    | NotInList              // list.remove of a gate that is not in the list (ValueError)

  /** A computation that either produces a value or fails without changing anything. */
  datatype Result<+T> = Ok(value: T) | Err(fault: Fault)

  /** What an event handler leaves behind: it either returned, or raised after
      the mutations that ran before the raise. Either way `value` is the state
      the program continues from. */
  datatype Outcome<+T> = Returned(value: T) | Raised(value: T, fault: Fault)
}
