/** What several of the modules are about. */
module Basics {
  datatype Option<T> = None | Some(value: T)

  /** Where a node is dialled. */
  type Addr = string
}

/** What becomes of a command to a node. */
module Commands {
  /** Done, failed after taking effect, or failed without. */
  datatype Outcome = Done | Lost | Refused
}
