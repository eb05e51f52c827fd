// The usual Some/None datatype, usable with `:-`.
module Wrappers {

  datatype Option<+T> = None | Some(value: T) {
    predicate IsFailure() {
      None?
    }

    function PropagateFailure<U>(): Option<U>
      requires None?
    {
      None
    }

    function Extract(): T
      requires Some?
    {
      value
    }
  }
}

// What several components use of their collections.
module Collections {

  function SetOf(s: seq<nat>): set<nat> {
    set x | x in s
  }

  /** The capacity of an array that is to grow. */
  function GrowCapacity(capacity: nat): nat {
    if capacity < 8 then 8 else 2 * capacity
  }
}
