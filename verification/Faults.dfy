/**
 The network between the program and its two remote systems. Every API call is one
 atomic step: it either goes through or fails and changes nothing. Which calls fail is
 arbitrary: `faults` lists their positions in the order in which the calls are made.
 */
module Faults {

  datatype Clock = Clock(
    faults: set<nat>,  // positions of the calls that fail
    calls: nat,        // calls made so far
    failed: bool,      // some call so far failed or was rejected by the server
    writes: nat        // calls so far that changed a remote object
  ) {
    /** The next call goes through. */
    predicate Up() { calls !in faults }

    /** One call that reads, or that fails. */
    function Tick(): Clock { this.(calls := calls + 1, failed := failed || calls in faults) }

    /** One call that changes a remote object. */
    function Wrote(): Clock { Tick().(writes := writes + 1) }

    /** One call that reaches the server and is refused by it. */
    function Refused(): Clock { Tick().(failed := true) }

    /** No call fails from here on. */
    predicate Reliable() { faults == {} }
  }

  /** `c'` is reached from `c` by making calls under the same faults. */
  predicate Later(c: Clock, c': Clock) {
    && c'.faults == c.faults
    && c.calls <= c'.calls
    && c.writes <= c'.writes
    && (c.failed ==> c'.failed)
  }
}
