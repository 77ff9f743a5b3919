/** Clocks as functions from the number of readings so far to times. */
module Clocks {
  type Clock = nat -> real

  ghost predicate NonDecreasing(clock: Clock) {
    forall i: nat, j: nat | i <= j :: clock(i) <= clock(j)
  }
}
