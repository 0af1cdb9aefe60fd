/** Unsigned 32-bit counters that wrap. */
module Counters {

  /** The value of a counter after n increments from zero. */
  function Wrap(n: nat): nat { n % 0x1_0000_0000 }

  function Increment(counter: nat): nat
  {
    if counter == 0xffff_ffff then 0 else counter + 1
  }

  lemma WrapNext(n: nat)
    ensures Increment(Wrap(n)) == Wrap(n + 1)
  {
  }

  /** Equal counters mean equal counts as long as a reader is not a whole wrap behind. */
  lemma WrapTells(read: nat, counted: nat)
    requires read <= counted < read + 0x1_0000_0000
    ensures Wrap(read) == Wrap(counted) <==> read == counted
  {
  }
}
