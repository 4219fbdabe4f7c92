/** Long waits are cut into slices so that a cancellation is noticed soon. */
module Slices {
  import opened Base

  /** `max(1ms, min(time left, cap))` with the time left truncated to whole milliseconds. */
  function Slice(left: Time, capMs: nat): nat
    requires left > 0
  {
    var ms := left / NS_PER_MS;
    if ms < 1 then 1 else if ms < capMs then ms else if capMs < 1 then 1 else capMs
  }

  /** A slice is at least a millisecond, at most the cap, and overshoots the time left by less than one. */
  lemma SliceFits(left: Time, capMs: nat)
    requires left > 0 && capMs >= 1
    ensures 1 <= Slice(left, capMs) <= capMs
    ensures Slice(left, capMs) * NS_PER_MS < left + NS_PER_MS
    ensures Slice(left, capMs) < capMs ==> left < (Slice(left, capMs) + 1) * NS_PER_MS
  {}
}
