/** How long the loops ask the kernel to block. */
module Blocking {
  import opened Base
  import opened WaiterTable

  const INT_MAX := 0x7fff_ffff
  const NO_TIMEOUT := -1

  /** The timeout, in milliseconds, both loops derive from the cached deadline; -1 is "no limit". */
  function BlockTimeout(next: Option<Time>, now: Time): int
  {
    if next.None? then NO_TIMEOUT
    else
      var remaining := next.value - now;
      if remaining <= 0 then 0
      else if remaining / NS_PER_MS < INT_MAX then remaining / NS_PER_MS
      else INT_MAX
  }

  /** `epoll::reactor::wait` clamps once more before the system call. */
  function EpollWaitTimeout(timeoutMs: int): int
  {
    if timeoutMs >= 0 then (if timeoutMs < INT_MAX then timeoutMs else INT_MAX) else NO_TIMEOUT
  }

  datatype Timespec = Timespec(sec: int, nsec: int)

  /** `to_kernel_timespec`: milliseconds split into seconds and nanoseconds. */
  function ToKernelTimespec(timeoutMs: int): Timespec
  {
    var ms := if timeoutMs < 0 then 0 else timeoutMs;
    Timespec(ms / 1000, (ms - ms / 1000 * 1000) * NS_PER_MS)
  }

  /** The time limit in nanoseconds that `epoll_wait` is given. */
  function EpollLimit(next: Option<Time>, now: Time): Option<int>
  {
    var ms := EpollWaitTimeout(BlockTimeout(next, now));
    if ms == NO_TIMEOUT then None else Some(ms * NS_PER_MS)
  }

  /** The time limit in nanoseconds that `io_uring_wait_cqe_timeout` is given. */
  function UringLimit(next: Option<Time>, now: Time): Option<int>
  {
    var ms := BlockTimeout(next, now);
    if ms == NO_TIMEOUT then None
    else var ts := ToKernelTimespec(ms); Some(ts.sec * 1000 * NS_PER_MS + ts.nsec)
  }

  ghost predicate BlocksNoLongerThan(limit: Option<int>, armed: map<Key, Waiter>, now: Time)
  {
    if limit.None? then Timed(armed) == {}
    else limit.value >= 0 &&
         forall k :: k in armed && armed[k].deadline.Some? ==>
           limit.value == 0 || limit.value <= armed[k].deadline.value - now
  }

  /** Splitting a timeout into seconds and nanoseconds loses nothing and gives a legal timespec. */
  lemma TimespecIsExact(timeoutMs: int)
    ensures var ts := ToKernelTimespec(timeoutMs);
            && 0 <= ts.nsec < 1_000_000_000
            && ts.sec * 1_000_000_000 + ts.nsec == if timeoutMs < 0 then 0 else timeoutMs * 1_000_000
  {
    var ms := if timeoutMs < 0 then 0 else timeoutMs;
    assert ms == ms / 1000 * 1000 + ms % 1000;
  }

  /**
   * Bounded blocking: what reaches the kernel is unlimited only when no timed wait is armed, and
   * otherwise never longer than the time left to any armed deadline. Both backends ask for the same.
   */
  lemma BoundedBlocking(next: Option<Time>, armed: map<Key, Waiter>, now: Time)
    requires LowerBound(next, armed)
    ensures BlocksNoLongerThan(EpollLimit(next, now), armed, now)
    ensures UringLimit(next, now) == EpollLimit(next, now)
  {
    forall k | k in armed && armed[k].deadline.Some? ensures k in Timed(armed) && NotLater(next.value, armed, k) {
      assert k in Timed(armed);
    }
    var ms := BlockTimeout(next, now);
    if next.Some? && next.value > now {
      assert ms * NS_PER_MS <= next.value - now;
    }
    TimespecIsExact(ms);
  }

  /** And it is not needlessly short: unless clamped, less than a millisecond is cut off. */
  lemma BlocksAlmostUntilDeadline(next: Time, now: Time)
    requires now < next && (next - now) / NS_PER_MS <= INT_MAX
    ensures next - now - BlockTimeout(Some(next), now) * NS_PER_MS < NS_PER_MS
  {}

  /**
   * The limit is that of the cached deadline: none if there is none, zero once it has passed, and otherwise the time
   * left to it in whole milliseconds, as far as a C int goes.
   */
  predicate BlocksUntil(limit: Option<int>, next: Option<Time>, now: Time)
  {
    match next
    case None => limit.None?
    case Some(d) =>
      && limit.Some? && limit.value >= 0 && (d <= now ==> limit.value == 0)
      && (d > now ==> limit.value <= d - now)
      && (d > now ==> d - now - limit.value < 1_000_000 || limit.value == 2147483647 * 1_000_000)
  }

  lemma LimitIsThatOfTheDeadline(next: Option<Time>, now: Time)
    ensures BlocksUntil(EpollLimit(next, now), next, now) && BlocksUntil(UringLimit(next, now), next, now)
  {
    var ms := BlockTimeout(next, now);
    TimespecIsExact(ms);
    if next.Some? && next.value > now {
      var left := next.value - now;
      assert left / NS_PER_MS * NS_PER_MS <= left < left / NS_PER_MS * NS_PER_MS + NS_PER_MS;
      if left / NS_PER_MS <= INT_MAX { BlocksAlmostUntilDeadline(next.value, now); }
    }
  }
}
