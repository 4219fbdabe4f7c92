/**
 * The kernel side of an epoll instance, as far as the event loop can see it: which descriptors it
 * watches for what, which of them are ready now, and which have an event not yet delivered.
 * Registrations are edge-triggered, so an event is queued only when readiness rises, when the
 * kernel is poked, or when an ADD or MOD finds the descriptor ready.
 */
module EpollKernel {
  import opened Base

  datatype Flag = In | Out | Error | Hup | RdHup | Et
  type Mask = set<Flag>

  datatype Kernel = Kernel(interest: map<int, Mask>, level: map<int, Mask>, edges: set<int>)

  datatype Event = Event(fd: int, events: Mask)

  datatype CtlOp = Add | Mod | Del

  function Level(k: Kernel, fd: int): Mask { if fd in k.level then k.level[fd] else {} }

  predicate HasEvent(events: Mask, flags: Mask) { events * flags != {} }

  /** ADD and MOD look at the current readiness and queue an event if there is one to report. */
  function Watch(k: Kernel, fd: int, mask: Mask): Kernel
  {
    k.(interest := k.interest[fd := mask],
       edges := if HasEvent(Level(k, fd), mask) then k.edges + {fd} else k.edges)
  }

  function Unwatch(k: Kernel, fd: int): Kernel
  {
    k.(interest := k.interest - {fd}, edges := k.edges - {fd})
  }

  /** Readiness of `fd` becomes `now`; `poke` is a wakeup without a change, such as more data. */
  function Change(k: Kernel, fd: int, now: Mask, poke: bool): Kernel
  {
    var rises := now - Level(k, fd);
    k.(level := k.level[fd := now],
       edges := if fd in k.interest && (HasEvent(rises, k.interest[fd]) || poke) then k.edges + {fd} else k.edges)
  }

  /** The event the kernel reports for `fd`; reporting it clears the edge. */
  function Report(k: Kernel, fd: int): Event
    requires fd in k.interest
  {
    Event(fd, Level(k, fd) * k.interest[fd])
  }

  function Delivered(k: Kernel, fd: int): Kernel { k.(edges := k.edges - {fd}) }

  /** The errno of `epoll_ctl`, 0 for success; `fault` is any other failure the kernel may report. */
  function CtlErrno(k: Kernel, op: CtlOp, fd: int, fault: int): int
  {
    match op
    case Add => if fd in k.interest then EEXIST else fault
    case Mod => if fd !in k.interest then ENOENT else fault
    case Del => if fd !in k.interest then ENOENT else if fault == ENOENT then 0 else fault
  }

  /** `epoll::reactor::ctl`: removing a descriptor that is not there counts as success. */
  function Ctl(k: Kernel, op: CtlOp, fd: int, mask: Mask, fault: int): (r: (Kernel, Status))
    ensures r.1.Err? ==> r.0 == k
    ensures r.1 == Ok && op != Del ==> r.0 == Watch(k, fd, mask) && (fd in k.interest <==> op == Mod)
    ensures r.1 == Ok && op == Del ==> r.0 == if fd in k.interest then Unwatch(k, fd) else k
  {
    var e := CtlErrno(k, op, fd, fault);
    if fd < 0 then (k, Err(EBADF))
    else if e == 0 then (if op == Del then Unwatch(k, fd) else Watch(k, fd, mask), Ok)
    else if op == Del && e == ENOENT then (k, Ok)
    else (k, Err(e))
  }
}
