/** Vocabulary shared by every part of the runtime model. */
module Base {

  datatype Option<+T> = None | Some(value: T)

  /** A coroutine handle: the address of a frame; 0 is the null handle. */
  type Handle = nat
  const NULL_HANDLE: Handle := 0

  /** Nanoseconds of the steady clock. */
  type Time = int
  const NS_PER_MS := 1_000_000

  /** The outcome of a wait: `result<void>`. */
  datatype Status = Ok | Err(code: int)

  datatype Dir = Read | Write

  /** One wait registration slot: a descriptor and a direction. */
  datatype Key = Key(fd: int, dir: Dir)

  /** An armed wait: who waits, until when at most, and what it is told on timeout. */
  datatype Waiter = Waiter(handle: Handle, deadline: Option<Time>, timeoutError: int)

  // errno values, as <errno.h> numbers them on Linux
  const ENOENT := 2
  const EINTR := 4
  const EBADF := 9
  const EAGAIN := 11
  const EBUSY := 16
  const EEXIST := 17
  const EINVAL := 22
  const EPIPE := 32
  const ETIMEDOUT := 110
  const ECANCELED := 125
}
