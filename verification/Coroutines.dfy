/**
 * The coroutine protocol as a state machine: frames, promises, awaiters and the scheduler they
 * share. A step is one thing the runtime does between two suspension points. A step that is not
 * enabled changes nothing, so the theorems below hold for every sequence of steps whatsoever.
 */
module Coroutines {
  import opened Base

  datatype CoState =
    | NotStarted                     // created, suspended at its initial suspend point
    | QueuedStart                    // scheduled for its first resume
    | QueuedWait                     // its wait is resolved and the result not yet consumed
    | QueuedChild(done: Handle)      // the task it awaits has finished
    | Running
    | Waiting(key: Key)              // armed on a descriptor
    | Awaiting(child: Handle)
    | Done                           // at its final suspend point
    | Destroyed
  {
    predicate Queued() { QueuedStart? || QueuedWait? || QueuedChild? }
    /** Started and not finished. */
    predicate Live() { Queued() || Running? || Waiting? || Awaiting? }
  }

  /**
   * A frame and its promise. `order` (when it was started) and `wait` (its latest wait record)
   * exist only for the statements below.
   */
  datatype Frame = Frame(state: CoState, continuation: Handle, tracked: bool, order: nat, wait: nat)

  /** What happened to one successfully armed wait since it was armed. */
  datatype WaitRecord =
    WaitRecord(handle: Handle, key: Key, wakeups: nat, written: seq<Status>, consumed: seq<Status>)

  datatype Sys = Sys(
    frames: map<Handle, Frame>,
    roots: seq<Handle>,
    running: Handle,
    armed: map<Key, Waiter>,
    ready: seq<Handle>,
    results: map<Handle, Status>,
    active: int,
    clock: nat,
    created: nat,
    freed: nat,
    waits: seq<WaitRecord>)

  const INIT := Sys(map[], [], NULL_HANDLE, map[], [], map[], 0, 0, 0, 0, [])


  // ---------------------------------------------------------------- steps

  /** A coroutine function is called. The new frame may reuse the address of a destroyed one. */
  predicate CanCreate(s: Sys, h: Handle) {
    h != NULL_HANDLE && (h in s.frames ==> s.frames[h].state.Destroyed?)
  }

  function Created(s: Sys, h: Handle): Sys
    requires CanCreate(s, h)
  {
    s.(frames := s.frames[h := Frame(NotStarted, NULL_HANDLE, false, 0, 0)], created := s.created + 1)
  }

  /** A task object still owns `h`: it was never started. */
  predicate Owned(s: Sys, h: Handle) {
    h in s.frames && s.frames[h].state.NotStarted?
  }

  /** A task object dies and takes its frame along. */
  function Dropped(s: Sys, h: Handle): Sys
    requires Owned(s, h)
  {
    s.(frames := s.frames[h := s.frames[h].(state := Destroyed)], freed := s.freed + 1)
  }

  /** `spawn`: the loop takes over a task as a tracked root. */
  function Spawned(s: Sys, h: Handle): Sys
    requires Owned(s, h)
  {
    s.(frames := s.frames[h := s.frames[h].(state := QueuedStart, tracked := true, order := s.clock)],
       clock := s.clock + 1, active := s.active + 1, roots := s.roots + [h], ready := s.ready + [h])
  }

  predicate CanResume(s: Sys) {
    && s.running == NULL_HANDLE && |s.ready| > 0 && s.ready[0] in s.frames
    && s.frames[s.ready[0]].state.Queued()
    && (s.frames[s.ready[0]].state.QueuedWait? ==> s.ready[0] in s.results && s.frames[s.ready[0]].wait < |s.waits|)
    && (s.frames[s.ready[0]].state.QueuedChild? ==>
          s.frames[s.ready[0]].state.done in s.frames && s.frames[s.ready[0]].state.done != s.ready[0])
  }

  function ResumedStart(s: Sys): Sys
    requires CanResume(s)
  {
    var h := s.ready[0];
    s.(running := h, ready := s.ready[1..], frames := s.frames[h := s.frames[h].(state := Running)])
  }

  /** `await_resume` of a readiness wait consumes the wait result. */
  function ResumedWait(s: Sys): Sys
    requires CanResume(s) && s.frames[s.ready[0]].state.QueuedWait?
  {
    var h := s.ready[0];
    var f := s.frames[h];
    var r := s.waits[f.wait];
    s.(running := h, ready := s.ready[1..], frames := s.frames[h := f.(state := Running)],
       results := s.results - {h},
       waits := s.waits[f.wait := r.(consumed := r.consumed + [s.results[h]])])
  }

  /** `await_resume` of a task awaiter takes the child's value and destroys its frame. */
  function ResumedParent(s: Sys): Sys
    requires CanResume(s) && s.frames[s.ready[0]].state.QueuedChild?
  {
    var h := s.ready[0];
    var c := s.frames[h].state.done;
    s.(running := h, ready := s.ready[1..], freed := s.freed + 1,
       frames := s.frames[h := s.frames[h].(state := Running)][c := s.frames[c].(state := Destroyed)])
  }

  /** The loop pops the front of its queue; `await_resume` runs as soon as that coroutine continues. */
  function Resumed(s: Sys): Sys
    requires CanResume(s)
  {
    match s.frames[s.ready[0]].state
    case QueuedWait => ResumedWait(s)
    case QueuedChild(_) => ResumedParent(s)
    case _ => ResumedStart(s)
  }

  predicate CanAwait(s: Sys, c: Handle) {
    s.running in s.frames && Owned(s, c) && c != s.running
  }

  /** `co_await` of a task: the awaiter wires the continuation and schedules the child. */
  function Awaited(s: Sys, c: Handle): Sys
    requires CanAwait(s, c)
  {
    var child := s.frames[c].(state := QueuedStart, continuation := s.running, order := s.clock);
    s.(frames := s.frames[s.running := s.frames[s.running].(state := Awaiting(c))][c := child],
       running := NULL_HANDLE, clock := s.clock + 1, ready := s.ready + [c])
  }

  predicate CanArm(s: Sys, key: Key) {
    s.running in s.frames && key !in s.armed
  }

  /** The running coroutine suspends on a descriptor. */
  function Armed(s: Sys, key: Key, deadline: Option<Time>, timeoutError: int): Sys
    requires CanArm(s, key)
  {
    var f := s.frames[s.running].(state := Waiting(key), wait := |s.waits|);
    s.(frames := s.frames[s.running := f], running := NULL_HANDLE,
       armed := s.armed[key := Waiter(s.running, deadline, timeoutError)],
       waits := s.waits + [WaitRecord(s.running, key, 0, [], [])])
  }

  /** A wait whose timeout is not positive is resolved on the spot. */
  function TimedOutAtOnce(s: Sys, key: Key, timeoutError: int): Sys
    requires s.running in s.frames
  {
    var f := s.frames[s.running].(state := QueuedWait, wait := |s.waits|);
    s.(frames := s.frames[s.running := f], running := NULL_HANDLE,
       ready := s.ready + [s.running], results := s.results[s.running := Err(timeoutError)],
       waits := s.waits + [WaitRecord(s.running, key, 1, [Err(timeoutError)], [])])
  }

  predicate CanFinish(s: Sys) {
    && s.running in s.frames
    && var p := s.frames[s.running].continuation;
       p != NULL_HANDLE ==> p in s.frames && p != s.running
  }

  /** The final awaiter of the running coroutine: count down a root, schedule the continuation. */
  function Finished(s: Sys): Sys
    requires CanFinish(s)
  {
    var h := s.running;
    var f := s.frames[h];
    var frames := s.frames[h := f.(state := Done)];
    var active := if f.tracked then s.active - 1 else s.active;
    if f.continuation == NULL_HANDLE then
      s.(frames := frames, running := NULL_HANDLE, active := active)
    else
      s.(frames := frames[f.continuation := s.frames[f.continuation].(state := QueuedChild(h))],
         running := NULL_HANDLE, active := active, ready := s.ready + [f.continuation])
  }

  predicate CanReap(s: Sys, i: nat) {
    i < |s.roots| && s.roots[i] in s.frames && s.frames[s.roots[i]].state.Done?
  }

  /** `cleanup_completed_roots` destroys and erases root `i`. */
  function Reaped(s: Sys, i: nat): Sys
    requires CanReap(s, i)
  {
    s.(frames := s.frames[s.roots[i] := s.frames[s.roots[i]].(state := Destroyed)], freed := s.freed + 1,
       roots := s.roots[..i] + s.roots[i + 1..])
  }

  predicate CanResolve(s: Sys, key: Key) {
    && key in s.armed && s.armed[key].handle in s.frames
    && s.frames[s.armed[key].handle].wait < |s.waits|
  }

  /** Readiness, completion or timeout of an armed wait. */
  function Resolved(s: Sys, key: Key, status: Status): Sys
    requires CanResolve(s, key)
  {
    var h := s.armed[key].handle;
    var f := s.frames[h];
    var r := s.waits[f.wait];
    s.(armed := s.armed - {key}, ready := s.ready + [h], results := s.results[h := status],
       frames := s.frames[h := f.(state := QueuedWait)],
       waits := s.waits[f.wait := r.(wakeups := r.wakeups + 1, written := r.written + [status])])
  }

  datatype Step =
    | Create(h: Handle)
    | Drop(h: Handle)
    | Spawn(h: Handle)
    | Resume
    | AwaitTask(c: Handle)
    | Arm(key: Key, deadline: Option<Time>, timeoutError: int)
    | Immediate(key: Key, timeoutError: int)
    | Finish
    | Reap(i: nat)
    | Resolve(key: Key, status: Status)

  predicate Enabled(s: Sys, step: Step)
  {
    match step
    case Create(h) => CanCreate(s, h)
    case Drop(h) => Owned(s, h)
    case Spawn(h) => Owned(s, h)
    case Resume => CanResume(s)
    case AwaitTask(c) => CanAwait(s, c)
    case Arm(key, _, _) => CanArm(s, key)
    case Immediate(_, _) => s.running in s.frames
    case Finish => CanFinish(s)
    case Reap(i) => CanReap(s, i)
    case Resolve(key, _) => CanResolve(s, key)
  }

  function Apply(s: Sys, step: Step): Sys
  {
    if !Enabled(s, step) then s else
    match step
    case Create(h) => Created(s, h)
    case Drop(h) => Dropped(s, h)
    case Spawn(h) => Spawned(s, h)
    case Resume => Resumed(s)
    case AwaitTask(c) => Awaited(s, c)
    case Arm(key, deadline, e) => Armed(s, key, deadline, e)
    case Immediate(key, e) => TimedOutAtOnce(s, key, e)
    case Finish => Finished(s)
    case Reap(i) => Reaped(s, i)
    case Resolve(key, status) => Resolved(s, key, status)
  }

  function Exec(s: Sys, steps: seq<Step>): Sys
  {
    if steps == [] then s else Apply(Exec(s, steps[..|steps| - 1]), steps[|steps| - 1])
  }
}
