/**
 * The part of the runtime that both event loops implement alike: the ready queue, the wait
 * results, the tracked roots, and the promise and awaiter protocol that works on them.
 * Every method is proved against the step of the coroutine state machine it performs.
 */
module SchedulerCore {
  import opened Base
  import opened Coroutines
  import opened CoroutineTheorems
  import opened WaiterTable
  import Program

  /**
   * The coroutine running in `s` is suspended in `t`: it waits for `key`, and nothing else has changed but
   * that. Its time is up exactly when the timeout has passed since `now`.
   */
  ghost predicate Suspended(s: Sys, t: Sys, key: Key, timeoutMs: Option<int>, timeoutError: int, now: Time)
  {
    && t.running == NULL_HANDLE && t.ready == s.ready && t.results == s.results
    && key in t.armed && t.armed[key].handle == s.running && t.armed[key].timeoutError == timeoutError
    && t.armed[key].deadline == (if timeoutMs.None? then None else Some(now + timeoutMs.value * NS_PER_MS))
    && t.armed == s.armed[key := t.armed[key]]
    && forall u :: key in Expired(t.armed, u) <==> timeoutMs.Some? && u - now >= timeoutMs.value * NS_PER_MS
  }

  lemma ArmedIsSuspended(s: Sys, key: Key, timeoutMs: Option<int>, timeoutError: int, now: Time)
    requires CanArm(s, key)
    ensures Suspended(s, Armed(s, key, DeadlineOf(timeoutMs, now), timeoutError), key, timeoutMs, timeoutError, now)
  {
    var t := Armed(s, key, DeadlineOf(timeoutMs, now), timeoutError);
    forall u ensures key in Expired(t.armed, u) <==> timeoutMs.Some? && u - now >= timeoutMs.value * NS_PER_MS {
      DueWhenTimeIsUp(t.armed, key, timeoutMs, now, u);
    }
  }

  /** The coroutine running in `s` is queued again in `t` with this result, and nothing is armed for it. */
  ghost predicate Answered(s: Sys, t: Sys, status: Status)
  {
    && t.running == NULL_HANDLE && t.armed == s.armed
    && t.ready == s.ready + [s.running] && t.results == s.results[s.running := status]
  }

  lemma SpentIsAnswered(s: Sys, key: Key, timeoutError: int)
    requires s.running in s.frames
    ensures Answered(s, TimedOutAtOnce(s, key, timeoutError), Err(timeoutError))
  {}

  /** Every wait that was due at `now` is over, and its coroutine is told the timeout error it asked for. */
  ghost predicate AllTimedOut(s: Sys, t: Sys, now: Time)
  {
    forall k :: k in Expired(s.armed, now) ==> Told(s, t, k, Err(s.armed[k].timeoutError))
  }

  lemma DueAreTold(s: Sys, t: Sys, order: seq<Key>, now: Time)
    requires Reachable(s) && Reachable(t) && TimesOut(s, t, order) && ExpiryDone(s.armed, t.armed, now)
    ensures AllTimedOut(s, t, now)
  {
    forall k | k in Expired(s.armed, now) ensures Told(s, t, k, Err(s.armed[k].timeoutError)) {
      assert k in s.armed && k !in t.armed;
      assert k in order;
      var i :| 0 <= i < |order| && order[i] == k;
      WokeTells(s, t, order, TimeoutStatuses(s.armed, order), i);
    }
  }

  lemma TimedOutForGood(s: Sys, t: Sys, u: Sys, n: nat, now: Time)
    requires AllTimedOut(s, t, now) && Leads(t, u, n) && Reachable(u)
    ensures AllTimedOut(s, u, now)
  {
    forall k | k in Expired(s.armed, now) ensures Told(s, u, k, Err(s.armed[k].timeoutError)) {
      ToldForGood(s, t, u, n, k, Err(s.armed[k].timeoutError));
    }
  }

  /** A call of a running coroutine is a step of the state machine, or nothing, and resumes nobody. */
  lemma PerformedLeads(s: Sys, t: Sys, a: Program.Action, terms: Program.Terms)
    requires Program.Performed(s, t, a, terms)
    ensures Leads(s, t, 0)
  {
    LeadsSelf(s);
    if !a.StopLoop? {
      var step := Program.StepOf(a);
      assert t == Apply(s, step) || t == s;
      StepLeads(s, step);
    }
  }

  class Scheduler {
    var frames: map<Handle, Frame>        // every coroutine frame and its promise
    var roots: seq<Handle>                // root_tasks_
    var running: Handle                   // the coroutine being resumed, or null
    var ready: seq<Handle>                // ready_queue_
    var results: map<Handle, Status>      // wait_results_
    var active: nat                       // active_task_count_
    ghost var armed: map<Key, Waiter>     // the waits the loop has accepted and not resolved
    var clock: nat                        // history: number of coroutines started
    var created: nat                      // history: frames created
    var freed: nat                        // history: frames destroyed
    var waits: seq<WaitRecord>            // history: what became of every wait

    ghost function State(): Sys
      reads this
    {
      Sys(frames, roots, running, armed, ready, results, active, clock, created, freed, waits)
    }

    ghost predicate Valid()
      reads this
    {
      Reachable(State())
    }

    constructor ()
      ensures Valid() && State() == INIT
    {
      frames, roots, running, ready, results, active := map[], [], NULL_HANDLE, [], map[], 0;
      armed, clock, created, freed, waits := map[], 0, 0, 0, [];
      new;
      assert State() == Exec(INIT, []);
    }

    /** A coroutine function is called and returns its task object. */
    method Create(h: Handle)
      requires Valid() && CanCreate(State(), h)
      modifies this
      ensures Valid() && State() == Created(old(State()), h)
    {
      StepReachable(State(), Step.Create(h));
      frames := frames[h := Frame(NotStarted, NULL_HANDLE, false, 0, 0)];
      created := created + 1;
    }

    /** `~task` for a coroutine that was never started. */
    method Drop(h: Handle)
      requires Valid() && Owned(State(), h)
      modifies this
      ensures Valid() && State() == Dropped(old(State()), h)
    {
      StepReachable(State(), Step.Drop(h));
      frames := frames[h := frames[h].(state := Destroyed)];
      freed := freed + 1;
    }

    method Schedule(h: Handle)
      modifies this`ready
      ensures ready == old(ready) + if h == NULL_HANDLE then [] else [h]
    {
      if h != NULL_HANDLE {
        ready := ready + [h];
      }
    }

    /** `spawn`; an empty task is ignored. */
    method Spawn(h: Handle)
      requires Valid() && (h != NULL_HANDLE ==> Owned(State(), h))
      modifies this
      ensures Valid()
      ensures State() == if h == NULL_HANDLE then old(State()) else Spawned(old(State()), h)
    {
      if h == NULL_HANDLE { return; }
      StepReachable(State(), Step.Spawn(h));
      frames := frames[h := frames[h].(state := QueuedStart, tracked := true, order := clock)];
      clock := clock + 1;
      active := active + 1;
      roots := roots + [h];
      Schedule(h);
    }

    /** The guard is there in the source; `Finish` shows that it never changes the outcome. */
    method OnTaskCompleted()
      modifies this`active
      ensures active == if old(active) > 0 then old(active) - 1 else 0
    {
      if active > 0 {
        active := active - 1;
      }
    }

    method ConsumeWaitResult(h: Handle) returns (status: Status)
      modifies this`results
      ensures h == NULL_HANDLE ==> status == Err(EINVAL) && results == old(results)
      ensures h != NULL_HANDLE && h !in old(results) ==> status == Ok && results == old(results)
      ensures h != NULL_HANDLE && h in old(results) ==>
                status == old(results)[h] && results == old(results) - {h}
    {
      if h == NULL_HANDLE { return Err(EINVAL); }
      if h !in results { return Ok; }
      status := results[h];
      results := results - {h};
    }

    /** The loop's test before a resume: is the front of the queue null or already done? Never. */
    method FrontIsStale() returns (stale: bool)
      requires Valid() && ready != []
      ensures !stale
    {
      CanAlwaysResume(State());
      var h := ready[0];
      stale := h == NULL_HANDLE || frames[h].state.Done?;
    }

    /** Pop the front of the queue and resume it; `status` is what a resumed wait is told. */
    method ResumeFront() returns (status: Status)
      requires Valid() && running == NULL_HANDLE && ready != []
      modifies this
      ensures Valid() && CanResume(old(State())) && State() == Resumed(old(State())) && running != NULL_HANDLE
      ensures old(frames[ready[0]].state.QueuedWait?) ==> status == old(results[ready[0]])
    {
      CanAlwaysResume(State());
      StepReachable(State(), Step.Resume);
      status := Ok;
      var h := ready[0];
      var f := frames[h];
      ready := ready[1..];
      running := h;
      frames := frames[h := f.(state := Running)];
      match f.state {
        case QueuedWait =>
          status := ConsumeWaitResult(h);
          waits := waits[f.wait := waits[f.wait].(consumed := waits[f.wait].consumed + [status])];
        case QueuedChild(c) =>
          frames := frames[c := frames[c].(state := Destroyed)];
          freed := freed + 1;
        case _ =>
      }
    }

    /** `task::awaiter::await_suspend`: wire the continuation, hand on the scheduler, schedule the child. */
    method AwaitTask(c: Handle)
      requires Valid() && CanAwait(State(), c)
      modifies this
      ensures Valid() && State() == Awaited(old(State()), c)
    {
      NullIsNoFrame(State());
      StepReachable(State(), Step.AwaitTask(c));
      var parent := running;
      frames := frames[parent := frames[parent].(state := Awaiting(c))];
      frames := frames[c := frames[c].(state := QueuedStart, continuation := parent, order := clock)];
      clock := clock + 1;
      running := NULL_HANDLE;
      Schedule(c);
    }

    /** `task_final_awaiter::await_suspend` of the running coroutine. */
    method Finish()
      requires Valid() && running != NULL_HANDLE
      modifies this
      ensures Valid() && CanFinish(old(State())) && State() == Finished(old(State()))
    {
      CanAlwaysFinish(State());
      StepReachable(State(), Step.Finish);
      var h := running;
      var f := frames[h];
      frames := frames[h := f.(state := Done)];
      running := NULL_HANDLE;
      if f.tracked {
        OnTaskCompleted();
      }
      if f.continuation != NULL_HANDLE {
        frames := frames[f.continuation := frames[f.continuation].(state := QueuedChild(h))];
        Schedule(f.continuation);
      }
    }

    /** Destroy and erase every finished root. */
    method CleanupCompletedRoots() returns (ghost steps: seq<Step>)
      requires Valid()
      modifies this
      ensures Valid() && State() == Exec(old(State()), steps)
      ensures forall i :: 0 <= i < |steps| ==> steps[i].Reap?
      ensures forall h :: h in roots ==> h in frames && !frames[h].state.Done?
      ensures ready == old(ready) && running == old(running) && armed == old(armed)
      ensures active == old(active) && results == old(results)
    {
      steps := [];
      var i := 0;
      while i < |roots|
        invariant i <= |roots|
        invariant Valid() && State() == Exec(old(State()), steps)
        invariant forall j :: 0 <= j < |steps| ==> steps[j].Reap?
        invariant forall j :: 0 <= j < i ==> roots[j] in frames && !frames[roots[j]].state.Done?
        invariant ready == old(ready) && running == old(running) && armed == old(armed)
        invariant active == old(active) && results == old(results)
        decreases |roots| - i
      {
        RootsAreFrames(State(), i);
        if frames[roots[i]].state.Done? {
          StepReachable(State(), Reap(i));
          steps := steps + [Reap(i)];
          frames := frames[roots[i] := frames[roots[i]].(state := Destroyed)];
          freed := freed + 1;
          roots := roots[..i] + roots[i + 1..];
        } else {
          i := i + 1;
        }
      }
    }

    /** The running coroutine returns; `from` is where its turn began. */
    method FinishTurn(ghost from: Sys)
      requires Valid() && running != NULL_HANDLE && Leads(from, State(), 0)
      modifies this
      ensures Valid() && running == NULL_HANDLE && Leads(from, State(), 0) && armed == old(armed)
      ensures State() == Apply(old(State()), Step.Finish)
    {
      hide Leads;
      ghost var s := State();
      StepLeads(s, Step.Finish);
      Finish();
      LeadsOn(from, s, State(), 0, 0);
    }

    /** No finished root is waiting to be destroyed. */
    ghost predicate RootsReaped()
      reads this`roots, this`frames
    {
      forall h :: h in roots ==> h in frames && !frames[h].state.Done?
    }

    /** Finished roots are destroyed, which is a run of the abstract scheduler. */
    method ReapRoots()
      requires Valid()
      modifies this
      ensures Valid() && Leads(old(State()), State(), 0) && RootsReaped()
      ensures ready == old(ready) && running == old(running) && armed == old(armed) && active == old(active)
    {
      var steps := CleanupCompletedRoots();
      NobodyResumed(old(State()), steps);
    }

    /** A loop that is done and has reaped its roots leaves no frame behind but those of tasks never started. */
    lemma NoFrameIsLeft()
      requires Valid() && running == NULL_HANDLE && ready == [] && active == 0 && RootsReaped()
      ensures roots == []
      ensures forall h :: h in frames ==> frames[h].state.NotStarted? || frames[h].state.Destroyed?
    {
      ReachableInv(State());
      NothingAllocated(State());
    }

    /**
     * The idle test of run(): is the work done, or is there a waiter to block for? Never neither, so the
     * branch that returns EDEADLK is unreachable.
     */
    method NothingLeft(pending: nat) returns (done: bool)
      requires Valid() && running == NULL_HANDLE && ready == [] && pending == |armed|
      ensures done ==> active == 0 && armed == map[]
      ensures !done ==> pending > 0 && armed != map[]
    {
      done := active == 0 && pending == 0;
      if !done && pending == 0 {
        ReachableInv(State());
        IdleHasWaiter(State());
        assert false;          // here the source returns EDEADLK
      }
    }

    /** A call of the running coroutine that concerns coroutines only; one it could not make is skipped. */
    method Act(a: Program.Action, ghost terms: Program.Terms)
      requires Valid() && running != NULL_HANDLE && !a.WaitFor?
      modifies this
      ensures Valid() && armed == old(armed) && Program.Performed(old(State()), State(), a, terms)
    {
      ghost var s := State();
      NullIsNoFrame(s);
      match a {
        case CallCoroutine(h) =>
          if h != NULL_HANDLE && (h in frames ==> frames[h].state.Destroyed?) { Create(h); }
        case DropTask(h) =>
          if h in frames && frames[h].state.NotStarted? { Drop(h); }
        case SpawnTask(h) =>
          if h in frames && frames[h].state.NotStarted? { Spawn(h); }
        case AwaitOn(c) =>
          RunningIsAFrame(s);
          if c in frames && frames[c].state.NotStarted? { AwaitTask(c); }
        case StopLoop =>
      }
    }

    /** The running coroutine is suspended on a descriptor. */
    method SuspendOn(key: Key, deadline: Option<Time>, timeoutError: int)
      requires Valid() && running != NULL_HANDLE && key !in armed
      modifies this
      ensures Valid() && CanArm(old(State()), key) && State() == Armed(old(State()), key, deadline, timeoutError)
    {
      RunningIsAFrame(State());
      StepReachable(State(), Step.Arm(key, deadline, timeoutError));
      frames := frames[running := frames[running].(state := Waiting(key), wait := |waits|)];
      waits := waits + [WaitRecord(running, key, 0, [], [])];
      armed := armed[key := Waiter(running, deadline, timeoutError)];
      running := NULL_HANDLE;
    }

    /** A wait with no time left is resolved with its timeout error without being armed. */
    method TimeOutAtOnce(key: Key, timeoutError: int)
      requires Valid() && running != NULL_HANDLE
      modifies this
      ensures Valid() && old(running) in old(frames) && State() == TimedOutAtOnce(old(State()), key, timeoutError)
    {
      RunningIsAFrame(State());
      StepReachable(State(), Step.Immediate(key, timeoutError));
      frames := frames[running := frames[running].(state := QueuedWait, wait := |waits|)];
      waits := waits + [WaitRecord(running, key, 1, [Err(timeoutError)], [])];
      results := results[running := Err(timeoutError)];
      Schedule(running);
      running := NULL_HANDLE;
    }

    /** Store the outcome of the wait `h` was armed for and queue `h`. */
    method Wake(ghost key: Key, h: Handle, status: Status)
      requires Valid() && key in armed && armed[key].handle == h
      modifies this
      ensures Valid() && CanResolve(old(State()), key) && State() == Resolved(old(State()), key, status)
    {
      CanAlwaysResolve(State(), key);
      StepReachable(State(), Step.Resolve(key, status));
      results := results[h := status];
      Schedule(h);
      var f := frames[h];
      frames := frames[h := f.(state := QueuedWait)];
      waits := waits[f.wait := waits[f.wait].(wakeups := waits[f.wait].wakeups + 1,
                                              written := waits[f.wait].written + [status])];
      armed := armed - {key};
    }
  }
}
