/**
 * What the coroutine protocol guarantees over whole runs, for every sequence of steps.
 */
module CoroutineTheorems {
  import opened Base
  import opened Coroutines
  import opened CoroutineInvariant
  import opened ReadyQueue

  // ---------------------------------------------------------------- deadlock freedom

  /** Each coroutine of `path` awaits the next one. */
  ghost predicate AwaitChain(s: Sys, path: seq<Handle>)
  {
    && |path| > 0
    && (forall i :: 0 <= i < |path| ==> path[i] in s.frames)
    && (forall i :: 0 <= i < |path| - 1 ==> s.frames[path[i]].state == Awaiting(path[i + 1]))
  }

  lemma LongerChain(s: Sys, h: Handle, tail: seq<Handle>)
    requires AwaitChain(s, tail) && h in s.frames && s.frames[h].state == Awaiting(tail[0])
    ensures AwaitChain(s, [h] + tail) && ([h] + tail)[|tail|] == tail[|tail| - 1]
  {
    var path := [h] + tail;
    forall i | 0 <= i < |path| - 1 ensures s.frames[path[i]].state == Awaiting(path[i + 1]) {
      if i > 0 { assert path[i] == tail[i - 1] && path[i + 1] == tail[i]; }
    }
  }

  /**
   * When nothing runs and nothing is queued, following awaits from any unfinished coroutine ends
   * at one that is armed on a descriptor. The chain is finite because a child starts after its parent.
   */
  lemma {:induction false} ChainEndsArmed(s: Sys, h: Handle) returns (path: seq<Handle>, key: Key)
    requires Inv(s) && s.running == NULL_HANDLE && s.ready == []
    requires h in s.frames && s.frames[h].state.Live()
    ensures AwaitChain(s, path) && path[0] == h
    ensures key in s.armed && s.armed[key].handle == path[|path| - 1]
    decreases s.clock - s.frames[h].order
  {
    assert FrameOk(s, h);
    match s.frames[h].state
    case Waiting(k) =>
      path, key := [h], k;
    case Awaiting(c) =>
      assert FrameOk(s, c);
      var tail;
      tail, key := ChainEndsArmed(s, c);
      path := [h] + tail;
      LongerChain(s, h, tail);
  }

  /** A loop that is idle with unfinished roots always has a waiter: EDEADLK cannot be reported. */
  lemma IdleHasWaiter(s: Sys)
    requires Inv(s) && s.running == NULL_HANDLE && s.ready == [] && s.active != 0
    ensures s.armed != map[]
  {
    var h :| h in Unfinished(s.frames);
    var _, key := ChainEndsArmed(s, h);
    assert key in s.armed;
  }

  lemma NoDeadlock(steps: seq<Step>)
    ensures var s := Exec(INIT, steps);
            s.running == NULL_HANDLE && s.ready == [] && s.active != 0 ==> s.armed != map[]
  {
    RunKeepsInv(INIT, steps);
    var s := Exec(INIT, steps);
    if s.running == NULL_HANDLE && s.ready == [] && s.active != 0 { IdleHasWaiter(s); }
  }

  /** The converse: with no unfinished root left, an idle loop has no waiter, so run() returns. */
  lemma FinishedHasNoWaiter(s: Sys)
    requires Inv(s) && s.running == NULL_HANDLE && s.ready == [] && s.active == 0
    ensures s.armed == map[]
  {
    if key :| key in s.armed {
      var root := RootOf(s, s.armed[key].handle);
      assert false;
    }
  }

  /** Following continuations from any unfinished coroutine reaches an unfinished tracked root. */
  lemma {:induction false} RootOf(s: Sys, h: Handle) returns (root: Handle)
    requires Inv(s) && h in s.frames && s.frames[h].state.Live()
    ensures root in Unfinished(s.frames)
    decreases s.frames[h].order
  {
    assert FrameOk(s, h);
    if s.frames[h].tracked {
      root := h;
    } else {
      assert FrameOk(s, s.frames[h].continuation);
      root := RootOf(s, s.frames[h].continuation);
    }
  }

  lemma RootHasStarted(s: Sys, h: Handle)
    requires Inv(s) && h in s.roots
    ensures h in s.frames && (s.frames[h].state.Live() || s.frames[h].state.Done?)
  {
    assert FrameOk(s, h);
  }

  /** An idle loop with no unfinished root and no finished one to reap has no frame left but those never started. */
  lemma NothingAllocated(s: Sys)
    requires Inv(s) && s.running == NULL_HANDLE && s.ready == [] && s.active == 0
    requires forall h :: h in s.roots ==> h in s.frames && !s.frames[h].state.Done?
    ensures s.roots == []
    ensures forall h :: h in s.frames ==> s.frames[h].state.NotStarted? || s.frames[h].state.Destroyed?
  {
    if s.roots != [] { RootHasStarted(s, s.roots[0]); }
    forall h | h in s.frames ensures s.frames[h].state.NotStarted? || s.frames[h].state.Destroyed? {
      assert FrameOk(s, h);
      if s.frames[h].continuation in s.frames { assert FrameOk(s, s.frames[h].continuation); }
      if s.frames[h].state.Live() {
        var root := RootOf(s, h);
        assert false;
      }
    }
  }

  // ---------------------------------------------------------------- reachable states

  /** `s` is the state some run leads to. */
  ghost predicate Reachable(s: Sys)
  {
    exists steps :: s == Exec(INIT, steps)
  }

  lemma ReachableInv(s: Sys)
    requires Reachable(s)
    ensures Inv(s)
  {
    var steps :| s == Exec(INIT, steps);
    RunKeepsInv(INIT, steps);
  }

  lemma StepReachable(s: Sys, step: Step)
    requires Reachable(s)
    ensures Reachable(Apply(s, step))
  {
    var steps :| s == Exec(INIT, steps);
    assert (steps + [step])[..|steps|] == steps;
    assert Exec(INIT, steps + [step]) == Apply(s, step);
  }

  /** The loop's next step is always possible; nothing it relies on can be missing. */
  lemma CanAlwaysFinish(s: Sys)
    requires Reachable(s) && s.running != NULL_HANDLE
    ensures CanFinish(s) && (s.frames[s.running].tracked ==> s.active > 0)
  {
    ReachableInv(s);
    assert FrameOk(s, s.running);
    var p := s.frames[s.running].continuation;
    if p != NULL_HANDLE { assert FrameOk(s, p); }
    if s.frames[s.running].tracked { assert s.running in Unfinished(s.frames); }
  }

  lemma CanAlwaysResume(s: Sys)
    requires Reachable(s) && s.ready != []
    ensures s.running == NULL_HANDLE ==> CanResume(s)
    ensures s.ready[0] != NULL_HANDLE && s.ready[0] in s.frames && s.frames[s.ready[0]].state.Queued()
  {
    ReachableInv(s);
    assert s.ready[0] in s.ready;
    assert FrameOk(s, s.ready[0]);
  }

  lemma CanAlwaysResolve(s: Sys, key: Key)
    requires Reachable(s) && key in s.armed
    ensures CanResolve(s, key) && s.armed[key].handle != NULL_HANDLE
    ensures s.frames[s.armed[key].handle].state == Waiting(key)
  {
    ReachableInv(s);
    assert FrameOk(s, s.armed[key].handle);
  }

  lemma RunningIsAFrame(s: Sys)
    requires Reachable(s) && s.running != NULL_HANDLE
    ensures s.running in s.frames && s.frames[s.running].state.Running?
  {
    ReachableInv(s);
  }

  lemma NullIsNoFrame(s: Sys)
    requires Reachable(s)
    ensures NULL_HANDLE !in s.frames
  {
    ReachableInv(s);
  }

  lemma RootsAreFrames(s: Sys, i: nat)
    requires Reachable(s) && i < |s.roots|
    ensures s.roots[i] in s.frames
  {
    ReachableInv(s);
    assert s.roots[i] in s.roots;
  }

  // ---------------------------------------------------------------- traces

  /** The abstract scheduler gets from `s` to `t` by some sequence of its steps that resumes `n` coroutines. */
  ghost predicate Leads(s: Sys, t: Sys, n: nat)
  {
    exists steps :: Exec(s, steps) == t && |Picked(s, steps)| == n
  }

  lemma LeadsSelf(s: Sys)
    ensures Leads(s, s, 0)
  {
    assert Exec(s, []) == s && Picked(s, []) == [];
  }

  lemma LeadsBy(s: Sys, step: Step)
    ensures Leads(s, Apply(s, step), |PickedBy(s, step)|)
  {
    assert [step][..0] == [] && Exec(s, []) == s && Picked(s, []) == [];
    assert Exec(s, [step]) == Apply(s, step);
    assert Picked(s, [step]) == [] + PickedBy(s, step);
  }

  lemma StepLeads(s: Sys, step: Step)
    requires !step.Resume?
    ensures Leads(s, Apply(s, step), 0)
  {
    LeadsBy(s, step);
  }

  lemma LeadsOn(s: Sys, t: Sys, u: Sys, m: nat, n: nat)
    requires Leads(s, t, m) && Leads(t, u, n)
    ensures Leads(s, u, m + n)
  {
    var a :| Exec(s, a) == t && |Picked(s, a)| == m;
    var b :| Exec(t, b) == u && |Picked(t, b)| == n;
    ExecAppend(s, a, b);
  }

  /** What follows a resumed coroutine follows from before it was resumed. */
  lemma ResumeLeads(s: Sys, t: Sys, n: nat)
    requires CanResume(s) && Leads(Resumed(s), t, n)
    ensures Leads(s, t, n + 1)
  {
    LeadsBy(s, Resume);
    LeadsOn(s, Resumed(s), t, 1, n);
  }

  lemma ReachableOn(s: Sys, t: Sys, n: nat)
    requires Reachable(s) && Leads(s, t, n)
    ensures Reachable(t)
  {
    var a :| s == Exec(INIT, a);
    var b :| Exec(s, b) == t && |Picked(s, b)| == n;
    ExecAppend(INIT, a, b);
  }

  lemma {:induction false} NobodyResumed(s: Sys, steps: seq<Step>)
    requires forall i :: 0 <= i < |steps| ==> !steps[i].Resume?
    ensures Picked(s, steps) == []
  {
    if steps != [] { NobodyResumed(s, steps[..|steps| - 1]); }
  }

  /** After n resumes the first n of the queue have had their turn and the others have moved up. */
  lemma LeadsInTurn(s: Sys, t: Sys, n: nat)
    requires Leads(s, t, n)
    ensures n < |s.ready| ==> s.ready[n..] <= t.ready
    ensures t.ready == [] ==> |s.ready| <= n
  {
    var steps :| Exec(s, steps) == t && |Picked(s, steps)| == n;
    QueueIsFifo(s, steps);
    MovedUp(s.ready, Queued(s, steps), Picked(s, steps), t.ready);
  }

  /** From `s` to `t` the queue was worked off, one coroutine resumed in each turn. */
  ghost predicate Drained(s: Sys, t: Sys, from: nat, next: nat)
  {
    && from <= next && Leads(s, t, next - from)
    && (next == from ==> t == s)
    && (next > from ==> s.ready != [] && CanResume(s) && Leads(Resumed(s), t, next - from - 1))
  }

  lemma NothingDrained(s: Sys, from: nat)
    ensures Drained(s, s, from, from)
  {
    LeadsSelf(s);
  }

  lemma DrainedMore(s: Sys, t: Sys, u: Sys, from: nat, next: nat)
    requires Drained(s, t, from, next) && Drained(t, u, 0, 1)
    ensures Drained(s, u, from, next + 1)
  {
    LeadsOn(s, t, u, next - from, 1);
    if next > from { LeadsOn(Resumed(s), t, u, next - from - 1, 1); }
  }

  // ---------------------------------------------------------------- waking several waits

  function Resolutions(order: seq<Key>, statuses: seq<Status>): seq<Step>
    requires |order| == |statuses|
  {
    seq(|order|, i requires 0 <= i < |order| => Resolve(order[i], statuses[i]))
  }

  ghost function Handles(armed: map<Key, Waiter>, order: seq<Key>): seq<Handle>
  {
    seq(|order|, i requires 0 <= i < |order| => if order[i] in armed then armed[order[i]].handle else NULL_HANDLE)
  }

  ghost predicate WokenAt(s: Sys, t: Sys, order: seq<Key>, statuses: seq<Status>, i: nat)
  {
    && i < |order| == |statuses|
    && order[i] in s.armed && order[i] !in order[..i]
    && s.armed[order[i]].handle in t.results && t.results[s.armed[order[i]].handle] == statuses[i]
  }

  ghost predicate KeepsResult(s: Sys, t: Sys, h: Handle)
  {
    h in s.results ==> h in t.results && t.results[h] == s.results[h]
  }

  /**
   * From `s` to `t` exactly the waits of `order` are resolved, one after the other, with the given
   * statuses: they are disarmed, their handles appended to the queue, and no other result is touched.
   */
  ghost predicate Woke(s: Sys, t: Sys, order: seq<Key>, statuses: seq<Status>)
  {
    Awake(s, t, order, statuses) && t == Exec(s, Resolutions(order, statuses))
  }

  ghost predicate Awake(s: Sys, t: Sys, order: seq<Key>, statuses: seq<Status>)
  {
    && (forall i {:trigger WokenAt(s, t, order, statuses, i)} :: 0 <= i < |order| ==> WokenAt(s, t, order, statuses, i))
    && (forall h {:trigger KeepsResult(s, t, h)} :: KeepsResult(s, t, h))
    && |statuses| == |order|
    && t.armed == s.armed - (set k | k in order)
    && t.ready == s.ready + Handles(s.armed, order)
    && t.running == s.running && t.roots == s.roots && t.active == s.active
  }

  lemma ResolveMore(s: Sys, a: seq<Key>, x: seq<Status>, b: seq<Key>, y: seq<Status>)
    requires |a| == |x| && |b| == |y|
    ensures Exec(s, Resolutions(a + b, x + y)) == Exec(Exec(s, Resolutions(a, x)), Resolutions(b, y))
  {
    ExecAppend(s, Resolutions(a, x), Resolutions(b, y));
    assert Resolutions(a + b, x + y) == Resolutions(a, x) + Resolutions(b, y);
  }

  lemma WokeLeads(s: Sys, t: Sys, order: seq<Key>, statuses: seq<Status>)
    requires Woke(s, t, order, statuses)
    ensures Leads(s, t, 0)
  {
    NobodyResumed(s, Resolutions(order, statuses));
  }

  lemma WokeNothing(s: Sys)
    ensures Woke(s, s, [], [])
  {
    assert Handles(s.armed, []) == [];
  }

  lemma NoResultYet(s: Sys, key: Key)
    requires Reachable(s) && key in s.armed
    ensures s.armed[key].handle !in s.results
  {
    ReachableInv(s);
  }

  lemma AwakeOne(s: Sys, key: Key, status: Status)
    requires CanResolve(s, key) && s.armed[key].handle !in s.results
    ensures Awake(s, Resolved(s, key, status), [key], [status])
  {
    assert (set k | k in [key]) == {key};
    assert Handles(s.armed, [key]) == [s.armed[key].handle];
  }

  lemma OneResolution(s: Sys, key: Key, status: Status)
    requires CanResolve(s, key)
    ensures Exec(s, Resolutions([key], [status])) == Resolved(s, key, status)
  {
    var step := Resolve(key, status);
    assert Resolutions([key], [status]) == [step] && [step][..0] == [];
    assert Exec(s, [step]) == Apply(s, step);
  }

  lemma WokeOne(s: Sys, key: Key, status: Status)
    requires Reachable(s) && CanResolve(s, key)
    ensures Woke(s, Resolved(s, key, status), [key], [status])
  {
    NoResultYet(s, key);
    AwakeOne(s, key, status);
    OneResolution(s, key, status);
  }

  lemma WokeMore(s: Sys, t: Sys, u: Sys, a: seq<Key>, x: seq<Status>, b: seq<Key>, y: seq<Status>)
    requires Woke(s, t, a, x) && Woke(t, u, b, y)
    ensures Woke(s, u, a + b, x + y)
  {
    AwakeMore(s, t, u, a, x, b, y);
    ResolveMore(s, a, x, b, y);
  }

  lemma AwakeMore(s: Sys, t: Sys, u: Sys, a: seq<Key>, x: seq<Status>, b: seq<Key>, y: seq<Status>)
    requires Awake(s, t, a, x) && Awake(t, u, b, y)
    ensures Awake(s, u, a + b, x + y)
  {
    var c, z := a + b, x + y;
    forall i | 0 <= i < |b| ensures b[i] in s.armed && b[i] !in a { assert WokenAt(t, u, b, y, i); }
    forall i | 0 <= i < |a| ensures a[i] in s.armed { assert WokenAt(s, t, a, x, i); }
    forall i | 0 <= i < |c| ensures WokenAt(s, u, c, z, i) {
      if i < |a| {
        assert WokenAt(s, t, a, x, i) && c[..i] == a[..i];
        assert KeepsResult(t, u, s.armed[a[i]].handle);
      } else {
        assert WokenAt(t, u, b, y, i - |a|) && c[..i] == a + b[..i - |a|];
      }
    }
    forall h ensures KeepsResult(s, u, h) { assert KeepsResult(s, t, h) && KeepsResult(t, u, h); }
    assert u.armed == s.armed - (set k | k in c);
    assert Handles(s.armed, c) == Handles(s.armed, a) + Handles(t.armed, b);
  }

  ghost function TimeoutStatuses(armed: map<Key, Waiter>, order: seq<Key>): seq<Status>
  {
    seq(|order|, i requires 0 <= i < |order| => if order[i] in armed then Err(armed[order[i]].timeoutError) else Ok)
  }

  /** The waits of `order` time out: each coroutine is told the timeout error it asked for. */
  ghost predicate TimesOut(s: Sys, t: Sys, order: seq<Key>)
  {
    Woke(s, t, order, TimeoutStatuses(s.armed, order))
  }

  lemma TimesOutLeads(s: Sys, t: Sys, order: seq<Key>)
    requires TimesOut(s, t, order)
    ensures Leads(s, t, 0)
  {
    WokeLeads(s, t, order, TimeoutStatuses(s.armed, order));
  }

  lemma TimesOutNothing(s: Sys)
    ensures TimesOut(s, s, [])
  {
    WokeNothing(s);
    assert TimeoutStatuses(s.armed, []) == [];
  }

  lemma NobodyTimesOut(s: Sys, t: Sys)
    requires TimesOut(s, t, [])
    ensures t == s
  {
    assert Resolutions([], TimeoutStatuses(s.armed, [])) == [];
  }

  lemma TimesOutOne(s: Sys, key: Key)
    requires Reachable(s) && CanResolve(s, key)
    ensures TimesOut(s, Resolved(s, key, Err(s.armed[key].timeoutError)), [key])
  {
    WokeOne(s, key, Err(s.armed[key].timeoutError));
    assert TimeoutStatuses(s.armed, [key]) == [Err(s.armed[key].timeoutError)];
  }

  lemma TimesOutMore(s: Sys, t: Sys, u: Sys, a: seq<Key>, b: seq<Key>)
    requires TimesOut(s, t, a) && TimesOut(t, u, b)
    ensures TimesOut(s, u, a + b)
  {
    WokeMore(s, t, u, a, TimeoutStatuses(s.armed, a), b, TimeoutStatuses(t.armed, b));
    forall i | 0 <= i < |b| ensures b[i] in t.armed { assert WokenAt(t, u, b, TimeoutStatuses(t.armed, b), i); }
    assert TimeoutStatuses(s.armed, a + b) == TimeoutStatuses(s.armed, a) + TimeoutStatuses(t.armed, b);
  }

  ghost function OkStatuses(n: nat): seq<Status> { seq(n, i => Ok) }

  /** The waits of `order` become ready: each coroutine is told success. */
  ghost predicate BecomesReady(s: Sys, t: Sys, order: seq<Key>)
  {
    Woke(s, t, order, OkStatuses(|order|))
  }

  lemma BecomesReadyLeads(s: Sys, t: Sys, order: seq<Key>)
    requires BecomesReady(s, t, order)
    ensures Leads(s, t, 0)
  {
    WokeLeads(s, t, order, OkStatuses(|order|));
  }

  lemma BecomesReadyNothing(s: Sys)
    ensures BecomesReady(s, s, [])
  {
    WokeNothing(s);
    assert OkStatuses(0) == [];
  }

  lemma BecomesReadyOne(s: Sys, key: Key)
    requires Reachable(s) && CanResolve(s, key)
    ensures BecomesReady(s, Resolved(s, key, Ok), [key])
  {
    WokeOne(s, key, Ok);
    assert OkStatuses(1) == [Ok];
  }

  lemma BecomesReadyMore(s: Sys, t: Sys, u: Sys, a: seq<Key>, b: seq<Key>)
    requires BecomesReady(s, t, a) && BecomesReady(t, u, b)
    ensures BecomesReady(s, u, a + b)
  {
    WokeMore(s, t, u, a, OkStatuses(|a|), b, OkStatuses(|b|));
    assert OkStatuses(|a + b|) == OkStatuses(|a|) + OkStatuses(|b|);
  }

  // ---------------------------------------------------------------- exactly-once wakeup

  /**
   * Every armed wait of every run is resolved at most once: one result written, one entry in the
   * ready queue, and what its coroutine consumes is that result. Until then it is still armed.
   */
  lemma ExactlyOnceWakeup(steps: seq<Step>, i: nat)
    requires i < |Exec(INIT, steps).waits|
    ensures var r := Exec(INIT, steps).waits[i];
            && |r.written| <= 1 && r.wakeups == |r.written| && r.consumed <= r.written
            && (r.written == [] ==> var s := Exec(INIT, steps); r.key in s.armed && s.armed[r.key].handle == r.handle)
  {
    RunKeepsInv(INIT, steps);
    var s := Exec(INIT, steps);
    assert RecordOk(s, i);
    var h := s.waits[i].handle;
    if h in s.frames { assert FrameOk(s, h); }
  }

  /** `wait_results_` holds exactly the results that were written and not yet consumed. */
  lemma ResultsAreUnconsumed(steps: seq<Step>, h: Handle)
    ensures var s := Exec(INIT, steps);
            h in s.results <==>
            exists i: nat :: i < |s.waits| && s.waits[i].handle == h &&
                             s.waits[i].written != s.waits[i].consumed
  {
    RunKeepsInv(INIT, steps);
    var s := Exec(INIT, steps);
    if h in s.results {
      assert FrameOk(s, h);
      assert s.waits[s.frames[h].wait].handle == h;
    }
    if i: nat :| i < |s.waits| && s.waits[i].handle == h && s.waits[i].written != s.waits[i].consumed {
      assert RecordOk(s, i);
      assert FrameOk(s, h);
    }
  }

  /** Nothing that happened to a wait is ever taken back or rewritten. */
  ghost predicate HistoryExtends(s: Sys, t: Sys)
  {
    && |s.waits| <= |t.waits|
    && forall i: nat :: i < |s.waits| ==>
         && t.waits[i].handle == s.waits[i].handle && t.waits[i].key == s.waits[i].key
         && s.waits[i].written <= t.waits[i].written && s.waits[i].consumed <= t.waits[i].consumed
  }

  lemma {:induction false} HistoryGrows(s: Sys, steps: seq<Step>)
    ensures HistoryExtends(s, Exec(s, steps))
  {
    if steps != [] {
      HistoryGrows(s, steps[..|steps| - 1]);
    }
  }

  /** In `t`, the wait armed on `key` in `s` is over and its coroutine is told this and nothing else. */
  ghost predicate Told(s: Sys, t: Sys, key: Key, status: Status)
  {
    && key in s.armed && s.armed[key].handle in s.frames
    && var h := s.armed[key].handle;
       var w := s.frames[h].wait;
       w < |t.waits| && t.waits[w].handle == h && t.waits[w].key == key && t.waits[w].written == [status]
  }

  /** What a coroutine is told is never taken back. */
  lemma ToldForGood(s: Sys, t: Sys, u: Sys, n: nat, key: Key, status: Status)
    requires Told(s, t, key, status) && Leads(t, u, n) && Reachable(u)
    ensures Told(s, u, key, status)
  {
    var steps :| Exec(t, steps) == u && |Picked(t, steps)| == n;
    HistoryGrows(t, steps);
    var w := s.frames[s.armed[key].handle].wait;
    assert t.waits[w].written <= u.waits[w].written;
    ReachableInv(u);
    assert RecordOk(u, w);
    if u.waits[w].handle in u.frames { assert FrameOk(u, u.waits[w].handle); }
  }

  lemma {:induction false} ResolvesKeepWait(s: Sys, steps: seq<Step>, h: Handle)
    requires h in s.frames && forall i :: 0 <= i < |steps| ==> steps[i].Resolve?
    ensures h in Exec(s, steps).frames && Exec(s, steps).frames[h].wait == s.frames[h].wait
  {
    if steps != [] { ResolvesKeepWait(s, steps[..|steps| - 1], h); }
  }

  lemma WokeTells(s: Sys, t: Sys, order: seq<Key>, statuses: seq<Status>, i: nat)
    requires Reachable(s) && Reachable(t) && Woke(s, t, order, statuses) && i < |order|
    ensures Told(s, t, order[i], statuses[i])
  {
    hide Exec;
    assert WokenAt(s, t, order, statuses, i);
    var h := s.armed[order[i]].handle;
    CanAlwaysResolve(s, order[i]);
    ReachableInv(s);
    ReachableInv(t);
    assert FrameOk(s, h);
    ResolvesKeepWait(s, Resolutions(order, statuses), h);
    HistoryGrows(s, Resolutions(order, statuses));
    assert FrameOk(t, h);
  }

  /** What the next step can touch is in order: frame h, the running frame, the front of the queue. */
  lemma Surroundings(s: Sys, h: Handle)
    requires Reachable(s) && h in s.frames
    ensures RunningOk(s) && TablesOk(s) && FrameOk(s, h)
    ensures s.running in s.frames ==> s.running != NULL_HANDLE && FrameOk(s, s.running)
    ensures CanResume(s) ==> FrameOk(s, s.ready[0])
  {
    ReachableInv(s);
    if s.running in s.frames { assert FrameOk(s, s.running); }
    if CanResume(s) { assert FrameOk(s, s.ready[0]); }
  }

  /** Steps other than a resolution and a finish leave every suspended coroutine as it is. */
  lemma SuspendedStays(s: Sys, step: Step, h: Handle)
    requires h in s.frames && (s.frames[h].state.Waiting? || s.frames[h].state.Awaiting?)
    requires RunningOk(s) && FrameOk(s, h) && (CanResume(s) ==> FrameOk(s, s.ready[0]))
    requires !step.Resolve? && !step.Finish?
    ensures h in Apply(s, step).frames && Apply(s, step).frames[h] == s.frames[h]
  {
    match step
    case Resume => {}
    case Reap(_) => {}
    case _ => {}
  }

  /** A resolution touches one suspended coroutine only: the one armed on that key. */
  lemma ResolveEndsOneWait(s: Sys, k: Key, status: Status, h: Handle, key: Key)
    requires CanResolve(s, k) && TablesOk(s) && h in s.frames && s.frames[h].state == Waiting(key) && FrameOk(s, h)
    ensures var t := Resolved(s, k, status);
            && h in t.frames
            && (if k == key then h in t.results && t.results[h] == status else t.frames[h].state == Waiting(key))
  {
    if k == key { assert s.armed[k].handle == h; }
  }

  lemma FinishKeepsWait(s: Sys, h: Handle, key: Key)
    requires CanFinish(s) && FrameOk(s, s.running) && RunningOk(s) && s.running != NULL_HANDLE
    requires h in s.frames && s.frames[h].state == Waiting(key)
    ensures h in Finished(s).frames && Finished(s).frames[h].state == Waiting(key)
  {}

  /** A suspended wait ends only by a resolution of its own key, and the status given is what is stored. */
  lemma WaitEndsByResolve(s: Sys, step: Step, h: Handle, key: Key)
    requires Reachable(s) && h in s.frames && s.frames[h].state == Waiting(key)
    ensures var t := Apply(s, step);
            && h in t.frames
            && (t.frames[h].state == Waiting(key) ||
                (step.Resolve? && step.key == key && h in t.results && t.results[h] == step.status))
  {
    Surroundings(s, h);
    if !Enabled(s, step) {
    } else if step.Resolve? {
      ResolveEndsOneWait(s, step.key, step.status, h, key);
    } else if step.Finish? {
      FinishKeepsWait(s, h, key);
    } else {
      SuspendedStays(s, step, h);
    }
  }

  // ---------------------------------------------------------------- frames

  /** Finishing queues the coroutine that awaited the one that finished, and no other. */
  lemma FinishEndsOneAwait(s: Sys, h: Handle, c: Handle)
    requires CanFinish(s) && FrameOk(s, s.running) && RunningOk(s) && s.running != NULL_HANDLE
    requires h in s.frames && s.frames[h].state == Awaiting(c) && FrameOk(s, h)
    ensures var t := Finished(s);
            h in t.frames && t.frames[h].state == if s.running == c then QueuedChild(c) else Awaiting(c)
  {}

  lemma ResolveKeepsAwait(s: Sys, k: Key, status: Status, h: Handle)
    requires CanResolve(s, k) && TablesOk(s) && h in s.frames && s.frames[h].state.Awaiting?
    ensures var t := Resolved(s, k, status); h in t.frames && t.frames[h] == s.frames[h]
  {}

  /** A parent stops awaiting only when its child finishes, and is then queued for that child. */
  lemma AwaitEndsByFinish(s: Sys, step: Step, h: Handle, c: Handle)
    requires Reachable(s) && h in s.frames && s.frames[h].state == Awaiting(c)
    ensures var t := Apply(s, step);
            && h in t.frames
            && (t.frames[h].state == Awaiting(c) ||
                (step == Finish && s.running == c && t.frames[h].state == QueuedChild(c)))
  {
    Surroundings(s, h);
    if !Enabled(s, step) {
    } else if step.Resolve? {
      ResolveKeepsAwait(s, step.key, step.status, h);
    } else if step.Finish? {
      FinishEndsOneAwait(s, h, c);
    } else {
      SuspendedStays(s, step, h);
    }
  }

  /**
   * Every handle the loop holds in its ready queue or armed names a live frame that is not done,
   * and no handle is in two such places; every frame created is destroyed at most once.
   */
  lemma HeldHandlesAreLive(steps: seq<Step>)
    ensures var s := Exec(INIT, steps);
            && (forall h :: h in s.ready ==> h in s.frames && s.frames[h].state.Live())
            && (forall k :: k in s.armed ==> s.armed[k].handle in s.frames && s.frames[s.armed[k].handle].state.Live())
            && (forall i, j :: 0 <= i < j < |s.ready| ==> s.ready[i] != s.ready[j])
            && (forall k :: k in s.armed ==> s.armed[k].handle !in s.ready)
            && (forall k, l :: k in s.armed && l in s.armed && s.armed[k].handle == s.armed[l].handle ==> k == l)
            && s.created - s.freed == |Allocated(s.frames)|
  {
    RunKeepsInv(INIT, steps);
  }
}
