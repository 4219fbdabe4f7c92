/**
 * The ready queue over whole runs. What a step queues and whom it resumes are told here without looking at
 * the queue; the law connects the two with what the queue holds before and after.
 */
module ReadyQueue {
  import opened Base
  import opened Coroutines

  /** Whom a step makes ready: the task it starts, the coroutine whose wait or awaited task is over. */
  function QueuedBy(s: Sys, step: Step): seq<Handle>
  {
    if !Enabled(s, step) then [] else
    match step
    case Spawn(h) => [h]
    case AwaitTask(c) => [c]
    case Immediate(_, _) => [s.running]
    case Finish => if s.frames[s.running].continuation == NULL_HANDLE then [] else [s.frames[s.running].continuation]
    case Resolve(key, _) => [s.armed[key].handle]
    case _ => []
  }

  /** Whom a step resumes. */
  function PickedBy(s: Sys, step: Step): seq<Handle>
  {
    if step.Resume? && Enabled(s, step) then [Apply(s, step).running] else []
  }

  function Queued(s: Sys, steps: seq<Step>): seq<Handle>
  {
    if steps == [] then [] else
    Queued(s, steps[..|steps| - 1]) + QueuedBy(Exec(s, steps[..|steps| - 1]), steps[|steps| - 1])
  }

  /** The coroutines resumed in a run, one after the other. */
  function Picked(s: Sys, steps: seq<Step>): seq<Handle>
  {
    if steps == [] then [] else
    Picked(s, steps[..|steps| - 1]) + PickedBy(Exec(s, steps[..|steps| - 1]), steps[|steps| - 1])
  }

  /** Only a resume takes from the queue, and only its front; everything else is appended. */
  lemma StepIsFifo(s: Sys, step: Step)
    ensures s.ready + QueuedBy(s, step) == PickedBy(s, step) + Apply(s, step).ready
    ensures !step.Resume? ==> s.ready <= Apply(s, step).ready
    ensures step.Resume? && Enabled(s, step) ==> Apply(s, step).ready == s.ready[1..]
  {
    match step
    case Resume =>
      if Enabled(s, step) { assert s.ready == [s.ready[0]] + s.ready[1..]; }
    case _ =>
  }

  /** First in, first out: what was queued at first and since is what was resumed, followed by what is queued still. */
  lemma {:induction false} QueueIsFifo(s: Sys, steps: seq<Step>)
    ensures s.ready + Queued(s, steps) == Picked(s, steps) + Exec(s, steps).ready
  {
    hide Apply, PickedBy, QueuedBy;
    if steps != [] {
      var before, step := steps[..|steps| - 1], steps[|steps| - 1];
      var t := Exec(s, before);
      QueueIsFifo(s, before);
      StepIsFifo(t, step);
      Regroup(s.ready, Queued(s, before), QueuedBy(t, step), Picked(s, before), t.ready, PickedBy(t, step),
              Apply(t, step).ready);
    }
  }

  lemma Regroup(r: seq<Handle>, q: seq<Handle>, more: seq<Handle>, p: seq<Handle>, t: seq<Handle>, next: seq<Handle>,
                u: seq<Handle>)
    requires r + q == p + t && t + more == next + u
    ensures r + (q + more) == (p + next) + u
  {
    assert r + (q + more) == (r + q) + more;
    assert (p + t) + more == p + (t + more);
    assert p + (next + u) == (p + next) + u;
  }

  /** Whoever is at position i of the queue is resumed by exactly the (i+1)-th resume, and nobody overtakes. */
  lemma ResumedInTurn(s: Sys, steps: seq<Step>, i: nat)
    requires i < |s.ready|
    ensures i < |Picked(s, steps)| ==> Picked(s, steps)[i] == s.ready[i]
    ensures i >= |Picked(s, steps)| ==>
              var j := i - |Picked(s, steps)|;
              j < |Exec(s, steps).ready| && Exec(s, steps).ready[j] == s.ready[i]
  {
    hide Exec, Picked, Queued;
    QueueIsFifo(s, steps);
    SamePlace(s.ready, Queued(s, steps), Picked(s, steps), Exec(s, steps).ready, i);
  }

  lemma SamePlace(r: seq<Handle>, q: seq<Handle>, p: seq<Handle>, t: seq<Handle>, i: nat)
    requires r + q == p + t && i < |r|
    ensures if i < |p| then p[i] == r[i] else i - |p| < |t| && t[i - |p|] == r[i]
  {
    assert r[i] == (r + q)[i] == (p + t)[i];
    assert |r| + |q| == |r + q| == |p + t| == |p| + |t|;
  }

  lemma MovedUp(r: seq<Handle>, q: seq<Handle>, p: seq<Handle>, t: seq<Handle>)
    requires r + q == p + t
    ensures |p| < |r| ==> r[|p|..] <= t
    ensures t == [] ==> |r| <= |p|
  {
    assert |r| + |q| == |r + q| == |p + t| == |p| + |t|;
    if |p| < |r| {
      forall i | |p| <= i < |r| ensures i - |p| < |t| && t[i - |p|] == r[i] { SamePlace(r, q, p, t, i); }
    }
  }

  lemma {:induction false} ExecAppend(s: Sys, a: seq<Step>, b: seq<Step>)
    ensures Exec(s, a + b) == Exec(Exec(s, a), b)
    ensures Picked(s, a + b) == Picked(s, a) + Picked(Exec(s, a), b)
  {
    hide Apply, PickedBy;
    if b == [] {
      assert a + b == a;
    } else {
      ExecAppend(s, a, b[..|b| - 1]);
      assert (a + b)[..|a + b| - 1] == a + b[..|b| - 1];
    }
  }
}
