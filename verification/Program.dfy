/** What a resumed coroutine may do before it suspends again: the calls of its body into the runtime. */
module Program {
  import opened Base
  import Co = Coroutines

  datatype Action =
    | CallCoroutine(h: Handle)      // creates a frame and a task object
    | DropTask(h: Handle)
    | SpawnTask(h: Handle)
    | AwaitOn(c: Handle)
    | WaitFor(fd: int, dir: Dir, timeoutMs: Option<int>, timeoutError: int, now: Time, fault: int)
    | StopLoop

  /** How `run` ends. `Paused` is not an end: the environment was described up to here. */
  datatype Outcome = Finished | Failed(code: int) | Paused

  /** How one iteration of `run` ends: go on, leave the loop, or return at once. */
  datatype Verdict = Again | Leave | Return(out: Outcome)

  /**
   * On what terms a loop takes waits: it was set up, it has no reason of its own to refuse one, and `own`
   * is a descriptor of its own that nobody else may wait on.
   */
  datatype Terms = Terms(usable: bool, sure: bool, own: int)

  predicate Spent(timeoutMs: Option<int>) { timeoutMs.Some? && timeoutMs.value <= 0 }

  /** The step that a call amounts to if it can be made and, for a wait, is not refused. */
  function StepOf(a: Action): Co.Step
    requires !a.StopLoop?
  {
    match a
    case CallCoroutine(h) => Co.Create(h)
    case DropTask(h) => Co.Drop(h)
    case SpawnTask(h) => Co.Spawn(h)
    case AwaitOn(c) => Co.AwaitTask(c)
    case WaitFor(fd, dir, timeoutMs, e, now, _) =>
      if Spent(timeoutMs) then Co.Immediate(Key(fd, dir), e)
      else Co.Arm(Key(fd, dir), if timeoutMs.None? then None else Some(now + timeoutMs.value * NS_PER_MS), e)
  }

  /** What a call does to the scheduler. A call that could not be made changes nothing. */
  ghost predicate Performed(s: Co.Sys, t: Co.Sys, a: Action, terms: Terms)
  {
    match a
    case StopLoop => t == s
    case WaitFor(fd, dir, timeoutMs, _, _, fault) =>
      if !terms.usable || fd < 0 || (!Spent(timeoutMs) && Key(fd, dir) in s.armed) then t == s
      else if Spent(timeoutMs) || (fault == 0 && terms.sure && fd != terms.own) then t == Co.Apply(s, StepOf(a))
      else t == s || t == Co.Apply(s, StepOf(a))
    case _ => t == Co.Apply(s, StepOf(a))
  }

  /** The first n calls of a script, one after the other, lead from `s` to `t`. */
  ghost predicate After(s: Co.Sys, t: Co.Sys, script: seq<Action>, n: nat, terms: Terms)
    requires n <= |script|
    decreases n
  {
    if n == 0 then t == s
    else exists u :: After(s, u, script, n - 1, terms) && u.running != NULL_HANDLE && Performed(u, t, script[n - 1], terms)
  }

  lemma AfterMore(s: Co.Sys, u: Co.Sys, t: Co.Sys, script: seq<Action>, n: nat, terms: Terms)
    requires n < |script| && After(s, u, script, n, terms) && u.running != NULL_HANDLE && Performed(u, t, script[n], terms)
    ensures After(s, t, script, n + 1, terms)
  {
    assert After(s, u, script, n + 1 - 1, terms);
  }

  lemma OneMoreCall(script: seq<Action>, n: nat, a: Action)
    requires n < |script|
    ensures a in script[..n + 1] <==> a in script[..n] || a == script[n]
  {
    assert script[..n + 1] == script[..n] + [script[n]];
  }

  lemma PartOfScript(script: seq<Action>, n: nat, a: Action)
    requires n <= |script| && a in script[..n]
    ensures a in script
  {}

  lemma AllOrSuspended(s: Co.Sys, u: Co.Sys, t: Co.Sys, script: seq<Action>, n: nat, terms: Terms)
    requires n <= |script| && After(s, u, script, n, terms)
    requires if u.running == NULL_HANDLE then t == u else n == |script| && t == Co.Apply(u, Co.Finish)
    ensures Ran(s, t, script, n, terms)
  {}

  /** A resumed coroutine makes n calls of its script until it suspends, or all of them and then returns. */
  ghost predicate Ran(s: Co.Sys, t: Co.Sys, script: seq<Action>, n: nat, terms: Terms)
  {
    && n <= |script|
    && exists u :: After(s, u, script, n, terms) &&
         if u.running == NULL_HANDLE then t == u else n == |script| && t == Co.Apply(u, Co.Finish)
  }
}
