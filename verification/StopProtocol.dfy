/**
 * stop() against a running loop: every interleaving of any number of threads calling stop() with the
 * steps of run(), for both backends. A call stores the flag and then writes the wake descriptor.
 */
module StopProtocol {

  const COUNTER_MAX: nat := 0xffff_ffff_ffff_fffe     // an eventfd counter holds no more
  const MAX_BATCH: nat := 64

  /** The poll of the wake descriptor: where it is between the loop and its completion. */
  datatype WakePoll = Unarmed | Queued | Outstanding | Done | Collected

  /** epoll watches the wake descriptor level-triggered, io_uring with a poll that fires once. */
  datatype Wake = LevelTriggered | OneShot(poll: WakePoll)

  /** Where the loop is. `others` counts the events of the current batch that are not the wake event. */
  datatype Pc =
    | Top
    | Expiring
    | CheckExpired
    | Drain
    | CheckResumed
    | CheckDrained
    | Idle
    | Blocked
    | Serving(others: nat, wake: bool)
    | WakeConsumed(others: nat)
    | Rearming(others: nat)
    | Submitting(others: nat)
    | Exited

  /**
   * `stale` calls of stop() had stored the flag before run() cleared it and have yet to write,
   * `storing` calls have stored it since, `completed` calls have also written.
   */
  datatype State = State(pc: Pc, wake: Wake, flag: bool, counter: nat, stale: nat, storing: nat, completed: nat)

  /** What the environment decides in a step of the loop. */
  datatype Choice = Choice(more: bool, finished: bool, fails: bool, events: nat, takeWake: bool)

  datatype Step = Store | Write | StaleWrite | Fire | Loop(choice: Choice)

  function Signalled(counter: nat): nat { if counter < COUNTER_MAX then counter + 1 else counter }

  function Failed(s: State): State { s.(flag := true, pc := Top) }

  /** May the kernel hand the wake event to the loop now? */
  predicate WakeDue(s: State)
  {
    match s.wake
    case LevelTriggered => s.counter > 0
    case OneShot(poll) => poll.Done?
  }

  predicate Enabled(s: State, step: Step)
  {
    match step
    case Store => true
    case Write => s.storing > 0
    case StaleWrite => s.stale > 0
    case Fire => s.wake == OneShot(Outstanding) && s.counter > 0
    case Loop(c) =>
      && !s.pc.Exited?
      && (s.pc.Blocked? ==> c.events <= MAX_BATCH && (c.takeWake ==> WakeDue(s)))
  }

  /** The wake event is processed: drain the counter; io_uring then has a poll to renew. */
  function Consumed(s: State, others: nat): State
  {
    match s.wake
    case LevelTriggered => s.(counter := 0, pc := Serving(others, false))
    case OneShot(_) => s.(counter := 0, pc := WakeConsumed(others), wake := OneShot(Unarmed))
  }

  /** The next event of the batch; which one comes next is up to the kernel. */
  function Served(s: State, c: Choice, others: nat, wake: bool): State
  {
    if others == 0 && !wake then s.(pc := Top)
    else if wake && (c.takeWake || others == 0) then Consumed(s, others)
    else if c.fails then Failed(s)
    else s.(pc := Serving(others - 1, wake))
  }

  /** A submit takes a queued wake poll to the kernel. */
  function Flushed(wake: Wake): Wake { if wake == OneShot(Queued) then OneShot(Outstanding) else wake }

  /** The end of run() after its loop: what is still queued is submitted once more, which may fail. */
  function Exit(s: State, c: Choice): State
  {
    s.(pc := Exited, wake := if c.fails then s.wake else Flushed(s.wake))
  }

  /** One step of run(), between two points at which another thread can be noticed. */
  function Looped(s: State, c: Choice): State
    requires Enabled(s, Loop(c))
  {
    match s.pc
    case Top => if s.flag then Exit(s, c) else s.(pc := Expiring)
    case Expiring => s.(pc := CheckExpired, flag := s.flag || c.fails)
    case CheckExpired => if s.flag then Exit(s, c) else s.(pc := Drain)
    case Drain => s.(pc := if c.more then CheckResumed else CheckDrained)
    case CheckResumed => s.(pc := if s.flag then CheckDrained else Drain)
    case CheckDrained => if s.flag then Exit(s, c) else s.(pc := Idle)
    case Idle =>
      if c.finished then Exit(s, c)
      else if c.fails then s.(pc := Exited)                      // the submit before the wait fails
      else s.(pc := Blocked, wake := Flushed(s.wake))
    case Blocked =>
      if c.fails then s.(pc := Exited)                           // the wait fails
      else s.(pc := Serving(c.events, c.takeWake),
              wake := if c.takeWake && s.wake.OneShot? then OneShot(Collected) else s.wake)
    case Serving(others, wake) => Served(s, c, others, wake)
    case WakeConsumed(others) => s.(pc := if s.flag then Serving(others, false) else Rearming(others))
    case Rearming(others) => if c.fails then Failed(s) else s.(pc := Submitting(others), wake := OneShot(Queued))
    case Submitting(others) => if c.fails then Failed(s) else s.(pc := Serving(others, false), wake := OneShot(Outstanding))
  }

  /** A step that is not enabled changes nothing. */
  function Apply(s: State, step: Step): State
  {
    if !Enabled(s, step) then s else
    match step
    case Store => s.(flag := true, storing := s.storing + 1)
    case Write => s.(counter := Signalled(s.counter), storing := s.storing - 1, completed := s.completed + 1)
    case StaleWrite => s.(counter := Signalled(s.counter), stale := s.stale - 1)
    case Fire => s.(wake := OneShot(Done))
    case Loop(c) => Looped(s, c)
  }

  function Exec(s: State, steps: seq<Step>): State
    decreases |steps|
  {
    if steps == [] then s else Exec(Apply(s, steps[0]), steps[1..])
  }

  /** run() has just cleared the flag. Calls of stop() that began earlier may still be under way. */
  function Start(wake: Wake, counter: nat, stale: nat): State
  {
    State(Top, wake, false, counter, stale, 0, 0)
  }

  /** The kernel polls the wake descriptor, or has done so and has yet to tell. */
  predicate Polled(wake: Wake) { wake.LevelTriggered? || wake.poll.Outstanding? || wake.poll.Done? }

  /** It does, or will as soon as the loop submits: a poll that is only queued is submitted before every wait. */
  predicate Watched(wake: Wake) { Polled(wake) || wake == OneShot(Queued) }

  /** The kernel is bound to end a wait: the wake event is due, or becomes due as the poll fires. */
  predicate WakeReady(s: State)
  {
    match s.wake
    case LevelTriggered => s.counter > 0
    case OneShot(poll) => poll.Done? || (poll.Outstanding? && s.counter > 0)
  }

  // ---------------------------------------------------------------- the invariant

  /** The loop has seen the flag clear and has not drained the counter since. */
  predicate Committed(pc: Pc)
  {
    match pc
    case Expiring | CheckExpired | Drain | CheckResumed | CheckDrained | Idle | Blocked => true
    case _ => false
  }

  predicate PollOk(s: State)
  {
    s.wake.OneShot? ==>
      match s.pc
      case Serving(_, true) => s.wake.poll.Collected?
      case WakeConsumed(_) => s.wake.poll.Unarmed?
      case Rearming(_) => s.wake.poll.Unarmed?
      case Submitting(_) => s.wake.poll.Queued?
      case Exited => true
      case Blocked => Polled(s.wake)
      case _ => Watched(s.wake) || (s.flag && !Committed(s.pc))
  }

  /** Only io_uring renews a poll, and a batch has at most 64 events. */
  predicate PcOk(s: State)
  {
    match s.pc
    case Serving(others, _) => others <= MAX_BATCH
    case WakeConsumed(others) => s.wake.OneShot? && others <= MAX_BATCH
    case Rearming(others) => s.wake.OneShot? && others <= MAX_BATCH
    case Submitting(others) => s.wake.OneShot? && others <= MAX_BATCH
    case _ => true
  }

  predicate Inv(s: State)
  {
    && (s.storing + s.completed > 0 ==> s.flag)
    && (Committed(s.pc) && s.completed > 0 ==> s.counter > 0)
    && PollOk(s) && PcOk(s)
  }

  lemma LoopKeepsInv(s: State, c: Choice)
    requires Inv(s) && Enabled(s, Loop(c))
    ensures Inv(Looped(s, c))
  {
    match s.pc
    case Serving(others, wake) =>
    case _ =>
  }

  lemma StepKeepsInv(s: State, step: Step)
    requires Inv(s)
    ensures Inv(Apply(s, step))
  {
    if step.Loop? && Enabled(s, step) { LoopKeepsInv(s, step.choice); }
  }

  lemma {:induction false} RunKeepsInv(s: State, steps: seq<Step>)
    requires Inv(s)
    ensures Inv(Exec(s, steps))
    decreases |steps|
  {
    if steps != [] {
      StepKeepsInv(s, steps[0]);
      RunKeepsInv(Apply(s, steps[0]), steps[1..]);
    }
  }

  // ---------------------------------------------------------------- stop is never lost

  /** Blocked although a stop() has completed, with nothing to end the wait. */
  predicate Lost(s: State) { s.pc.Blocked? && s.completed > 0 && !WakeReady(s) }

  /** Started with its wake source watched, the loop never stays blocked after a stop() has completed. */
  lemma StopIsNotLost(wake: Wake, counter: nat, stale: nat, steps: seq<Step>)
    requires Watched(wake)
    ensures !Lost(Exec(Start(wake, counter, stale), steps))
  {
    RunKeepsInv(Start(wake, counter, stale), steps);
  }

  const QUIET := Choice(false, false, false, 0, false)

  /** Block at once, and let a whole call of stop() happen then. */
  const STOP_WHILE_BLOCKED: seq<Step> :=
    [Loop(QUIET), Loop(QUIET), Loop(QUIET), Loop(QUIET), Loop(QUIET), Loop(QUIET)] + [Store, Write]

  lemma FirstStep(s: State, step: Step, rest: seq<Step>)
    ensures Exec(s, [step] + rest) == Exec(Apply(s, step), rest)
  {
    assert ([step] + rest)[1..] == rest;
  }

  /** Six uneventful steps take the loop from its flag check into a wait; a queued wake poll is submitted on the way. */
  lemma BlocksAtOnce(s: State, rest: seq<Step>)
    requires s.pc.Top? && !s.flag
    ensures Exec(s, [Loop(QUIET), Loop(QUIET), Loop(QUIET), Loop(QUIET), Loop(QUIET), Loop(QUIET)] + rest) ==
            Exec(s.(pc := Blocked, wake := Flushed(s.wake)), rest)
  {
    var q := Loop(QUIET);
    var half := [q, q, q];
    DrainsAtOnce(s, half + rest);
    IdlesAtOnce(s.(pc := Drain), rest);
    assert [q, q, q, q, q, q] + rest == half + (half + rest);
  }

  lemma DrainsAtOnce(s: State, rest: seq<Step>)
    requires s.pc.Top? && !s.flag
    ensures Exec(s, [Loop(QUIET), Loop(QUIET), Loop(QUIET)] + rest) == Exec(s.(pc := Drain), rest)
  {
    var q := Loop(QUIET);
    FirstStep(s.(pc := CheckExpired), q, rest);
    FirstStep(s.(pc := Expiring), q, [q] + rest);
    FirstStep(s, q, [q] + ([q] + rest));
    assert [q, q, q] + rest == [q] + ([q] + ([q] + rest));
  }

  lemma IdlesAtOnce(s: State, rest: seq<Step>)
    requires s.pc.Drain? && !s.flag
    ensures Exec(s, [Loop(QUIET), Loop(QUIET), Loop(QUIET)] + rest) ==
            Exec(s.(pc := Blocked, wake := Flushed(s.wake)), rest)
  {
    var q := Loop(QUIET);
    FirstStep(s.(pc := Idle), q, rest);
    FirstStep(s.(pc := CheckDrained), q, [q] + rest);
    FirstStep(s, q, [q] + ([q] + rest));
    assert [q, q, q] + rest == [q] + ([q] + ([q] + rest));
  }

  lemma StopWhileBlocked(s: State)
    requires s.pc.Top? && !s.flag && s.storing == 0
    ensures Exec(s, STOP_WHILE_BLOCKED) ==
            s.(pc := Blocked, wake := Flushed(s.wake), flag := true, counter := Signalled(s.counter),
               completed := s.completed + 1)
  {
    BlocksAtOnce(s, [Store, Write]);
    var blocked := s.(pc := Blocked, wake := Flushed(s.wake));
    FirstStep(blocked, Store, [Write]);
    FirstStep(Apply(blocked, Store), Write, []);
    assert [Store] + [Write] == [Store, Write] && [Write] + [] == [Write];
  }

  /**
   * Exactly when the claim holds: no interleaving loses a stop() if and only if run() starts with the
   * poll of its wake descriptor queued, outstanding or completed. An io_uring loop that is run again
   * after a stop may not meet that.
   */
  lemma StopIsNotLostIffWatched(wake: Wake, counter: nat, stale: nat)
    ensures (forall steps :: !Lost(Exec(Start(wake, counter, stale), steps))) <==> Watched(wake)
  {
    if Watched(wake) {
      forall steps ensures !Lost(Exec(Start(wake, counter, stale), steps)) {
        StopIsNotLost(wake, counter, stale, steps);
      }
    } else {
      StopWhileBlocked(Start(wake, counter, stale));
      assert Lost(Exec(Start(wake, counter, stale), STOP_WHILE_BLOCKED));
    }
  }

  /**
   * And an io_uring loop really can end up unwatched: a run that processes its wake event after the
   * flag was set does not renew the poll, so the next run of the same loop can lose a stop().
   */
  lemma StoppedRunEndsUnwatched(s: State) returns (steps: seq<Step>)
    requires s.pc.Blocked? && s.wake == OneShot(Outstanding) && s.flag && s.counter > 0
    ensures Exec(s, steps) == s.(pc := Exited, counter := 0, wake := OneShot(Unarmed))
    ensures !Watched(Exec(s, steps).wake)
  {
    var take := Loop(QUIET.(takeWake := true));
    var s2 := s.(pc := Serving(0, true), wake := OneShot(Collected));
    var s3 := s.(pc := WakeConsumed(0), wake := OneShot(Unarmed), counter := 0);
    var s4 := s3.(pc := Serving(0, false));
    steps := [Fire, take, take, Loop(QUIET), Loop(QUIET), Loop(QUIET)];
    assert Exec(s3.(pc := Top), steps[5..]) == Exec(s3.(pc := Exited), steps[5..][1..]);
    assert Exec(s4, steps[4..]) == Exec(s3.(pc := Top), steps[4..][1..]) && steps[4..][1..] == steps[5..];
    assert Exec(s3, steps[3..]) == Exec(s4, steps[3..][1..]) && steps[3..][1..] == steps[4..];
    assert Exec(s2, steps[2..]) == Exec(s3, steps[2..][1..]) && steps[2..][1..] == steps[3..];
    assert Exec(s.(wake := OneShot(Done)), steps[1..]) == Exec(s2, steps[1..][1..]) && steps[1..][1..] == steps[2..];
  }

  lemma {:induction false} ExecAppend(s: State, a: seq<Step>, b: seq<Step>)
    ensures Exec(s, a + b) == Exec(Exec(s, a), b)
    decreases |a|
  {
    if a == [] {
      assert a + b == b;
    } else {
      ExecAppend(Apply(s, a[0]), a[1..], b);
      assert (a + b)[1..] == a[1..] + b;
    }
  }

  /** run() once more on the same loop: the flag is cleared, everything else is as the last run left it. */
  function Restart(s: State): State { Start(s.wake, s.counter, s.stale + s.storing) }

  /**
   * The two together: an io_uring loop started with its wake poll armed is stopped and exits, and when it
   * is run again a whole call of stop() leaves it blocked for good.
   */
  lemma SecondRunLosesStop(counter: nat, stale: nat) returns (first: seq<Step>, second: seq<Step>)
    ensures var s := Exec(Start(OneShot(Outstanding), counter, stale), first);
            s.pc.Exited? && s.completed == 1 && Lost(Exec(Restart(s), second))
  {
    var begin := Start(OneShot(Outstanding), counter, stale);
    StopWhileBlocked(begin);
    var blocked := Exec(begin, STOP_WHILE_BLOCKED);
    var rest := StoppedRunEndsUnwatched(blocked);
    first, second := STOP_WHILE_BLOCKED + rest, STOP_WHILE_BLOCKED;
    ExecAppend(begin, STOP_WHILE_BLOCKED, rest);
    StopWhileBlocked(Restart(Exec(blocked, rest)));
  }

  /** While the loop is blocked nobody takes the wake event away. */
  lemma WakeStaysReady(s: State, step: Step)
    requires s.pc.Blocked? && WakeReady(s) && !step.Loop?
    ensures Apply(s, step).pc.Blocked? && WakeReady(Apply(s, step))
  {}

  /** One more step of the kernel, if any, and the wake event can be delivered. */
  lemma WakeBecomesDue(s: State)
    requires WakeReady(s)
    ensures WakeDue(Apply(s, Fire))
  {}

  // ---------------------------------------------------------------- and the loop soon exits

  /** An upper bound on the steps the loop can still take once the flag is set. */
  function Rank(pc: Pc): nat
  {
    match pc
    case Exited => 0
    case Top => 1
    case CheckExpired => 1
    case CheckDrained => 1
    case Expiring => 2
    case CheckResumed => 2
    case Drain => 3
    case Serving(others, wake) => 2 + 4 * others + (if wake then 4 else 0)
    case Submitting(others) => 3 + 4 * others
    case Rearming(others) => 4 + 4 * others
    case WakeConsumed(others) => 5 + 4 * others
    case Blocked => 7 + 4 * MAX_BATCH
    case Idle => 8 + 4 * MAX_BATCH
  }

  /** How many steps of a run are steps that the loop really takes. */
  function Taken(s: State, steps: seq<Step>): nat
    decreases |steps|
  {
    if steps == [] then 0
    else (if steps[0].Loop? && Enabled(s, steps[0]) then 1 else 0) + Taken(Apply(s, steps[0]), steps[1..])
  }

  lemma FlaggedStepCounts(s: State, step: Step)
    requires s.flag
    ensures Apply(s, step).flag
    ensures if step.Loop? && Enabled(s, step) then Rank(Apply(s, step).pc) < Rank(s.pc) else Apply(s, step).pc == s.pc
  {
    if step.Loop? && Enabled(s, step) {
      match s.pc
      case Serving(others, wake) =>
      case _ =>
    }
  }

  /** Once the flag is set the loop takes at most Rank more steps, however the others interleave. */
  lemma {:induction false} FlaggedLoopRunsDown(s: State, steps: seq<Step>)
    requires s.flag
    ensures Rank(Exec(s, steps).pc) + Taken(s, steps) <= Rank(s.pc)
    decreases |steps|
  {
    if steps != [] {
      FlaggedStepCounts(s, steps[0]);
      FlaggedLoopRunsDown(Apply(s, steps[0]), steps[1..]);
    }
  }

  /**
   * After a completed stop(): the loop has exited, or it has a step to take - and if that step is the
   * end of a wait, the kernel owes it, at once or when the poll fires - and in no continuation does it
   * take more than 264 steps. Those taken, it has exited.
   */
  lemma StoppedLoopExits(wake: Wake, counter: nat, stale: nat, before: seq<Step>, after: seq<Step>)
    requires Watched(wake) && Exec(Start(wake, counter, stale), before).completed > 0
    ensures var s := Exec(Start(wake, counter, stale), before);
            && (s.pc.Blocked? ==> WakeReady(s) && WakeDue(Apply(s, Fire)))
            && (!s.pc.Exited? && !s.pc.Blocked? ==> forall c :: Enabled(s, Loop(c)))
            && Taken(s, after) <= Rank(s.pc) <= 264
            && (Taken(s, after) == Rank(s.pc) ==> Exec(s, after).pc.Exited?)
  {
    var s := Exec(Start(wake, counter, stale), before);
    RunKeepsInv(Start(wake, counter, stale), before);
    FlaggedLoopRunsDown(s, after);
    if s.pc.Blocked? { WakeBecomesDue(s); }
  }
}
