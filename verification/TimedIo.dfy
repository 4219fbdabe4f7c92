/**
 * Reads, writes and sleeps with a deadline. Each is a loop of short waits, so that a cancelled token is
 * noticed within a slice; `turns` is everything that happens to one call, round by round.
 */
module TimedIo {
  import opened Base
  import opened Slices

  const SLICE_MS: nat := 20

  /** A transfer on a non-blocking stream moves some bytes or fails with an errno. */
  datatype Transfer = Moved(n: nat) | Refused(code: int)

  predicate WouldBlock(t: Transfer) { t == Refused(EAGAIN) }

  /** One round: is the token cancelled, what the transfer gives, what the clock says, how the wait ends. */
  datatype Turn = Turn(cancelled: bool, transfer: Transfer, now: Time, wait: Status)

  /**
   * TimedOut is the call's own ETIMEDOUT, `at` the clock reading that caused it; Failed passes on an
   * error of the transfer or the wait.
   */
  datatype Result = Transferred(n: nat) | Failed(code: int) | Cancelled | TimedOut(at: Time) | Invalid | Paused

  /** The errno a failed call returns. */
  function Code(r: Result): int
  {
    match r
    case Failed(code) => code
    case Cancelled => ECANCELED
    case TimedOut(_) => ETIMEDOUT
    case Invalid => EINVAL
    case _ => 0
  }

  predicate IsTimeout(st: Status) { st == Err(ETIMEDOUT) }

  /** Does this round end the call, and how? */
  function Verdict(t: Turn, deadline: Time): Option<Result>
  {
    if t.cancelled then Some(Cancelled)
    else if t.transfer.Moved? then Some(Transferred(t.transfer.n))
    else if !WouldBlock(t.transfer) then Some(Failed(t.transfer.code))
    else if t.now >= deadline then Some(TimedOut(t.now))
    else if t.wait.Err? && !IsTimeout(t.wait) then Some(Failed(t.wait.code))
    else None
  }

  function TimedRun(deadline: Time, turns: seq<Turn>): Result
    decreases |turns|
  {
    if turns == [] then Paused
    else match Verdict(turns[0], deadline)
      case Some(r) => r
      case None => TimedRun(deadline, turns[1..])
  }

  /** Does the call wait in this round? */
  predicate Waits(t: Turn, deadline: Time)
  {
    !t.cancelled && WouldBlock(t.transfer) && t.now < deadline
  }

  /** The slices a call asks for, one per wait. */
  function Requested(deadline: Time, turns: seq<Turn>): seq<nat>
    decreases |turns|
  {
    if turns == [] || !Waits(turns[0], deadline) then []
    else [Slice(deadline - turns[0].now, SLICE_MS)] +
         (if Verdict(turns[0], deadline).Some? then [] else Requested(deadline, turns[1..]))
  }

  /** How many of its waits time out. */
  function TimedOutWaits(deadline: Time, turns: seq<Turn>): nat
    decreases |turns|
  {
    if turns == [] || !Waits(turns[0], deadline) || Verdict(turns[0], deadline).Some? then 0
    else (if IsTimeout(turns[0].wait) then 1 else 0) + TimedOutWaits(deadline, turns[1..])
  }

  /** The clock never goes back, and a wait that times out lasts at least as long as it was asked to. */
  ghost predicate Honest(deadline: Time, turns: seq<Turn>)
  {
    forall i {:trigger turns[i]} :: 0 <= i < |turns| - 1 ==>
      && turns[i].now <= turns[i + 1].now
      && (Waits(turns[i], deadline) && IsTimeout(turns[i].wait) ==>
            turns[i].now + Slice(deadline - turns[i].now, SLICE_MS) * NS_PER_MS <= turns[i + 1].now)
  }

  /** Every slice lies in 1..20 ms and is the time left in whole milliseconds, or 20 ms if that is more. */
  lemma {:induction false} SlicesAreShort(deadline: Time, turns: seq<Turn>, i: nat)
    requires i < |Requested(deadline, turns)|
    ensures |Requested(deadline, turns)| <= |turns| && Waits(turns[i], deadline)
    ensures 1 <= Requested(deadline, turns)[i] <= 20
    ensures turns[i].now + Requested(deadline, turns)[i] * NS_PER_MS < deadline + NS_PER_MS
    ensures Requested(deadline, turns)[i] < 20 ==>
              deadline < turns[i].now + (Requested(deadline, turns)[i] + 1) * NS_PER_MS
    decreases |turns|
  {
    SliceFits(deadline - turns[0].now, SLICE_MS);
    if Verdict(turns[0], deadline).None? {
      var rest := Requested(deadline, turns[1..]);
      if i > 0 { SlicesAreShort(deadline, turns[1..], i - 1); }
      else if rest != [] { SlicesAreShort(deadline, turns[1..], 0); }
    }
  }

  function WholeMs(left: Time): nat { if left <= 0 then 0 else (left + NS_PER_MS - 1) / NS_PER_MS }

  /** Rounds of 20 ms, then one for what is left in whole milliseconds, then one for the rest. */
  function Rounds(left: Time): nat
  {
    if left <= 0 then 0
    else if left < NS_PER_MS then 1
    else left / (SLICE_MS * NS_PER_MS) + 2
  }

  lemma SliceUsesUp(left: Time, after: Time)
    requires left > 0 && after <= left - Slice(left, SLICE_MS) * NS_PER_MS
    ensures WholeMs(after) < WholeMs(left) && Rounds(after) < Rounds(left)
  {
    SliceFits(left, SLICE_MS);
    if left >= SLICE_MS * NS_PER_MS {
      assert Slice(left, SLICE_MS) == SLICE_MS;
      if after > 0 { assert after / (SLICE_MS * NS_PER_MS) <= (left - SLICE_MS * NS_PER_MS) / (SLICE_MS * NS_PER_MS); }
      assert (left - SLICE_MS * NS_PER_MS) / (SLICE_MS * NS_PER_MS) == left / (SLICE_MS * NS_PER_MS) - 1;
    }
  }

  lemma LessLeft(left: Time, after: Time)
    requires after <= left
    ensures WholeMs(after) <= WholeMs(left) && Rounds(after) <= Rounds(left)
  {
    if after >= NS_PER_MS { assert after / (SLICE_MS * NS_PER_MS) <= left / (SLICE_MS * NS_PER_MS); }
  }

  lemma {:induction false} WaitsRunOut(deadline: Time, turns: seq<Turn>)
    requires Honest(deadline, turns) && turns != []
    ensures TimedOutWaits(deadline, turns) <= WholeMs(deadline - turns[0].now)
    ensures TimedOutWaits(deadline, turns) <= Rounds(deadline - turns[0].now)
    decreases |turns|
  {
    var left := deadline - turns[0].now;
    if Waits(turns[0], deadline) && Verdict(turns[0], deadline).None? && |turns| > 1 {
      var rest := turns[1..];
      assert Honest(deadline, rest) by {
        forall i | 0 <= i < |rest| - 1
          ensures rest[i].now <= rest[i + 1].now
          ensures Waits(rest[i], deadline) && IsTimeout(rest[i].wait) ==>
                    rest[i].now + Slice(deadline - rest[i].now, SLICE_MS) * NS_PER_MS <= rest[i + 1].now
        {
          assert rest[i] == turns[i + 1] && rest[i + 1] == turns[i + 2];
        }
      }
      WaitsRunOut(deadline, rest);
      if IsTimeout(turns[0].wait) {
        SliceUsesUp(left, deadline - rest[0].now);
      } else {
        LessLeft(left, deadline - rest[0].now);
      }
    }
  }

  /** A call with a timeout of T ms makes at most T timed-out waits, and at most T / 20 + 2. */
  lemma TimedOutWaitsAreBounded(start: Time, timeoutMs: nat, turns: seq<Turn>)
    requires turns != [] ==> start <= turns[0].now
    requires Honest(start + timeoutMs * NS_PER_MS, turns)
    ensures TimedOutWaits(start + timeoutMs * NS_PER_MS, turns) <= timeoutMs
    ensures TimedOutWaits(start + timeoutMs * NS_PER_MS, turns) <= timeoutMs / 20 + 2
  {
    var deadline := start + timeoutMs * NS_PER_MS;
    if turns != [] {
      WaitsRunOut(deadline, turns);
      LessLeft(timeoutMs * NS_PER_MS, deadline - turns[0].now);
      assert WholeMs(timeoutMs * NS_PER_MS) == timeoutMs;
      assert timeoutMs * NS_PER_MS / (SLICE_MS * NS_PER_MS) == timeoutMs / SLICE_MS;
    }
  }

  /** The round in which a run ends: the first one with a verdict. */
  ghost predicate EndsAt(deadline: Time, turns: seq<Turn>, i: nat)
  {
    && i < |turns| && Verdict(turns[i], deadline).Some?
    && forall j :: 0 <= j < i ==> Verdict(turns[j], deadline).None?
  }

  lemma {:induction false} RunEnds(deadline: Time, turns: seq<Turn>)
    ensures TimedRun(deadline, turns) != Paused ==>
              exists i: nat :: EndsAt(deadline, turns, i) && Verdict(turns[i], deadline) == Some(TimedRun(deadline, turns))
    decreases |turns|
  {
    if turns != [] {
      if Verdict(turns[0], deadline).Some? {
        assert EndsAt(deadline, turns, 0);
      } else if TimedRun(deadline, turns) != Paused {
        var rest := turns[1..];
        RunEnds(deadline, rest);
        var i: nat :| EndsAt(deadline, rest, i) && Verdict(rest[i], deadline) == Some(TimedRun(deadline, rest));
        assert EndsAt(deadline, turns, i + 1) by {
          forall j | 0 <= j < i + 1 ensures Verdict(turns[j], deadline).None? {
            if j > 0 { assert turns[j] == rest[j - 1]; }
          }
        }
      }
    }
  }

  /**
   * The call's own ETIMEDOUT is never early: it read a clock at or past its deadline, right after one
   * more transfer that would have blocked, and every transfer before had blocked as well.
   */
  lemma OwnTimeoutIsNotEarly(deadline: Time, turns: seq<Turn>)
    requires TimedRun(deadline, turns).TimedOut?
    ensures TimedRun(deadline, turns).at >= deadline
    ensures exists i :: 0 <= i < |turns| && turns[i].now == TimedRun(deadline, turns).at &&
              forall j :: 0 <= j <= i ==> WouldBlock(turns[j].transfer) && !turns[j].cancelled
  {
    RunEnds(deadline, turns);
    var i: nat :| EndsAt(deadline, turns, i) && Verdict(turns[i], deadline) == Some(TimedRun(deadline, turns));
    forall j | 0 <= j <= i ensures WouldBlock(turns[j].transfer) && !turns[j].cancelled {
      assert j < i ==> Verdict(turns[j], deadline).None?;
    }
  }

  /** The call goes on after this round: nothing moved, time is left, and the wait ended well or ran out. */
  predicate GoesOn(t: Turn, deadline: Time)
  {
    !t.cancelled && t.transfer == Refused(EAGAIN) && t.now < deadline && (t.wait == Ok || t.wait == Err(ETIMEDOUT))
  }

  /** The call ends in this round with this result. */
  predicate EndsAs(t: Turn, deadline: Time, out: Result)
  {
    match out
    case Cancelled => t.cancelled
    case Transferred(n) => !t.cancelled && t.transfer == Moved(n)
    case TimedOut(at) => !t.cancelled && t.transfer == Refused(EAGAIN) && at == t.now >= deadline
    case Failed(code) =>
      && !t.cancelled
      && ((t.transfer == Refused(code) && code != EAGAIN) ||
          (t.transfer == Refused(EAGAIN) && t.now < deadline && t.wait == Err(code) && code != ETIMEDOUT))
    case _ => false
  }

  ghost predicate EndsIn(deadline: Time, turns: seq<Turn>, i: nat, out: Result)
  {
    i < |turns| && EndsAs(turns[i], deadline, out) && forall j :: 0 <= j < i ==> GoesOn(turns[j], deadline)
  }

  /**
   * Every result and its cause: the bytes moved, the error of the transfer or of the wait, the cancelled token or
   * the deadline of the first round that does not go on; and none as long as every round goes on.
   */
  lemma {:induction false} TransferEndsAs(deadline: Time, turns: seq<Turn>, out: Result)
    ensures out != Paused ==> (TimedRun(deadline, turns) == out <==> exists i: nat :: EndsIn(deadline, turns, i, out))
    ensures TimedRun(deadline, turns) == Paused <==> forall i :: 0 <= i < |turns| ==> GoesOn(turns[i], deadline)
    decreases |turns|
  {
    if turns != [] {
      var rest := turns[1..];
      TransferEndsAs(deadline, rest, out);
      assert GoesOn(turns[0], deadline) <==> Verdict(turns[0], deadline).None?;
      assert forall j :: 0 <= j < |rest| ==> rest[j] == turns[j + 1];
      if EndsAs(turns[0], deadline, out) { assert EndsIn(deadline, turns, 0, out); }
      if i: nat :| EndsIn(deadline, rest, i, out) && GoesOn(turns[0], deadline) {
        assert EndsIn(deadline, turns, i + 1, out);
      }
      if i: nat :| EndsIn(deadline, turns, i, out) && i > 0 {
        assert EndsIn(deadline, rest, i - 1, out);
      }
    }
  }

  /** The call is in round i, has asked for `slices` and seen `timeouts` of them time out. */
  ghost predicate SoFar(deadline: Time, turns: seq<Turn>, i: nat, slices: seq<nat>, timeouts: nat)
  {
    && i <= |turns|
    && TimedRun(deadline, turns) == TimedRun(deadline, turns[i..])
    && Requested(deadline, turns) == slices + Requested(deadline, turns[i..])
    && TimedOutWaits(deadline, turns) == timeouts + TimedOutWaits(deadline, turns[i..])
  }

  /** `out` is how the call ends, after these slices and timeouts. */
  ghost predicate Ends(deadline: Time, turns: seq<Turn>, out: Result, slices: seq<nat>, timeouts: nat)
  {
    out == TimedRun(deadline, turns) && slices == Requested(deadline, turns) && timeouts == TimedOutWaits(deadline, turns)
  }

  lemma FirstRound(deadline: Time, turns: seq<Turn>)
    ensures SoFar(deadline, turns, 0, [], 0)
  {
    assert turns[0..] == turns;
  }

  lemma NextRound(deadline: Time, turns: seq<Turn>, i: nat, slices: seq<nat>, timeouts: nat)
    requires SoFar(deadline, turns, i, slices, timeouts)
    requires i < |turns| && Waits(turns[i], deadline) && Verdict(turns[i], deadline).None?
    ensures SoFar(deadline, turns, i + 1, slices + [Slice(deadline - turns[i].now, SLICE_MS)],
                  timeouts + if IsTimeout(turns[i].wait) then 1 else 0)
  {
    var slice, rest := Slice(deadline - turns[i].now, SLICE_MS), Requested(deadline, turns[i + 1..]);
    assert turns[i..][1..] == turns[i + 1..];
    assert slices + ([slice] + rest) == slices + [slice] + rest;
  }

  lemma LastRound(deadline: Time, turns: seq<Turn>, i: nat, slices: seq<nat>, timeouts: nat)
    requires SoFar(deadline, turns, i, slices, timeouts)
    requires i < |turns| ==> Verdict(turns[i], deadline).Some?
    ensures Ends(deadline, turns, if i < |turns| then Verdict(turns[i], deadline).value else Paused,
                 slices + if i < |turns| && Waits(turns[i], deadline) then [Slice(deadline - turns[i].now, SLICE_MS)] else [],
                 timeouts)
  {}

  /** `async_read_some_with_timeout` and `async_write_some_with_timeout`, which differ only in the transfer. */
  method TransferWithTimeout(timeoutMs: int, start: Time, turns: seq<Turn>)
    returns (out: Result, slices: seq<nat>, timeouts: nat)
    ensures timeoutMs < 0 ==> out == Invalid && slices == []
    ensures timeoutMs >= 0 ==>
              var deadline := start + timeoutMs * NS_PER_MS;
              && out == TimedRun(deadline, turns)
              && slices == Requested(deadline, turns)
              && timeouts == TimedOutWaits(deadline, turns)
  {
    slices, timeouts := [], 0;
    if timeoutMs < 0 { return Invalid, slices, timeouts; }
    var deadline := start + timeoutMs * NS_PER_MS;
    FirstRound(deadline, turns);
    var i := 0;
    while i < |turns|
      invariant SoFar(deadline, turns, i, slices, timeouts)
    {
      var t := turns[i];
      if Verdict(t, deadline).Some? {
        LastRound(deadline, turns, i, slices, timeouts);
      } else {
        NextRound(deadline, turns, i, slices, timeouts);
      }
      if t.cancelled { return Cancelled, slices, timeouts; }
      if t.transfer.Moved? { return Transferred(t.transfer.n), slices, timeouts; }
      if !WouldBlock(t.transfer) { return Failed(t.transfer.code), slices, timeouts; }
      if t.now >= deadline { return TimedOut(t.now), slices, timeouts; }
      slices := slices + [Slice(deadline - t.now, SLICE_MS)];
      if t.wait.Err? && !IsTimeout(t.wait) { return Failed(t.wait.code), slices, timeouts; }
      if IsTimeout(t.wait) { timeouts := timeouts + 1; }
      i := i + 1;
    }
    LastRound(deadline, turns, i, slices, timeouts);
    out := Paused;
  }

  // ---------------------------------------------------------------- async_sleep

  /** One round of a sleep: token, clock, the timer being set, the wait for it, and reading it. */
  datatype Nap = Nap(cancelled: bool, now: Time, setError: Option<int>, wait: Status, readError: Option<int>)

  datatype SleepResult = Slept | SleepFailed(code: int) | Asleep

  /** The first setting of the timer, as seconds and nanoseconds. */
  function TimerSpec(sliceMs: nat): (int, int) { (sliceMs / 1000, sliceMs % 1000 * NS_PER_MS) }

  /** A timer is never set to zero, which would disarm it and sleep for ever. */
  lemma TimerIsArmed(left: Time)
    requires left > 0
    ensures var (sec, nsec) := TimerSpec(Slice(left, SLICE_MS));
            && sec == 0 && 0 < nsec < 1_000_000_000 && nsec == Slice(left, SLICE_MS) * NS_PER_MS
  {
    SliceFits(left, SLICE_MS);
  }

  /** A read of the timer that fails with EINTR or EAGAIN is as good as one that succeeds. */
  predicate ReadAgain(error: Option<int>) { error.None? || error.value == EINTR || error.value == EAGAIN }

  /** Does this round end the sleep, and how? */
  function NapVerdict(nap: Nap, deadline: Time): Option<SleepResult>
  {
    if nap.cancelled then Some(SleepFailed(ECANCELED))
    else if nap.now >= deadline then Some(Slept)
    else if nap.setError.Some? then Some(SleepFailed(nap.setError.value))
    else if nap.wait.Err? then Some(SleepFailed(nap.wait.code))
    else if !ReadAgain(nap.readError) then Some(SleepFailed(nap.readError.value))
    else None
  }

  function SleepRun(deadline: Time, naps: seq<Nap>): SleepResult
    decreases |naps|
  {
    if naps == [] then Asleep
    else match NapVerdict(naps[0], deadline)
      case Some(r) => r
      case None => SleepRun(deadline, naps[1..])
  }

  /** The sleep goes on after this round: time is left, and the timer was set, waited for and read. */
  predicate Dozes(nap: Nap, deadline: Time)
  {
    && !nap.cancelled && nap.now < deadline && nap.setError.None? && nap.wait == Ok
    && (nap.readError.None? || nap.readError == Some(EINTR) || nap.readError == Some(EAGAIN))
  }

  /** The sleep ends in this round with this result. */
  predicate WakesAs(nap: Nap, deadline: Time, out: SleepResult)
  {
    match out
    case Slept => !nap.cancelled && nap.now >= deadline
    case SleepFailed(code) =>
      if nap.cancelled then code == ECANCELED
      else nap.now < deadline &&
           if nap.setError.Some? then nap.setError.value == code
           else if nap.wait.Err? then nap.wait.code == code
           else nap.readError == Some(code) && code != EINTR && code != EAGAIN
    case Asleep => false
  }

  ghost predicate WakesIn(deadline: Time, naps: seq<Nap>, i: nat, out: SleepResult)
  {
    i < |naps| && WakesAs(naps[i], deadline, out) && forall j :: 0 <= j < i ==> Dozes(naps[j], deadline)
  }

  /** Every result and its cause, and none as long as every round dozes. */
  lemma {:induction false} SleepEndsAs(deadline: Time, naps: seq<Nap>, out: SleepResult)
    ensures out != Asleep ==> (SleepRun(deadline, naps) == out <==> exists i: nat :: WakesIn(deadline, naps, i, out))
    ensures SleepRun(deadline, naps) == Asleep <==> forall i :: 0 <= i < |naps| ==> Dozes(naps[i], deadline)
    decreases |naps|
  {
    if naps != [] {
      var rest := naps[1..];
      SleepEndsAs(deadline, rest, out);
      assert Dozes(naps[0], deadline) <==> NapVerdict(naps[0], deadline).None?;
      assert forall j :: 0 <= j < |rest| ==> rest[j] == naps[j + 1];
      if WakesAs(naps[0], deadline, out) { assert WakesIn(deadline, naps, 0, out); }
      if i: nat :| WakesIn(deadline, rest, i, out) && Dozes(naps[0], deadline) {
        assert WakesIn(deadline, naps, i + 1, out);
      }
      if i: nat :| WakesIn(deadline, naps, i, out) && i > 0 {
        assert WakesIn(deadline, rest, i - 1, out);
      }
    }
  }

  ghost predicate SleptThrough(deadline: Time, naps: seq<Nap>, i: nat)
  {
    && i < |naps| && !naps[i].cancelled && naps[i].now >= deadline
    && forall j :: 0 <= j < i ==> Dozes(naps[j], deadline)
  }

  /** A sleep succeeds if and only if some round finds the deadline passed before anything goes wrong. */
  lemma SleepIsNotEarly(deadline: Time, naps: seq<Nap>)
    ensures SleepRun(deadline, naps) == Slept <==> exists i: nat :: SleptThrough(deadline, naps, i)
  {
    SleepEndsAs(deadline, naps, Slept);
    if i: nat :| WakesIn(deadline, naps, i, Slept) { assert SleptThrough(deadline, naps, i); }
    if i: nat :| SleptThrough(deadline, naps, i) { assert WakesIn(deadline, naps, i, Slept); }
  }

  /** Setting i of the timer was made in round i: up to 20 ms, and what is left in whole milliseconds if that is less. */
  ghost predicate TimerSet(deadline: Time, naps: seq<Nap>, settings: seq<(int, int)>, i: int)
  {
    0 <= i < |settings| ==>
      && i < |naps| && naps[i].now < deadline && settings[i].0 == 0
      && var ns := settings[i].1;
         && 0 < ns <= 20_000_000 && naps[i].now + ns < deadline + NS_PER_MS
         && (ns < 20_000_000 ==> deadline < naps[i].now + ns + NS_PER_MS)
  }

  ghost predicate TimersSet(deadline: Time, naps: seq<Nap>, settings: seq<(int, int)>)
  {
    forall i {:trigger TimerSet(deadline, naps, settings, i)} :: TimerSet(deadline, naps, settings, i)
  }

  lemma TimerFits(deadline: Time, naps: seq<Nap>, settings: seq<(int, int)>)
    requires |settings| < |naps| && naps[|settings|].now < deadline
    requires TimersSet(deadline, naps, settings)
    ensures TimersSet(deadline, naps, settings + [TimerSpec(Slice(deadline - naps[|settings|].now, SLICE_MS))])
  {
    var left := deadline - naps[|settings|].now;
    var more := settings + [TimerSpec(Slice(left, SLICE_MS))];
    SliceFits(left, SLICE_MS);
    TimerIsArmed(left);
    forall i ensures TimerSet(deadline, naps, more, i) {
      assert TimerSet(deadline, naps, settings, i);
    }
  }

  /** `async_sleep`: a duration that is not positive succeeds at once unless the token is cancelled. */
  method Sleep(durationMs: int, cancelled: bool, timerError: Option<int>, start: Time, naps: seq<Nap>)
    returns (out: SleepResult, settings: seq<(int, int)>)
    ensures cancelled ==> out == SleepFailed(ECANCELED)
    ensures !cancelled && durationMs <= 0 ==> out == Slept
    ensures !cancelled && durationMs > 0 && timerError.Some? ==> out == SleepFailed(timerError.value)
    ensures !cancelled && durationMs > 0 && timerError.None? ==> out == SleepRun(start + durationMs * NS_PER_MS, naps)
    ensures TimersSet(start + durationMs * NS_PER_MS, naps, settings)
    ensures out == Asleep ==> |settings| == |naps|
  {
    settings := [];
    if cancelled { return SleepFailed(ECANCELED), settings; }
    if durationMs <= 0 { return Slept, settings; }
    if timerError.Some? { return SleepFailed(timerError.value), settings; }
    var deadline := start + durationMs * NS_PER_MS;
    var i := 0;
    while i < |naps|
      invariant i <= |naps| && SleepRun(deadline, naps) == SleepRun(deadline, naps[i..])
      invariant |settings| == i && TimersSet(deadline, naps, settings)
    {
      var nap := naps[i];
      assert naps[i..][1..] == naps[i + 1..];
      if nap.cancelled { return SleepFailed(ECANCELED), settings; }
      if nap.now >= deadline { return Slept, settings; }
      TimerFits(deadline, naps, settings);
      settings := settings + [TimerSpec(Slice(deadline - nap.now, SLICE_MS))];
      if nap.setError.Some? { return SleepFailed(nap.setError.value), settings; }
      if nap.wait.Err? { return SleepFailed(nap.wait.code), settings; }
      if !ReadAgain(nap.readError) { return SleepFailed(nap.readError.value), settings; }
      i := i + 1;
    }
    out := Asleep;
  }
}
