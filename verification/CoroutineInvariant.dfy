/**
 * The invariant of the coroutine protocol and the proof that every step keeps it. Each step has
 * four small lemmas: what it does to one frame, to one wait record, to the queue and the wait
 * tables, and to the roots and the counts.
 */
module CoroutineInvariant {
  import opened Base
  import opened Coroutines

  /** What the state of frame `h` says about the rest of the system. */
  ghost predicate FrameOk(s: Sys, h: Handle)
    requires h in s.frames
  {
    var f := s.frames[h];
    && h != NULL_HANDLE
    && (f.state.Live() ==> f.order < s.clock)
    && (f.state.Queued() ==> h in s.ready)
    && (f.state.Running? ==> s.running == h)
    && (f.state.NotStarted? ==> f.continuation == NULL_HANDLE && !f.tracked)
    && (f.tracked ==> f.continuation == NULL_HANDLE)
    && (f.state.Live() || f.state.Done? ==> (f.tracked <==> f.continuation == NULL_HANDLE))
    && (f.tracked && !f.state.Destroyed? ==> h in s.roots)
    && AwaitOk(s, h) && ContinuationOk(s, h) && WaitOk(s, h)
  }

  ghost predicate AwaitOk(s: Sys, h: Handle)
    requires h in s.frames
  {
    match s.frames[h].state
    case Awaiting(c) =>
      c in s.frames && s.frames[c].state.Live() && s.frames[c].continuation == h &&
      s.frames[h].order < s.frames[c].order
    case QueuedChild(c) => c in s.frames && s.frames[c].state.Done? && s.frames[c].continuation == h
    case _ => true
  }

  ghost predicate ContinuationOk(s: Sys, h: Handle)
    requires h in s.frames
  {
    var f := s.frames[h];
    f.continuation != NULL_HANDLE && !f.state.Destroyed? ==>
      && f.continuation in s.frames
      && (f.state.Live() ==> s.frames[f.continuation].state == Awaiting(h))
      && (f.state.Done? ==> s.frames[f.continuation].state == QueuedChild(h))
  }

  ghost predicate WaitOk(s: Sys, h: Handle)
    requires h in s.frames
  {
    var f := s.frames[h];
    match f.state
    case Waiting(k) =>
      k in s.armed && s.armed[k].handle == h &&
      f.wait < |s.waits| && s.waits[f.wait] == WaitRecord(h, k, 0, [], [])
    case QueuedWait =>
      h in s.results && f.wait < |s.waits| &&
      s.waits[f.wait] == WaitRecord(h, s.waits[f.wait].key, 1, [s.results[h]], [])
    case _ => true
  }

  ghost predicate RecordOk(s: Sys, i: nat)
    requires i < |s.waits|
  {
    var r := s.waits[i];
    || (r.wakeups == 1 && |r.written| == 1 && r.consumed == r.written)
    || (r.handle in s.frames && s.frames[r.handle].wait == i &&
        (s.frames[r.handle].state == Waiting(r.key) || s.frames[r.handle].state == QueuedWait))
  }

  ghost predicate ReadyOk(s: Sys)
  {
    && (forall i, j :: 0 <= i < j < |s.ready| ==> s.ready[i] != s.ready[j])
    && (forall h :: h in s.ready ==> h in s.frames && s.frames[h].state.Queued())
  }

  ghost predicate RunningOk(s: Sys)
  {
    s.running != NULL_HANDLE ==> s.running in s.frames && s.frames[s.running].state.Running?
  }

  ghost predicate TablesOk(s: Sys)
  {
    && (forall h :: h in s.results ==> h in s.frames && s.frames[h].state.QueuedWait?)
    && (forall k :: k in s.armed ==> s.armed[k].handle in s.frames && s.frames[s.armed[k].handle].state == Waiting(k))
  }

  ghost predicate RootsOk(s: Sys)
  {
    && (forall i, j :: 0 <= i < j < |s.roots| ==> s.roots[i] != s.roots[j])
    && (forall h :: h in s.roots ==> h in s.frames && s.frames[h].tracked && !s.frames[h].state.Destroyed?)
  }

  predicate UnfinishedRoot(f: Frame) { f.tracked && f.state.Live() }

  ghost function Unfinished(frames: map<Handle, Frame>): set<Handle>
  {
    set h | h in frames && UnfinishedRoot(frames[h])
  }

  ghost function Allocated(frames: map<Handle, Frame>): set<Handle>
  {
    set h | h in frames && !frames[h].state.Destroyed?
  }

  ghost predicate CountsOk(s: Sys)
  {
    && s.active == |Unfinished(s.frames)|
    && s.created == s.freed + |Allocated(s.frames)|
  }

  ghost predicate Inv(s: Sys)
  {
    && (forall h :: h in s.frames ==> FrameOk(s, h))
    && (forall i: nat :: i < |s.waits| ==> RecordOk(s, i))
    && ReadyOk(s)
    && RunningOk(s)
    && TablesOk(s)
    && RootsOk(s)
    && CountsOk(s)
  }



  function Count(b: bool): int { if b then 1 else 0 }

  lemma PutElement(a: set<Handle>, b: set<Handle>, h: Handle)
    requires a - {h} == b - {h}
    ensures |a| == |b| + Count(h in a) - Count(h in b)
  {
    assert a == a - {h} + if h in a then {h} else {};
    assert b == b - {h} + if h in b then {h} else {};
  }

  /** How replacing one frame changes the two counts. */
  lemma PutFrame(m: map<Handle, Frame>, h: Handle, f: Frame)
    ensures |Unfinished(m[h := f])| ==
            |Unfinished(m)| + Count(UnfinishedRoot(f)) - Count(h in m && UnfinishedRoot(m[h]))
    ensures |Allocated(m[h := f])| ==
            |Allocated(m)| + Count(!f.state.Destroyed?) - Count(h in m && !m[h].state.Destroyed?)
  {
    PutElement(Unfinished(m[h := f]), Unfinished(m), h);
    PutElement(Allocated(m[h := f]), Allocated(m), h);
  }

  lemma CreateFrame(s: Sys, h: Handle, x: Handle)
    requires CanCreate(s, h)
    requires x in Created(s, h).frames && (x in s.frames ==> FrameOk(s, x))
    ensures FrameOk(Created(s, h), x)
  {}

  lemma CreateRecord(s: Sys, h: Handle, i: nat)
    requires CanCreate(s, h) && i < |Created(s, h).waits| && (i < |s.waits| ==> RecordOk(s, i))
    ensures RecordOk(Created(s, h), i)
  {}

  lemma CreateTables(s: Sys, h: Handle)
    requires CanCreate(s, h) && ReadyOk(s) && RunningOk(s) && TablesOk(s)
    ensures ReadyOk(Created(s, h)) && RunningOk(Created(s, h)) && TablesOk(Created(s, h))
  {}

  lemma CreateRoots(s: Sys, h: Handle)
    requires CanCreate(s, h) && RootsOk(s) && CountsOk(s)
    ensures RootsOk(Created(s, h)) && CountsOk(Created(s, h))
  {
    PutFrame(s.frames, h, Created(s, h).frames[h]);
  }

  lemma CreateKeeps(s: Sys, h: Handle)
    requires Inv(s) && CanCreate(s, h)
    ensures Inv(Created(s, h))
  {
    var t := Created(s, h);
    CreateTables(s, h);
    CreateRoots(s, h);
    forall x | x in t.frames ensures FrameOk(t, x) { CreateFrame(s, h, x); }
    forall i: nat | i < |t.waits| ensures RecordOk(t, i) { CreateRecord(s, h, i); }
  }

  lemma DropFrame(s: Sys, h: Handle, x: Handle)
    requires Owned(s, h) && FrameOk(s, h)
    requires x in Dropped(s, h).frames && (x in s.frames ==> FrameOk(s, x))
    ensures FrameOk(Dropped(s, h), x)
  {}

  lemma DropRecord(s: Sys, h: Handle, i: nat)
    requires Owned(s, h) && FrameOk(s, h) && i < |Dropped(s, h).waits| && (i < |s.waits| ==> RecordOk(s, i))
    ensures RecordOk(Dropped(s, h), i)
  {}

  lemma DropTables(s: Sys, h: Handle)
    requires Owned(s, h) && FrameOk(s, h) && ReadyOk(s) && RunningOk(s) && TablesOk(s)
    ensures ReadyOk(Dropped(s, h)) && RunningOk(Dropped(s, h)) && TablesOk(Dropped(s, h))
  {}

  lemma DropRoots(s: Sys, h: Handle)
    requires Owned(s, h) && FrameOk(s, h) && RootsOk(s) && CountsOk(s)
    ensures RootsOk(Dropped(s, h)) && CountsOk(Dropped(s, h))
  {
    PutFrame(s.frames, h, Dropped(s, h).frames[h]);
  }

  lemma DropKeeps(s: Sys, h: Handle)
    requires Inv(s) && Owned(s, h)
    ensures Inv(Dropped(s, h))
  {
    var t := Dropped(s, h);
    assert FrameOk(s, h);
    DropTables(s, h);
    DropRoots(s, h);
    forall x | x in t.frames ensures FrameOk(t, x) { DropFrame(s, h, x); }
    forall i: nat | i < |t.waits| ensures RecordOk(t, i) { DropRecord(s, h, i); }
  }

  lemma SpawnFrame(s: Sys, h: Handle, x: Handle)
    requires Owned(s, h) && FrameOk(s, h)
    requires x in Spawned(s, h).frames && (x in s.frames ==> FrameOk(s, x))
    ensures FrameOk(Spawned(s, h), x)
  {}

  lemma SpawnRecord(s: Sys, h: Handle, i: nat)
    requires Owned(s, h) && FrameOk(s, h) && i < |Spawned(s, h).waits| && (i < |s.waits| ==> RecordOk(s, i))
    ensures RecordOk(Spawned(s, h), i)
  {}

  lemma SpawnTables(s: Sys, h: Handle)
    requires Owned(s, h) && FrameOk(s, h) && ReadyOk(s) && RunningOk(s) && TablesOk(s)
    ensures ReadyOk(Spawned(s, h)) && RunningOk(Spawned(s, h)) && TablesOk(Spawned(s, h))
  {}

  lemma SpawnRoots(s: Sys, h: Handle)
    requires Owned(s, h) && FrameOk(s, h) && RootsOk(s) && CountsOk(s)
    ensures RootsOk(Spawned(s, h)) && CountsOk(Spawned(s, h))
  {
    PutFrame(s.frames, h, Spawned(s, h).frames[h]);
  }

  lemma SpawnKeeps(s: Sys, h: Handle)
    requires Inv(s) && Owned(s, h)
    ensures Inv(Spawned(s, h))
  {
    var t := Spawned(s, h);
    assert FrameOk(s, h);
    SpawnTables(s, h);
    SpawnRoots(s, h);
    forall x | x in t.frames ensures FrameOk(t, x) { SpawnFrame(s, h, x); }
    forall i: nat | i < |t.waits| ensures RecordOk(t, i) { SpawnRecord(s, h, i); }
  }

  lemma ResumeStartFrame(s: Sys, x: Handle)
    requires CanResume(s) && s.frames[s.ready[0]].state.QueuedStart? && FrameOk(s, s.ready[0])
    requires x in s.frames && FrameOk(s, x) && (x in s.ready && x != s.ready[0] ==> x in s.ready[1..])
    ensures FrameOk(ResumedStart(s), x)
  {}

  lemma ResumeWaitFrame(s: Sys, x: Handle)
    requires CanResume(s) && s.frames[s.ready[0]].state.QueuedWait? && FrameOk(s, s.ready[0])
    requires x in s.frames && FrameOk(s, x) && (x in s.ready && x != s.ready[0] ==> x in s.ready[1..])
    ensures FrameOk(ResumedWait(s), x)
  {}

  lemma ResumeParentFrame(s: Sys, x: Handle)
    requires CanResume(s) && s.frames[s.ready[0]].state.QueuedChild? && FrameOk(s, s.ready[0])
    requires x in s.frames && FrameOk(s, x) && (x in s.ready && x != s.ready[0] ==> x in s.ready[1..])
    ensures FrameOk(ResumedParent(s), x)
  {}

  lemma ResumeFrame(s: Sys, x: Handle)
    requires CanResume(s) && FrameOk(s, s.ready[0]) && x in s.frames && FrameOk(s, x)
    ensures FrameOk(Resumed(s), x)
  {
    assert s.ready == [s.ready[0]] + s.ready[1..];
    match s.frames[s.ready[0]].state
    case QueuedWait => ResumeWaitFrame(s, x);
    case QueuedChild(_) => ResumeParentFrame(s, x);
    case _ => ResumeStartFrame(s, x);
  }

  lemma ResumeRecord(s: Sys, i: nat)
    requires CanResume(s) && FrameOk(s, s.ready[0]) && i < |Resumed(s).waits| && (i < |s.waits| ==> RecordOk(s, i))
    ensures RecordOk(Resumed(s), i)
  {}

  lemma ResumeReady(s: Sys)
    requires CanResume(s) && FrameOk(s, s.ready[0]) && ReadyOk(s)
    ensures ReadyOk(Resumed(s)) && RunningOk(Resumed(s))
  {
    var t := Resumed(s);
    assert t.ready == s.ready[1..];
    forall h | h in t.ready ensures h in t.frames && t.frames[h].state.Queued() {
      assert h in s.ready && h != s.ready[0];
    }
  }

  lemma ResumeTables(s: Sys)
    requires CanResume(s) && FrameOk(s, s.ready[0]) && TablesOk(s)
    ensures TablesOk(Resumed(s))
  {}

  lemma ResumeRoots(s: Sys)
    requires CanResume(s) && FrameOk(s, s.ready[0]) && RootsOk(s) && CountsOk(s)
    requires forall c :: s.frames[s.ready[0]].state == QueuedChild(c) ==> FrameOk(s, c)
    ensures RootsOk(Resumed(s)) && CountsOk(Resumed(s))
  {
    var f := s.frames[s.ready[0]];
    PutFrame(s.frames, s.ready[0], f.(state := Running));
    if f.state.QueuedChild? {
      var c := f.state.done;
      PutFrame(s.frames[s.ready[0] := f.(state := Running)], c, s.frames[c].(state := Destroyed));
    }
  }

  lemma ResumeKeeps(s: Sys)
    requires Inv(s) && CanResume(s)
    ensures Inv(Resumed(s))
  {
    var t := Resumed(s);
    assert FrameOk(s, s.ready[0]);
    assert forall c :: s.frames[s.ready[0]].state == QueuedChild(c) ==> FrameOk(s, c);
    ResumeReady(s);
    ResumeTables(s);
    ResumeRoots(s);
    forall x | x in t.frames ensures FrameOk(t, x) { ResumeFrame(s, x); }
    forall i: nat | i < |t.waits| ensures RecordOk(t, i) { ResumeRecord(s, i); }
  }

  lemma AwaitFrame(s: Sys, c: Handle, x: Handle)
    requires CanAwait(s, c) && FrameOk(s, c) && FrameOk(s, s.running) && RunningOk(s)
    requires x in Awaited(s, c).frames && (x in s.frames ==> FrameOk(s, x))
    ensures FrameOk(Awaited(s, c), x)
  {}

  lemma AwaitRecord(s: Sys, c: Handle, i: nat)
    requires CanAwait(s, c) && FrameOk(s, c) && FrameOk(s, s.running) && RunningOk(s)
    requires i < |Awaited(s, c).waits| && (i < |s.waits| ==> RecordOk(s, i))
    ensures RecordOk(Awaited(s, c), i)
  {}

  lemma AwaitTables(s: Sys, c: Handle)
    requires CanAwait(s, c) && FrameOk(s, c) && FrameOk(s, s.running) && ReadyOk(s) && RunningOk(s) && TablesOk(s)
    ensures ReadyOk(Awaited(s, c)) && RunningOk(Awaited(s, c)) && TablesOk(Awaited(s, c))
  {}

  lemma AwaitRoots(s: Sys, c: Handle)
    requires CanAwait(s, c) && FrameOk(s, c) && FrameOk(s, s.running) && RootsOk(s) && CountsOk(s) && RunningOk(s)
    ensures RootsOk(Awaited(s, c)) && CountsOk(Awaited(s, c))
  {
    var f := s.frames[s.running].(state := Awaiting(c));
    PutFrame(s.frames, s.running, f);
    PutFrame(s.frames[s.running := f], c, Awaited(s, c).frames[c]);
  }

  lemma AwaitKeeps(s: Sys, c: Handle)
    requires Inv(s) && CanAwait(s, c)
    ensures Inv(Awaited(s, c))
  {
    var t := Awaited(s, c);
    assert FrameOk(s, c);
    assert FrameOk(s, s.running);
    AwaitTables(s, c);
    AwaitRoots(s, c);
    forall x | x in t.frames ensures FrameOk(t, x) { AwaitFrame(s, c, x); }
    forall i: nat | i < |t.waits| ensures RecordOk(t, i) { AwaitRecord(s, c, i); }
  }

  lemma ArmFrame(s: Sys, key: Key, d: Option<Time>, e: int, x: Handle)
    requires CanArm(s, key) && FrameOk(s, s.running) && RunningOk(s)
    requires x in Armed(s, key, d, e).frames && (x in s.frames ==> FrameOk(s, x))
    ensures FrameOk(Armed(s, key, d, e), x)
  {}

  lemma ArmRecord(s: Sys, key: Key, d: Option<Time>, e: int, i: nat)
    requires CanArm(s, key) && FrameOk(s, s.running) && RunningOk(s)
    requires i < |Armed(s, key, d, e).waits| && (i < |s.waits| ==> RecordOk(s, i))
    ensures RecordOk(Armed(s, key, d, e), i)
  {}

  lemma ArmTables(s: Sys, key: Key, d: Option<Time>, e: int)
    requires CanArm(s, key) && FrameOk(s, s.running) && ReadyOk(s) && RunningOk(s) && TablesOk(s)
    ensures ReadyOk(Armed(s, key, d, e)) && RunningOk(Armed(s, key, d, e)) && TablesOk(Armed(s, key, d, e))
  {}

  lemma ArmRoots(s: Sys, key: Key, d: Option<Time>, e: int)
    requires CanArm(s, key) && FrameOk(s, s.running) && RootsOk(s) && CountsOk(s) && RunningOk(s)
    ensures RootsOk(Armed(s, key, d, e)) && CountsOk(Armed(s, key, d, e))
  {
    PutFrame(s.frames, s.running, Armed(s, key, d, e).frames[s.running]);
  }

  lemma ArmKeeps(s: Sys, key: Key, d: Option<Time>, e: int)
    requires Inv(s) && CanArm(s, key)
    ensures Inv(Armed(s, key, d, e))
  {
    var t := Armed(s, key, d, e);
    assert FrameOk(s, s.running);
    ArmTables(s, key, d, e);
    ArmRoots(s, key, d, e);
    forall x | x in t.frames ensures FrameOk(t, x) { ArmFrame(s, key, d, e, x); }
    forall i: nat | i < |t.waits| ensures RecordOk(t, i) { ArmRecord(s, key, d, e, i); }
  }

  lemma ImmediateFrame(s: Sys, key: Key, e: int, x: Handle)
    requires s.running in s.frames && FrameOk(s, s.running) && RunningOk(s)
    requires x in TimedOutAtOnce(s, key, e).frames && (x in s.frames ==> FrameOk(s, x))
    ensures FrameOk(TimedOutAtOnce(s, key, e), x)
  {}

  lemma ImmediateRecord(s: Sys, key: Key, e: int, i: nat)
    requires s.running in s.frames && FrameOk(s, s.running) && RunningOk(s)
    requires i < |TimedOutAtOnce(s, key, e).waits| && (i < |s.waits| ==> RecordOk(s, i))
    ensures RecordOk(TimedOutAtOnce(s, key, e), i)
  {}

  lemma ImmediateTables(s: Sys, key: Key, e: int)
    requires s.running in s.frames && FrameOk(s, s.running) && ReadyOk(s) && RunningOk(s) && TablesOk(s)
    ensures ReadyOk(TimedOutAtOnce(s, key, e)) && RunningOk(TimedOutAtOnce(s, key, e)) && TablesOk(TimedOutAtOnce(s, key, e))
  {}

  lemma ImmediateRoots(s: Sys, key: Key, e: int)
    requires s.running in s.frames && FrameOk(s, s.running) && RootsOk(s) && CountsOk(s) && RunningOk(s)
    ensures RootsOk(TimedOutAtOnce(s, key, e)) && CountsOk(TimedOutAtOnce(s, key, e))
  {
    PutFrame(s.frames, s.running, TimedOutAtOnce(s, key, e).frames[s.running]);
  }

  lemma ImmediateKeeps(s: Sys, key: Key, e: int)
    requires Inv(s) && s.running in s.frames
    ensures Inv(TimedOutAtOnce(s, key, e))
  {
    var t := TimedOutAtOnce(s, key, e);
    assert FrameOk(s, s.running);
    ImmediateTables(s, key, e);
    ImmediateRoots(s, key, e);
    forall x | x in t.frames ensures FrameOk(t, x) { ImmediateFrame(s, key, e, x); }
    forall i: nat | i < |t.waits| ensures RecordOk(t, i) { ImmediateRecord(s, key, e, i); }
  }

  lemma FinishFrame(s: Sys, x: Handle)
    requires CanFinish(s) && FrameOk(s, s.running) && RunningOk(s)
    requires x in Finished(s).frames && (x in s.frames ==> FrameOk(s, x))
    ensures FrameOk(Finished(s), x)
  {}

  lemma FinishRecord(s: Sys, i: nat)
    requires CanFinish(s) && FrameOk(s, s.running) && RunningOk(s)
    requires i < |Finished(s).waits| && (i < |s.waits| ==> RecordOk(s, i))
    ensures RecordOk(Finished(s), i)
  {}

  lemma FinishTables(s: Sys)
    requires CanFinish(s) && FrameOk(s, s.running) && ReadyOk(s) && RunningOk(s) && TablesOk(s)
    ensures ReadyOk(Finished(s)) && RunningOk(Finished(s)) && TablesOk(Finished(s))
  {}

  lemma FinishRoots(s: Sys)
    requires CanFinish(s) && FrameOk(s, s.running) && RootsOk(s) && CountsOk(s) && RunningOk(s)
    ensures RootsOk(Finished(s)) && CountsOk(Finished(s))
  {
    var f := s.frames[s.running];
    PutFrame(s.frames, s.running, f.(state := Done));
    if f.continuation != NULL_HANDLE {
      PutFrame(s.frames[s.running := f.(state := Done)], f.continuation, Finished(s).frames[f.continuation]);
    }
  }

  lemma FinishKeeps(s: Sys)
    requires Inv(s) && CanFinish(s)
    ensures Inv(Finished(s))
  {
    var t := Finished(s);
    assert FrameOk(s, s.running);
    FinishTables(s);
    FinishRoots(s);
    forall x | x in t.frames ensures FrameOk(t, x) { FinishFrame(s, x); }
    forall i: nat | i < |t.waits| ensures RecordOk(t, i) { FinishRecord(s, i); }
  }

  lemma ReapFrame(s: Sys, j: nat, x: Handle)
    requires CanReap(s, j) && FrameOk(s, s.roots[j]) && RootsOk(s)
    requires x in Reaped(s, j).frames && (x in s.frames ==> FrameOk(s, x))
    ensures FrameOk(Reaped(s, j), x)
  {
    if x in s.roots && x != s.roots[j] {
      var i :| 0 <= i < |s.roots| && s.roots[i] == x;
      assert Reaped(s, j).roots[if i < j then i else i - 1] == x;
    }
  }

  lemma ReapRecord(s: Sys, j: nat, i: nat)
    requires CanReap(s, j) && FrameOk(s, s.roots[j]) && i < |Reaped(s, j).waits| && (i < |s.waits| ==> RecordOk(s, i))
    ensures RecordOk(Reaped(s, j), i)
  {}

  lemma ReapTables(s: Sys, j: nat)
    requires CanReap(s, j) && FrameOk(s, s.roots[j]) && ReadyOk(s) && RunningOk(s) && TablesOk(s)
    ensures ReadyOk(Reaped(s, j)) && RunningOk(Reaped(s, j)) && TablesOk(Reaped(s, j))
  {}

  lemma ReapRoots(s: Sys, j: nat)
    requires CanReap(s, j) && FrameOk(s, s.roots[j]) && RootsOk(s) && CountsOk(s)
    ensures RootsOk(Reaped(s, j)) && CountsOk(Reaped(s, j))
  {
    PutFrame(s.frames, s.roots[j], Reaped(s, j).frames[s.roots[j]]);
  }

  lemma ReapKeeps(s: Sys, j: nat)
    requires Inv(s) && CanReap(s, j)
    ensures Inv(Reaped(s, j))
  {
    var t := Reaped(s, j);
    assert FrameOk(s, s.roots[j]);
    ReapTables(s, j);
    ReapRoots(s, j);
    forall x | x in t.frames ensures FrameOk(t, x) { ReapFrame(s, j, x); }
    forall i: nat | i < |t.waits| ensures RecordOk(t, i) { ReapRecord(s, j, i); }
  }

  lemma ResolveFrame(s: Sys, key: Key, st: Status, x: Handle)
    requires CanResolve(s, key) && FrameOk(s, s.armed[key].handle) && TablesOk(s)
    requires x in Resolved(s, key, st).frames && (x in s.frames ==> FrameOk(s, x))
    ensures FrameOk(Resolved(s, key, st), x)
  {}

  lemma ResolveRecord(s: Sys, key: Key, st: Status, i: nat)
    requires CanResolve(s, key) && FrameOk(s, s.armed[key].handle) && TablesOk(s)
    requires i < |Resolved(s, key, st).waits| && (i < |s.waits| ==> RecordOk(s, i))
    ensures RecordOk(Resolved(s, key, st), i)
  {}

  lemma ResolveTables(s: Sys, key: Key, st: Status)
    requires CanResolve(s, key) && FrameOk(s, s.armed[key].handle) && ReadyOk(s) && RunningOk(s) && TablesOk(s)
    ensures ReadyOk(Resolved(s, key, st)) && RunningOk(Resolved(s, key, st)) && TablesOk(Resolved(s, key, st))
  {}

  lemma ResolveRoots(s: Sys, key: Key, st: Status)
    requires CanResolve(s, key) && FrameOk(s, s.armed[key].handle) && RootsOk(s) && CountsOk(s) && TablesOk(s)
    ensures RootsOk(Resolved(s, key, st)) && CountsOk(Resolved(s, key, st))
  {
    var h := s.armed[key].handle;
    PutFrame(s.frames, h, s.frames[h].(state := QueuedWait));
  }

  lemma ResolveKeeps(s: Sys, key: Key, st: Status)
    requires Inv(s) && CanResolve(s, key)
    ensures Inv(Resolved(s, key, st))
  {
    var t := Resolved(s, key, st);
    assert FrameOk(s, s.armed[key].handle);
    ResolveTables(s, key, st);
    ResolveRoots(s, key, st);
    forall x | x in t.frames ensures FrameOk(t, x) { ResolveFrame(s, key, st, x); }
    forall i: nat | i < |t.waits| ensures RecordOk(t, i) { ResolveRecord(s, key, st, i); }
  }

  /** Every step, enabled or not, keeps the invariant. */
  lemma StepKeepsInv(s: Sys, step: Step)
    requires Inv(s)
    ensures Inv(Apply(s, step))
  {
    if Enabled(s, step) {
      match step
      case Create(h) => CreateKeeps(s, h);
      case Drop(h) => DropKeeps(s, h);
      case Spawn(h) => SpawnKeeps(s, h);
      case Resume => ResumeKeeps(s);
      case AwaitTask(c) => AwaitKeeps(s, c);
      case Arm(k, d, e) => ArmKeeps(s, k, d, e);
      case Immediate(k, e) => ImmediateKeeps(s, k, e);
      case Finish => FinishKeeps(s);
      case Reap(i) => ReapKeeps(s, i);
      case Resolve(k, st) => ResolveKeeps(s, k, st);
    }
  }

  lemma {:induction false} RunKeepsInv(s: Sys, steps: seq<Step>)
    requires Inv(s)
    ensures Inv(Exec(s, steps))
  {
    if steps != [] {
      RunKeepsInv(s, steps[..|steps| - 1]);
      StepKeepsInv(Exec(s, steps[..|steps| - 1]), steps[|steps| - 1]);
    }
  }
}
