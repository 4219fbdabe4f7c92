/** The epoll event loop. */
module EpollLoop {
  import opened Base
  import opened WaiterTable
  import opened EpollKernel
  import opened SchedulerCore
  import opened Blocking
  import opened Program
  import Co = Coroutines
  import opened CoroutineTheorems
  import Inv = CoroutineInvariant

  const MAX_EVENTS := 64
  const READ_READY: Mask := {In, Error, Hup, RdHup}
  const WRITE_READY: Mask := {Out, Error, Hup}
  const COMMON_FLAGS: Mask := {Et, Error, Hup, RdHup}

  function ReadyMask(d: Dir): Mask { if d.Read? then READ_READY else WRITE_READY }

  /** A slot keeps the mask it believes is registered with the kernel. */
  type Table = map<int, Slot<Mask>>

  function Desired(slot: Slot<Mask>): Mask
  {
    if slot.Empty() then {}
    else COMMON_FLAGS + (if slot.readable.Some? then {In} else {}) + (if slot.writable.Some? then {Out} else {})
  }

  lemma DesiredFlags(slot: Slot<Mask>)
    requires !slot.Empty()
    ensures {Et, Error, Hup, RdHup} <= Desired(slot)
    ensures (In in Desired(slot) <==> slot.readable.Some?) && (Out in Desired(slot) <==> slot.writable.Some?)
  {}

  /** Every slot is in use, and its mask, the mask it needs and the kernel's mask are the same. */
  ghost predicate SlotOk(t: Table, k: Kernel, fd: int)
    requires fd in t
  {
    && !t[fd].Empty() && t[fd].aux == Desired(t[fd])
    && fd in k.interest && k.interest[fd] == t[fd].aux
  }

  ghost predicate MasksOk(t: Table, k: Kernel, wakeFd: int)
  {
    && wakeFd !in t
    && k.interest.Keys == t.Keys + {wakeFd} && k.edges <= k.interest.Keys
    && forall fd {:trigger SlotOk(t, k, fd)} :: fd in t ==> SlotOk(t, k, fd)
  }

  /**
   * What holds of a slot even after a failed run: its descriptor is valid, a slot in use has a mask, and a
   * slot with a mask is watched by the kernel.
   */
  ghost predicate Enrolled(t: Table, k: Kernel, fd: int)
    requires fd in t
  {
    fd >= 0 && (!t[fd].Empty() ==> t[fd].aux != {}) && (t[fd].aux != {} ==> fd in k.interest)
  }

  ghost predicate AllEnrolled(t: Table, k: Kernel)
  {
    forall fd {:trigger Enrolled(t, k, fd)} :: fd in t ==> Enrolled(t, k, fd)
  }

  ghost predicate Announced(k: Kernel, inbox: seq<Event>, fd: int, d: Dir)
  {
    fd in k.edges || exists i :: 0 <= i < |inbox| && inbox[i].fd == fd && HasEvent(inbox[i].events, ReadyMask(d))
  }

  /** Every armed direction that is ready has an event that the loop has not processed yet. */
  ghost predicate NoLostEdge(t: Table, k: Kernel, inbox: seq<Event>)
  {
    forall fd, d {:trigger Announced(k, inbox, fd, d)} ::
      fd in t && t[fd].Reg(d).Some? && HasEvent(Level(k, fd), ReadyMask(d)) ==> Announced(k, inbox, fd, d)
  }

  /** All that is known of table and kernel; after a failed run it is less. */
  ghost predicate Agrees(t: Table, k: Kernel, inbox: seq<Event>, wakeFd: int, healthy: bool)
  {
    AllEnrolled(t, k) && (healthy ==> MasksOk(t, k, wakeFd) && NoLostEdge(t, k, inbox))
  }

  lemma ArmedIsWatched(slot: Slot<Mask>, d: Dir, level: Mask)
    requires slot.Reg(d).Some? && HasEvent(level, ReadyMask(d))
    ensures HasEvent(level, Desired(slot))
  {
    var f :| f in level * ReadyMask(d);
    assert f in level * Desired(slot);
  }

  /** Readiness changing behind the loop's back never loses an edge. */
  lemma ChangeKeepsEdges(t: Table, k: Kernel, inbox: seq<Event>, wakeFd: int, fd: int, now: Mask, poke: bool)
    requires MasksOk(t, k, wakeFd) && NoLostEdge(t, k, inbox)
    ensures MasksOk(t, Change(k, fd, now, poke), wakeFd) && NoLostEdge(t, Change(k, fd, now, poke), inbox)
  {
    var l := Change(k, fd, now, poke);
    forall x | x in t ensures SlotOk(t, l, x) { assert SlotOk(t, k, x); }
    forall x, d | x in t && t[x].Reg(d).Some? && HasEvent(Level(l, x), ReadyMask(d))
      ensures Announced(l, inbox, x, d)
    {
      if x != fd || HasEvent(Level(k, x), ReadyMask(d)) {
        assert Announced(k, inbox, x, d);
      } else {
        assert SlotOk(t, k, x);
        ArmedIsWatched(t[x], d, now - Level(k, x)) by {
          var f :| f in now * ReadyMask(d);
          assert f in (now - Level(k, x)) * ReadyMask(d);
        }
      }
    }
  }

  /** Delivering an event moves it from the kernel to the inbox. */
  lemma DeliveryKeepsEdges(t: Table, k: Kernel, inbox: seq<Event>, wakeFd: int, fd: int)
    requires MasksOk(t, k, wakeFd) && NoLostEdge(t, k, inbox) && fd in k.interest
    ensures MasksOk(t, Delivered(k, fd), wakeFd) && NoLostEdge(t, Delivered(k, fd), inbox + [Report(k, fd)])
  {
    var l, box := Delivered(k, fd), inbox + [Report(k, fd)];
    forall x | x in t ensures SlotOk(t, l, x) { assert SlotOk(t, k, x); }
    forall x, d | x in t && t[x].Reg(d).Some? && HasEvent(Level(l, x), ReadyMask(d))
      ensures Announced(l, box, x, d)
    {
      assert SlotOk(t, k, x) && Announced(k, inbox, x, d);
      if x == fd {
        var f :| f in Level(k, x) * ReadyMask(d);
        assert f in Desired(t[x]);
        assert f in box[|inbox|].events * ReadyMask(d);
      } else if i :| 0 <= i < |inbox| && inbox[i].fd == x && HasEvent(inbox[i].events, ReadyMask(d)) {
        assert box[i] == inbox[i];
      }
    }
  }

  /** Registering the mask a slot needs announces everything that is ready on it already. */
  lemma WatchKeepsEdges(t: Table, k: Kernel, inbox: seq<Event>, wakeFd: int, fd: int, slot: Slot<Mask>)
    requires MasksOk(t, k, wakeFd) && NoLostEdge(t, k, inbox) && fd != wakeFd
    requires !slot.Empty() && slot.aux == Desired(slot)
    ensures MasksOk(t[fd := slot], Watch(k, fd, slot.aux), wakeFd)
    ensures NoLostEdge(t[fd := slot], Watch(k, fd, slot.aux), inbox)
  {
    var u, l := t[fd := slot], Watch(k, fd, slot.aux);
    forall x | x in u ensures SlotOk(u, l, x) { if x != fd { assert SlotOk(t, k, x); } }
    forall x, d | x in u && u[x].Reg(d).Some? && HasEvent(Level(l, x), ReadyMask(d))
      ensures Announced(l, inbox, x, d)
    {
      if x == fd { ArmedIsWatched(slot, d, Level(k, fd)); } else { assert Announced(k, inbox, x, d); }
    }
  }

  lemma UnwatchKeepsEdges(t: Table, k: Kernel, inbox: seq<Event>, wakeFd: int, fd: int)
    requires MasksOk(t, k, wakeFd) && NoLostEdge(t, k, inbox) && fd != wakeFd
    ensures MasksOk(t - {fd}, Unwatch(k, fd), wakeFd) && NoLostEdge(t - {fd}, Unwatch(k, fd), inbox)
  {
    var u, l := t - {fd}, Unwatch(k, fd);
    forall x | x in u ensures SlotOk(u, l, x) { assert SlotOk(t, k, x); }
    forall x, d | x in u && u[x].Reg(d).Some? && HasEvent(Level(l, x), ReadyMask(d))
      ensures Announced(l, inbox, x, d)
    {
      assert Announced(k, inbox, x, d);
    }
  }

  /** Registrations may disappear, never appear. */
  ghost predicate Fewer(slot: Slot<Mask>, than: Slot<Mask>)
  {
    slot.aux == than.aux && forall d :: slot.Reg(d).Some? ==> slot.Reg(d) == than.Reg(d)
  }

  lemma ClearedIsFewer(t: Table, fd: int, now: Time)
    requires fd in t
    ensures Fewer(Cleared(t[fd], now), t[fd]) && t[fd := Cleared(t[fd], now)].Keys == t.Keys
  {}

  /** Clearing the directions of a slot that are due, one after the other. */
  lemma ClearedTable(t: Table, fd: int, now: Time, r: bool, w: bool)
    requires fd in t && r == Due(t[fd].readable, now) && w == Due(t[fd].writable, now)
    ensures var u := if r then t[fd := t[fd].Put(Read, None)] else t;
            (if w then u[fd := u[fd].Put(Write, None)] else u) == t[fd := Cleared(t[fd], now)]
  {
    UpdateTwice(t, fd, t[fd].Put(Read, None), Cleared(t[fd], now));
    UpdateSame(t, fd);
  }

  /** An event whose descriptor has no matching waiter left can be forgotten. */
  lemma ForgetEvent(t: Table, k: Kernel, inbox: seq<Event>)
    requires NoLostEdge(t, k, inbox) && inbox != []
    requires forall d :: inbox[0].fd in t && t[inbox[0].fd].Reg(d).Some? ==> !HasEvent(inbox[0].events, ReadyMask(d))
    ensures NoLostEdge(t, k, inbox[1..])
  {
    forall fd, d | fd in t && t[fd].Reg(d).Some? && HasEvent(Level(k, fd), ReadyMask(d))
      ensures Announced(k, inbox[1..], fd, d)
    {
      assert Announced(k, inbox, fd, d);
      if i :| 0 <= i < |inbox| && inbox[i].fd == fd && HasEvent(inbox[i].events, ReadyMask(d)) {
        assert i > 0 && inbox[1..][i - 1] == inbox[i];
      }
    }
  }

  lemma SameMaskSameSlot(slot: Slot<Mask>, than: Slot<Mask>)
    requires Fewer(slot, than) && slot.aux == Desired(slot) && than.aux == Desired(than)
    ensures slot == than
  {
    assert In in Desired(than) <==> than.Reg(Read).Some?;
    assert Out in Desired(than) <==> than.Reg(Write).Some?;
    assert In in Desired(slot) <==> slot.Reg(Read).Some?;
    assert Out in Desired(slot) <==> slot.Reg(Write).Some?;
  }

  lemma SameInterestSameEnrolment(t: Table, k: Kernel, l: Kernel)
    requires AllEnrolled(t, k) && l.interest == k.interest
    ensures AllEnrolled(t, l)
  {
    forall x | x in t ensures Enrolled(t, l, x) { assert Enrolled(t, k, x); }
  }

  lemma FewerSlotsEnrolled(t: Table, k: Kernel, fd: int)
    requires AllEnrolled(t, k)
    ensures AllEnrolled(t - {fd}, k)
  {
    var u := t - {fd};
    forall x | x in u ensures Enrolled(u, k, x) { assert Enrolled(t, k, x); }
  }

  /** The call a slot has to make, and how the kernel answers it. */
  function RefreshOp(slot: Slot<Mask>): CtlOp
  {
    if slot.aux == {} then Add else if Desired(slot) == {} then Del else Mod
  }

  function RefreshStatus(k: Kernel, fd: int, slot: Slot<Mask>, fault: int): Status
  {
    if slot.aux == Desired(slot) then Ok else Ctl(k, RefreshOp(slot), fd, Desired(slot), fault).1
  }

  /** Once registrations are cleared the call is a legal MOD or DEL: it fails only with an error of the kernel's own. */
  lemma SettleStatus(t: Table, k: Kernel, fd: int, slot: Slot<Mask>, fault: int)
    requires AllEnrolled(t, k) && fd in t && Fewer(slot, t[fd])
    ensures RefreshStatus(k, fd, slot, fault).Err? ==> RefreshStatus(k, fd, slot, fault) == Err(fault) && fault != 0
  {
    assert Enrolled(t, k, fd);
    if slot.aux == {} { assert slot.Reg(Read).None? && slot.Reg(Write).None?; }
  }

  /**
   * How an arming call may end: with an error of the kernel's own, or EEXIST for a descriptor that is watched
   * without a slot. A healthy loop meets the latter for its own wake descriptor only, and otherwise succeeds
   * exactly if the kernel call does not fail.
   */
  predicate ArmAnswer(r: Status, fd: int, wakeFd: int, fault: int, healthy: bool)
  {
    && (r.Err? ==> r == Err(EEXIST) || (r == Err(fault) && fault != 0))
    && (healthy ==> r == if fd == wakeFd then Err(EEXIST) else if fault == 0 then Ok else Err(fault))
  }

  lemma ArmStatus(t: Table, k: Kernel, wakeFd: int, fd: int, d: Dir, filled: Slot<Mask>, fault: int, healthy: bool)
    requires AllEnrolled(t, k) && fd >= 0 && (healthy ==> MasksOk(t, k, wakeFd))
    requires SlotAt(t, fd).Reg(d).None? && filled.Reg(d).Some? && filled.aux == SlotAt(t, fd).aux
    ensures ArmAnswer(RefreshStatus(k, fd, filled, fault), fd, wakeFd, fault, healthy)
  {
    if fd in t { assert Enrolled(t, k, fd); }
    NewBit(SlotAt(t, fd), filled, d);
    if healthy && fd in t { assert SlotOk(t, k, fd); }
  }

  /** The kernel once a slot has asked for the mask it needs. */
  function InterestAfter(k: Kernel, fd: int, slot: Slot<Mask>): Kernel
  {
    if slot.aux == Desired(slot) then k
    else if slot.Empty() then (if fd in k.interest then Unwatch(k, fd) else k)
    else Watch(k, fd, Desired(slot))
  }

  /** The table once slot `fd` has been brought up to date, or erased because nothing waits on it. */
  function Tidied(t: Table, fd: int, slot: Slot<Mask>): Table
  {
    if slot.Empty() then t - {fd} else t[fd := slot.(aux := Desired(slot))]
  }

  lemma TidyKeepsWaits(t: Table, armed: map<Key, Waiter>, fd: int, slot: Slot<Mask>)
    requires Represents(t[fd := slot], armed)
    ensures Represents(Tidied(t, fd, slot), armed)
  {
    var u := t[fd := slot];
    RewriteSlot(u, armed, fd, Desired(slot));
    UpdateTwice(t, fd, slot, slot.(aux := Desired(slot)));
    UpdateTwice(t, fd, slot, slot);
  }

  /** Settling a slot whose registrations were cleared, or failing to, keeps every slot enrolled. */
  lemma SettlingKeepsEnrolled(t: Table, k: Kernel, fd: int, slot: Slot<Mask>)
    requires AllEnrolled(t, k) && fd in t && Fewer(slot, t[fd])
    ensures AllEnrolled(t[fd := slot], k)
    ensures AllEnrolled(Tidied(t, fd, slot), InterestAfter(k, fd, slot))
  {
    var u, v, l := t[fd := slot], Tidied(t, fd, slot), InterestAfter(k, fd, slot);
    assert Enrolled(t, k, fd);
    assert slot.Reg(Read).Some? ==> t[fd].Reg(Read).Some?;
    assert slot.Reg(Write).Some? ==> t[fd].Reg(Write).Some?;
    if !slot.Empty() { assert Et in Desired(slot); }
    forall x | x in u ensures Enrolled(u, k, x) { assert x != fd ==> Enrolled(t, k, x); }
    forall x | x in v ensures Enrolled(v, l, x) { assert x != fd ==> Enrolled(t, k, x); }
  }

  lemma ArmingKeepsEnrolled(t: Table, k: Kernel, fd: int, filled: Slot<Mask>)
    requires AllEnrolled(t, k) && fd >= 0 && !filled.Empty() && filled.aux == SlotAt(t, fd).aux
    ensures AllEnrolled(t[fd := filled.(aux := Desired(filled))], InterestAfter(k, fd, filled))
  {
    var u, l := t[fd := filled.(aux := Desired(filled))], InterestAfter(k, fd, filled);
    assert Et in Desired(filled);
    if fd in t { assert Enrolled(t, k, fd); }
    forall x | x in u ensures Enrolled(u, l, x) { assert x != fd ==> Enrolled(t, k, x); }
  }

  /** Clearing registrations and then settling the slot with the kernel loses no edge. */
  lemma SettlingKeepsEdges(t: Table, k: Kernel, inbox: seq<Event>, wakeFd: int, fd: int, slot: Slot<Mask>)
    requires MasksOk(t, k, wakeFd) && NoLostEdge(t, k, inbox) && fd in t && Fewer(slot, t[fd])
    ensures MasksOk(Tidied(t, fd, slot), InterestAfter(k, fd, slot), wakeFd)
    ensures NoLostEdge(Tidied(t, fd, slot), InterestAfter(k, fd, slot), inbox)
  {
    assert SlotOk(t, k, fd);
    if slot.Empty() {
      assert Et in slot.aux;
      UnwatchKeepsEdges(t, k, inbox, wakeFd, fd);
    } else if slot.aux == Desired(slot) {
      SameMaskSameSlot(slot, t[fd]);
      UpdateSame(t, fd);
    } else {
      WatchKeepsEdges(t, k, inbox, wakeFd, fd, slot.(aux := Desired(slot)));
    }
  }

  /** Arming a direction always changes the mask the slot needs. */
  lemma NewBit(slot: Slot<Mask>, filled: Slot<Mask>, d: Dir)
    requires slot.Reg(d).None? && filled.Reg(d).Some?
    ensures Desired(filled) != Desired(slot) && Desired(filled) != {}
  {
    var bit := if d.Read? then In else Out;
    assert bit in Desired(filled) && bit !in Desired(slot);
  }

  function SlotAt(t: Table, fd: int): Slot<Mask> { if fd in t then t[fd] else Slot(None, None, {}) }

  /** Writing back what the table said about a descriptor changes nothing but an empty slot. */
  lemma Reinsert(t: Table, armed: map<Key, Waiter>, fd: int)
    requires Represents(t, armed)
    ensures Represents(t[fd := SlotAt(t, fd)], armed)
    ensures SlotAt(t, fd).Empty() ==> Represents(t[fd := SlotAt(t, fd)] - {fd}, armed)
    ensures if fd in t then t[fd := SlotAt(t, fd)] == t else t[fd := SlotAt(t, fd)] - {fd} == t
  {
    var u := t[fd := SlotAt(t, fd)];
    forall x, d ensures RepresentsAt(u, armed, x, d) { assert RepresentsAt(t, armed, x, d); }
    RewriteSlot(u, armed, fd, u[fd].aux);
  }

  /** The table once a slot made for a refused wait is gone again. */
  function Undone(t: Table, fd: int): Table
  {
    if SlotAt(t, fd).Empty() then t[fd := SlotAt(t, fd)] - {fd} else t[fd := SlotAt(t, fd)]
  }

  lemma UndoKeeps(t: Table, armed: map<Key, Waiter>, fd: int)
    requires Represents(t, armed)
    ensures Represents(Undone(t, fd), armed)
  {
    Reinsert(t, armed, fd);
  }

  /** Without a failed run before, it is the table from before the arming. */
  lemma UndoAgrees(t: Table, k: Kernel, inbox: seq<Event>, wakeFd: int, fd: int, healthy: bool)
    requires Agrees(t, k, inbox, wakeFd, healthy)
    ensures Agrees(Undone(t, fd), k, inbox, wakeFd, healthy) && (healthy ==> Undone(t, fd) == t)
  {
    var u := Undone(t, fd);
    forall x | x in u ensures Enrolled(u, k, x) { assert Enrolled(t, k, x); }
    if healthy {
      if fd in t { assert SlotOk(t, k, fd); }
      assert u == t;
    }
  }

  /** The kernel was called once, legally: ADD for a descriptor it did not watch, MOD for one it did. */
  ghost predicate OneLegalCall(t: Table, u: Table, k: Kernel, l: Kernel, fd: int)
  {
    && fd in u && u[fd].aux == Desired(u[fd])
    && l == Watch(k, fd, u[fd].aux)
    && (fd in k.interest <==> fd in t)
  }

  lemma ArmingKeepsEdges(t: Table, k: Kernel, inbox: seq<Event>, wakeFd: int, fd: int, d: Dir, filled: Slot<Mask>)
    requires MasksOk(t, k, wakeFd) && NoLostEdge(t, k, inbox)
    requires SlotAt(t, fd).Reg(d).None? && filled.Reg(d).Some? && filled.aux == SlotAt(t, fd).aux
    ensures filled.aux != Desired(filled) && Desired(filled) != {}
    ensures fd == wakeFd ==> fd in k.interest && filled.aux == {}
    ensures fd != wakeFd ==> (fd in k.interest <==> fd in t) && (fd in t <==> !SlotAt(t, fd).Empty())
    ensures fd != wakeFd ==>
              var u := t[fd := filled.(aux := Desired(filled))];
              MasksOk(u, Watch(k, fd, Desired(filled)), wakeFd) && NoLostEdge(u, Watch(k, fd, Desired(filled)), inbox)
  {
    if fd in t { assert SlotOk(t, k, fd); }
    NewBit(SlotAt(t, fd), filled, d);
    if fd != wakeFd { WatchKeepsEdges(t, k, inbox, wakeFd, fd, filled.(aux := Desired(filled))); }
  }

  /** Everything about an arming call: its answer, and what table and kernel are like if it succeeds. */
  lemma ArmingAgrees(t: Table, k: Kernel, inbox: seq<Event>, wakeFd: int, fd: int, d: Dir, filled: Slot<Mask>,
                     fault: int, healthy: bool)
    requires Agrees(t, k, inbox, wakeFd, healthy) && fd >= 0
    requires SlotAt(t, fd).Reg(d).None? && filled.Reg(d).Some? && filled.aux == SlotAt(t, fd).aux
    ensures ArmAnswer(RefreshStatus(k, fd, filled, fault), fd, wakeFd, fault, healthy)
    ensures RefreshStatus(k, fd, filled, fault) == Ok ==>
              var u, l := t[fd := filled.(aux := Desired(filled))], InterestAfter(k, fd, filled);
              Agrees(u, l, inbox, wakeFd, healthy) && (healthy ==> OneLegalCall(t, u, k, l, fd))
  {
    ArmStatus(t, k, wakeFd, fd, d, filled, fault, healthy);
    ArmingKeepsEnrolled(t, k, fd, filled);
    if healthy { ArmingKeepsEdges(t, k, inbox, wakeFd, fd, d, filled); }
  }

  /** Which waiters an event is for: errors and hang-ups are for both directions. */
  predicate Concerns(events: Mask, d: Dir)
  {
    || Error in events || Hup in events
    || (if d.Read? then In in events || RdHup in events else Out in events)
  }

  lemma ReadyMaskConcerns(events: Mask, d: Dir)
    ensures HasEvent(events, ReadyMask(d)) <==> Concerns(events, d)
  {
    if HasEvent(events, ReadyMask(d)) { var f :| f in events * ReadyMask(d); }
    forall f | f in events && f in ReadyMask(d) ensures HasEvent(events, ReadyMask(d)) { assert f in events * ReadyMask(d); }
  }

  predicate Matches(ev: Event, slot: Slot<Mask>, d: Dir)
  {
    slot.Reg(d).Some? && HasEvent(ev.events, ReadyMask(d))
  }

  function Completed(ev: Event, slot: Slot<Mask>, d: Dir): Slot<Mask>
  {
    if Matches(ev, slot, d) then slot.Put(d, None) else slot
  }

  function BothCompleted(ev: Event, slot: Slot<Mask>): (done: Slot<Mask>)
    ensures Fewer(done, slot)
  {
    Completed(ev, Completed(ev, slot, Read), Write)
  }

  /** Once every waiter it concerns has been served, the event can go. */
  lemma ForgetServed(t: Table, k: Kernel, inbox: seq<Event>, slot: Slot<Mask>)
    requires NoLostEdge(t, k, inbox) && inbox != []
    requires var ev := inbox[0];
             ev.fd in t ==> t[ev.fd] == BothCompleted(ev, slot).(aux := t[ev.fd].aux)
    ensures NoLostEdge(t, k, inbox[1..])
  {
    var ev := inbox[0];
    forall d | ev.fd in t && t[ev.fd].Reg(d).Some? ensures !HasEvent(ev.events, ReadyMask(d)) {
      if d.Read? {} else {}
    }
    ForgetEvent(t, k, inbox);
  }

  function KeyIfReady(ev: Event, slot: Slot<Mask>, d: Dir): seq<Key>
  {
    if Matches(ev, slot, d) then [Key(ev.fd, d)] else []
  }

  /** The waits that event `ev` resolves, in the order in which the loop queues them. */
  function ReadyKeys(ev: Event, slot: Slot<Mask>): seq<Key>
  {
    KeyIfReady(ev, slot, Read) + KeyIfReady(ev, Completed(ev, slot, Read), Write)
  }

  /** Those waits are exactly the armed ones the event is for, the reader first. */
  lemma ReadyKeysAreConcerned(t: Table, armed: map<Key, Waiter>, ev: Event)
    requires Represents(t, armed) && ev.fd in t
    ensures forall k :: k in ReadyKeys(ev, t[ev.fd]) <==> k in armed && k.fd == ev.fd && Concerns(ev.events, k.dir)
  {
    var keys := ReadyKeys(ev, t[ev.fd]);
    forall k ensures k in keys <==> k in armed && k.fd == ev.fd && Concerns(ev.events, k.dir) {
      ReadyMaskConcerns(ev.events, k.dir);
      assert RepresentsAt(t, armed, ev.fd, k.dir);
      assert k == Key(k.fd, k.dir);
      if k.dir.Read? { assert Key(ev.fd, Read) in keys <==> Matches(ev, t[ev.fd], Read); }
      else { assert Key(ev.fd, Write) in keys <==> Matches(ev, t[ev.fd], Write); }
    }
  }

  /**
   * One turn of the environment: the clock reading, what the resumed coroutine does, which kernel
   * calls fail, how readiness changes meanwhile, what the kernel delivers, and whether some thread
   * calls stop().
   */
  datatype Turn = Turn(
    now: Time,
    script: seq<Action>,
    faults: map<int, int>,
    changes: seq<(int, Mask, bool)>,
    picks: seq<int>,
    waitError: Option<int>,
    stop: bool)

  /** Some event of the batch, among the first n, is about this descriptor. */
  ghost predicate HasReport(events: seq<Event>, n: int, fd: int)
  {
    exists i :: 0 <= i < n <= |events| && events[i].fd == fd
  }

  /** Some event of the batch, among the first n, is for this wait. */
  ghost predicate Reported(events: seq<Event>, n: int, k: Key)
  {
    exists i :: 0 <= i < n <= |events| && events[i].fd == k.fd && Concerns(events[i].events, k.dir)
  }

  predicate Deliverable(k: Kernel, picks: seq<int>, fd: int) { fd in picks && fd in k.edges && fd in k.interest }

  /**
   * What a wait returns if the kernel looks at the descriptors picked: at most 64 events, each for another
   * descriptor with an event pending and with what is ready of what is watched there, and all if there are fewer.
   */
  ghost predicate Reports(k: Kernel, picks: seq<int>, events: seq<Event>)
  {
    && |events| <= 64
    && (forall i :: 0 <= i < |events| ==>
          Deliverable(k, picks, events[i].fd) && events[i].events == Level(k, events[i].fd) * k.interest[events[i].fd])
    && (forall i, j :: 0 <= i < j < |events| ==> events[i].fd != events[j].fd)
    && (|events| < 64 ==>
          forall fd {:trigger Deliverable(k, picks, fd)} :: Deliverable(k, picks, fd) ==> HasReport(events, |events|, fd))
  }

  /** Reporting an event takes it from those pending, and nothing else. */
  ghost predicate Taken(k: Kernel, l: Kernel, events: seq<Event>)
  {
    && l.interest == k.interest && l.level == k.level
    && forall fd {:trigger fd in l.edges} :: fd in l.edges <==> fd in k.edges && !HasReport(events, |events|, fd)
  }

  lemma TakeNothing(k: Kernel)
    ensures Reports(k, [], []) && Taken(k, k, [])
  {}

  /** One more descriptor picked: its event is reported if it has one and there is room. */
  lemma TakeOneMore(k: Kernel, l: Kernel, picks: seq<int>, events: seq<Event>, fd: int)
    requires Reports(k, picks, events) && Taken(k, l, events)
    ensures var more := |events| < MAX_EVENTS && fd in l.edges && fd in l.interest;
            var after := if more then events + [Report(l, fd)] else events;
            Reports(k, picks + [fd], after) && Taken(k, if more then Delivered(l, fd) else l, after)
  {
    var more := |events| < MAX_EVENTS && fd in l.edges && fd in l.interest;
    var all, m := picks + [fd], if more then Delivered(l, fd) else l;
    var after := if more then events + [Report(l, fd)] else events;
    forall x ensures HasReport(after, |after|, x) <==> HasReport(events, |events|, x) || (more && x == fd) {
      if i :| 0 <= i < |events| && events[i].fd == x { assert after[i] == events[i]; }
      if more { assert after[|events|].fd == fd; }
    }
    forall i | 0 <= i < |after|
      ensures Deliverable(k, all, after[i].fd) && after[i].events == Level(k, after[i].fd) * k.interest[after[i].fd]
    {
      if i < |events| { assert after[i] == events[i] && Deliverable(k, picks, events[i].fd); }
    }
    forall i, j | 0 <= i < j < |after| ensures after[i].fd != after[j].fd {
      if j == |events| { assert HasReport(events, |events|, events[i].fd); }
    }
    if |after| < 64 {
      forall x | Deliverable(k, all, x) ensures HasReport(after, |after|, x) {
        if x in picks { assert Deliverable(k, picks, x); }
      }
    }
  }

  lemma WatchedIsReported(t: Table, k: Kernel, wakeFd: int, fd: int, d: Dir)
    requires MasksOk(t, k, wakeFd) && fd in t && t[fd].Reg(d).Some? && HasEvent(Level(k, fd), ReadyMask(d))
    ensures fd in k.interest && Concerns(Level(k, fd) * k.interest[fd], d)
  {
    assert SlotOk(t, k, fd);
    var f :| f in Level(k, fd) * ReadyMask(d);
    assert f in Desired(t[fd]);
    assert f in (Level(k, fd) * k.interest[fd]) * ReadyMask(d);
    ReadyMaskConcerns(Level(k, fd) * k.interest[fd], d);
  }

  /** An armed direction that is ready on a descriptor picked is reported if there is room. */
  lemma ReadyIsReported(t: Table, k: Kernel, wakeFd: int, picks: seq<int>, events: seq<Event>, fd: int, d: Dir)
    requires MasksOk(t, k, wakeFd) && Reports(k, picks, events) && |events| < 64
    requires fd in t && t[fd].Reg(d).Some? && HasEvent(Level(k, fd), ReadyMask(d)) && fd in picks && fd in k.edges
    ensures Reported(events, |events|, Key(fd, d))
  {
    assert SlotOk(t, k, fd) && Deliverable(k, picks, fd);
    var i :| 0 <= i < |events| && events[i].fd == fd;
    var f :| f in Level(k, fd) * ReadyMask(d);
    assert f in Desired(t[fd]);
    assert f in events[i].events * ReadyMask(d);
    ReadyMaskConcerns(events[i].events, d);
  }

  /** From `s` to `t` the wait on `k` ends with success if an event of the batch is for it, and else stays armed. */
  ghost predicate ServedAt(s: Co.Sys, t: Co.Sys, events: seq<Event>, wakeFd: int, k: Key)
  {
    k in s.armed ==>
      var h := s.armed[k].handle;
      if k.fd != wakeFd && Reported(events, |events|, k) then
        k !in t.armed && h in t.ready && h in t.results && t.results[h] == Ok && Told(s, t, k, Ok)
      else k in t.armed && t.armed[k] == s.armed[k]
  }

  ghost predicate Serves(s: Co.Sys, t: Co.Sys, events: seq<Event>, wakeFd: int)
  {
    && (forall k {:trigger ServedAt(s, t, events, wakeFd, k)} :: ServedAt(s, t, events, wakeFd, k))
    && t.armed.Keys <= s.armed.Keys && s.ready <= t.ready
  }

  /** The waits woken so far are exactly those that the first n events are for. */
  ghost predicate Wakes(order: seq<Key>, armed: map<Key, Waiter>, events: seq<Event>, n: int, wakeFd: int)
  {
    forall k :: k in order <==> k in armed && k.fd != wakeFd && Reported(events, n, k)
  }

  lemma WakesMore(order: seq<Key>, more: seq<Key>, armed: map<Key, Waiter>, left: map<Key, Waiter>, events: seq<Event>,
                  n: nat, wakeFd: int)
    requires n < |events| && Wakes(order, armed, events, n, wakeFd) && left == armed - (set k | k in order)
    requires forall k :: k in more <==> k in left && k.fd == events[n].fd != wakeFd && Concerns(events[n].events, k.dir)
    ensures Wakes(order + more, armed, events, n + 1, wakeFd)
  {
    forall k ensures k in order + more <==> k in armed && k.fd != wakeFd && Reported(events, n + 1, k) {
      if Reported(events, n + 1, k) {
        var i :| 0 <= i < n + 1 && events[i].fd == k.fd && Concerns(events[i].events, k.dir);
        if i < n { assert Reported(events, n, k); }
      }
      assert k in left <==> k in armed && k !in order;
    }
  }

  lemma WokenAreServed(s: Co.Sys, t: Co.Sys, order: seq<Key>, events: seq<Event>, wakeFd: int)
    requires Reachable(s) && Reachable(t) && BecomesReady(s, t, order) && Wakes(order, s.armed, events, |events|, wakeFd)
    ensures Serves(s, t, events, wakeFd)
  {
    forall k ensures ServedAt(s, t, events, wakeFd, k) {
      if k in s.armed && k.fd != wakeFd && Reported(events, |events|, k) {
        var i :| 0 <= i < |order| && order[i] == k;
        assert WokenAt(s, t, order, OkStatuses(|order|), i);
        WokeTells(s, t, order, OkStatuses(|order|), i);
        assert Handles(s.armed, order)[i] == s.armed[k].handle;
        assert t.ready[|s.ready| + i] == s.armed[k].handle;
      }
    }
  }

  /** What is ready on each descriptor after these changes, and after those of the turns from i up to j. */
  function Levels(level: map<int, Mask>, changes: seq<(int, Mask, bool)>): map<int, Mask>
  {
    if changes == [] then level else
    var last := changes[|changes| - 1];
    Levels(level, changes[..|changes| - 1])[last.0 := last.1]
  }

  lemma {:induction false} ChangedLevels(k: Kernel, changes: seq<(int, Mask, bool)>)
    ensures Changed(k, changes).level == Levels(k.level, changes)
  {
    if changes != [] { ChangedLevels(k, changes[..|changes| - 1]); }
  }

  function LevelAfter(level: map<int, Mask>, env: seq<Turn>, i: nat, j: nat): map<int, Mask>
    requires j <= |env|
    decreases j
  {
    if j <= i then level else Levels(LevelAfter(level, env, i, j - 1), env[j - 1].changes)
  }

  lemma NothingPassed(level: map<int, Mask>, env: seq<Turn>, i: nat)
    requires i <= |env|
    ensures LevelAfter(level, env, i, i) == level && (i > 0 ==> Quiet(env, i, i - 1))
  {}

  lemma LevelMore(level: map<int, Mask>, env: seq<Turn>, i: nat, j: nat)
    requires i <= j < |env|
    ensures LevelAfter(level, env, i, j + 1) == Levels(LevelAfter(level, env, i, j), env[j].changes)
  {}

  /** Every armed wait that is ready has an event pending that will say so. */
  ghost predicate Poised(armed: map<Key, Waiter>, k: Kernel)
  {
    forall key {:trigger PoisedAt(armed, k, key)} :: PoisedAt(armed, k, key)
  }

  ghost predicate PoisedAt(armed: map<Key, Waiter>, k: Kernel, key: Key)
  {
    key in armed && Concerns(Level(k, key.fd), key.dir) ==>
      key.fd in k.edges && key.fd in k.interest && Concerns(Level(k, key.fd) * k.interest[key.fd], key.dir)
  }

  /** How a loop went to wait: after which turn, with what scheduler and kernel, and what the wait returned. */
  datatype Idle = Idle(at: nat, core: Co.Sys, kernel: Kernel, events: seq<Event>)

  /** From `s` on, each turn up to `idle` resumes one coroutine; a loop with nothing to do goes idle as it is. */
  ghost predicate WentIdle(s: Co.Sys, k: Kernel, env: seq<Turn>, from: nat, idle: Idle)
  {
    && from <= idle.at < |env| && Leads(s, idle.core, idle.at - from)
    && idle.kernel.level == LevelAfter(k.level, env, from + 1, idle.at + 1)
    && (s.ready == [] && NoneDue(s.armed, env[from].now) ==>
          idle.at == from && idle.core == s && idle.kernel == k)
  }

  /** The wait returns what the kernel has to report, and without a failure every wait it is for is served. */
  ghost predicate WokeUp(idle: Idle, env: seq<Turn>, t: Co.Sys, wakeFd: int, failed: bool)
  {
    && idle.at + 1 < |env| && env[idle.at + 1].waitError.None?
    && Reports(idle.kernel, env[idle.at + 1].picks, idle.events)
    && (!failed ==> Serves(idle.core, t, idle.events, wakeFd))
  }

  /**
   * One iteration of the loop of run(): where it begins and ends, and the loop as it went to wait. What was due at
   * its first clock reading is told so and nothing due is left; if it goes on, it has served what its wait returned.
   */
  datatype Lap = Lap(from: nat, start: Co.Sys, kernel: Kernel, idle: Idle, verdict: Verdict,
                     next: nat, end: Co.Sys, after: Kernel, healthy: bool, failed: bool)

  ghost predicate LapOk(env: seq<Turn>, lap: Lap, wakeFd: int)
  {
    && lap.from < lap.next <= |env| && lap.idle.at + 1 <= lap.next <= lap.idle.at + 2
    && WentIdle(lap.start, lap.kernel, env, lap.from, lap.idle) && Leads(lap.idle.core, lap.end, 0)
    && (!lap.failed ==> NoneDue(lap.end.armed, env[lap.idle.at].now))
    && (!lap.failed ==> AllTimedOut(lap.start, lap.end, env[lap.from].now))
    && (lap.verdict == Again ==> lap.next == lap.idle.at + 2 && WokeUp(lap.idle, env, lap.end, wakeFd, lap.failed))
    && (lap.verdict == Again ==> lap.after.level == Levels(lap.idle.kernel.level, env[lap.idle.at + 1].changes))
    && (lap.verdict == Again && lap.healthy ==> Poised(lap.idle.core.armed, lap.idle.kernel))
  }

  /** A lap begins where the one before has ended. */
  ghost predicate Follows(a: Lap, b: Lap)
  {
    && b.from == a.next && b.start == a.end && b.kernel == a.after && (a.healthy ==> b.healthy)
    && a.verdict == Again && !a.failed
  }

  /** The laps of a run, one after the other. */
  ghost predicate LapsOk(env: seq<Turn>, laps: seq<Lap>, wakeFd: int)
  {
    && (forall i :: 0 <= i < |laps| ==> LapOk(env, laps[i], wakeFd))
    && (forall i, j :: 0 <= i && j == i + 1 < |laps| ==> Follows(laps[i], laps[j]))
  }

  lemma LapsMore(env: seq<Turn>, laps: seq<Lap>, lap: Lap, wakeFd: int)
    requires LapsOk(env, laps, wakeFd) && LapOk(env, lap, wakeFd) && (laps != [] ==> Follows(laps[|laps| - 1], lap))
    ensures LapsOk(env, laps + [lap], wakeFd)
  {
    hide LapOk, Follows;
    var more := laps + [lap];
    forall i, j | 0 <= i && j == i + 1 < |more| ensures Follows(more[i], more[j]) {
      if j < |laps| { assert Follows(laps[i], laps[j]); }
    }
  }

  /** The laps lead from `s` at turn 0 to `t` at turn i. */
  ghost predicate LapsLead(env: seq<Turn>, laps: seq<Lap>, s: Co.Sys, k: Kernel, i: nat, t: Co.Sys, wakeFd: int)
  {
    && LapsOk(env, laps, wakeFd)
    && if laps == [] then i == 0 && t == s
       else
         && laps[0].from == 0 && laps[0].start == s && laps[0].kernel == k
         && laps[|laps| - 1].next == i && laps[|laps| - 1].end == t
  }

  lemma LapsLeadOn(env: seq<Turn>, laps: seq<Lap>, lap: Lap, s: Co.Sys, k: Kernel, i: nat, t: Co.Sys, wakeFd: int)
    requires LapsLead(env, laps, s, k, i, t, wakeFd) && LapOk(env, lap, wakeFd)
    requires if laps == [] then lap.from == 0 && lap.start == s && lap.kernel == k else Follows(laps[|laps| - 1], lap)
    ensures LapsLead(env, laps + [lap], s, k, lap.next, lap.end, wakeFd)
  {
    LapsMore(env, laps, lap, wakeFd);
  }

  /** Nothing is queued or due, something is armed, and the wait does not fail: the loop has to block. */
  ghost predicate WouldBlock(s: Co.Sys, env: seq<Turn>, from: nat)
  {
    && from + 1 < |env| && s.ready == [] && s.armed != map[] && NoneDue(s.armed, env[from].now)
    && env[from + 1].waitError.None?
  }

  /** Every wait that the batch reports is over, and its coroutine is told success. */
  ghost predicate AllTold(s: Co.Sys, t: Co.Sys, events: seq<Event>, wakeFd: int)
  {
    forall k :: k in s.armed && k.fd != wakeFd && Reported(events, |events|, k) ==> Told(s, t, k, Ok)
  }

  /**
   * What is sure of a run from its first turns on: the waits due at the first clock reading have timed out, and a
   * loop that has to block serves what the kernel then has to report.
   */
  ghost predicate Begins(s: Co.Sys, k: Kernel, env: seq<Turn>, t: Co.Sys, wakeFd: int)
  {
    && (env != [] ==> AllTimedOut(s, t, env[0].now))
    && (WouldBlock(s, env, 0) ==> exists events :: Reports(k, env[1].picks, events) && AllTold(s, t, events, wakeFd))
  }

  lemma AllToldForGood(s: Co.Sys, t: Co.Sys, u: Co.Sys, n: nat, events: seq<Event>, wakeFd: int)
    requires AllTold(s, t, events, wakeFd) && Leads(t, u, n) && Reachable(u)
    ensures AllTold(s, u, events, wakeFd)
  {
    forall key | key in s.armed && key.fd != wakeFd && Reported(events, |events|, key) ensures Told(s, u, key, Ok) {
      ToldForGood(s, t, u, n, key, Ok);
    }
  }

  lemma BegunForGood(s: Co.Sys, k: Kernel, env: seq<Turn>, t: Co.Sys, u: Co.Sys, n: nat, wakeFd: int)
    requires Begins(s, k, env, t, wakeFd) && Leads(t, u, n) && Reachable(u)
    ensures Begins(s, k, env, u, wakeFd)
  {
    if env != [] { TimedOutForGood(s, t, u, n, env[0].now); }
    if WouldBlock(s, env, 0) {
      var events :| Reports(k, env[1].picks, events) && AllTold(s, t, events, wakeFd);
      AllToldForGood(s, t, u, n, events, wakeFd);
    }
  }

  lemma NothingBegun(env: seq<Turn>, s: Co.Sys, k: Kernel, wakeFd: int)
    ensures env == [] ==> Begins(s, k, env, s, wakeFd)
    ensures LapsLead(env, [], s, k, 0, s, wakeFd)
  {}

  lemma LapLeads(env: seq<Turn>, lap: Lap, wakeFd: int)
    requires LapOk(env, lap, wakeFd)
    ensures lap.from <= lap.idle.at < lap.next && Leads(lap.start, lap.end, lap.idle.at - lap.from)
  {
    LeadsOn(lap.start, lap.idle.core, lap.end, lap.idle.at - lap.from, 0);
  }

  /** The first lap begins the run so, and the later ones take nothing back. */
  lemma BeginsOn(s: Co.Sys, k: Kernel, env: seq<Turn>, m: Co.Sys, lap: Lap, wakeFd: int)
    requires LapOk(env, lap, wakeFd) && lap.start == m && !lap.failed && Reachable(lap.end)
    requires if lap.from == 0 then m == s && lap.kernel == k else Begins(s, k, env, m, wakeFd)
    requires lap.from == 0 && WouldBlock(m, env, 0) ==> lap.verdict == Again
    ensures Begins(s, k, env, lap.end, wakeFd)
  {
    hide Leads, Reachable, Serves, AllTimedOut;
    var t, idle := lap.end, lap.idle;
    if lap.from > 0 {
      LapLeads(env, lap, wakeFd);
      BegunForGood(s, k, env, m, t, idle.at - lap.from, wakeFd);
    } else if WouldBlock(s, env, 0) {
      ServedAreTold(s, t, idle.events, wakeFd);
    }
  }

  lemma ServedAreTold(s: Co.Sys, t: Co.Sys, events: seq<Event>, wakeFd: int)
    requires Serves(s, t, events, wakeFd)
    ensures AllTold(s, t, events, wakeFd)
  {
    forall key | key in s.armed && key.fd != wakeFd && Reported(events, |events|, key) ensures Told(s, t, key, Ok) {
      assert ServedAt(s, t, events, wakeFd, key);
    }
  }

  /**
   * Whole runs: whoever a lap has timed out, or served after its wait, has been told so in every later state of the
   * run, once and for all.
   */
  lemma {:induction false} LapTells(env: seq<Turn>, laps: seq<Lap>, i: nat, j: nat, wakeFd: int)
    requires LapsOk(env, laps, wakeFd) && i <= j < |laps| && Reachable(laps[i].start) && !laps[i].failed
    ensures Reachable(laps[j].end)
    ensures AllTimedOut(laps[i].start, laps[j].end, env[laps[i].from].now)
    ensures laps[i].verdict == Again ==> AllTold(laps[i].idle.core, laps[j].end, laps[i].idle.events, wakeFd)
    decreases j - i
  {
    hide Leads, Reachable, Serves, AllTimedOut, AllTold, WentIdle;
    var a, b := laps[i], laps[j];
    assert LapOk(env, a, wakeFd) && LapOk(env, b, wakeFd);
    LapLeads(env, b, wakeFd);
    if i == j {
      ReachableOn(b.start, b.end, b.idle.at - b.from);
      if a.verdict == Again { ServedAreTold(a.idle.core, a.end, a.idle.events, wakeFd); }
    } else {
      var m := j - 1;
      LapTells(env, laps, i, m, wakeFd);
      assert Follows(laps[m], b);
      ReachableOn(b.start, b.end, b.idle.at - b.from);
      TimedOutForGood(a.start, b.start, b.end, b.idle.at - b.from, env[a.from].now);
      if a.verdict == Again {
        AllToldForGood(a.idle.core, b.start, b.end, b.idle.at - b.from, a.idle.events, wakeFd);
      }
    }
  }

  /** What is ready of a descriptor, by the table of all that is ready. */
  function ReadyOf(level: map<int, Mask>, fd: int): Mask { if fd in level then level[fd] else {} }

  /**
   * No lost wakeup, told from the outside: if the changes of readiness since the iteration began leave a descriptor
   * ready for a wait that is armed when the loop goes to wait, and the kernel looks at that descriptor and has room
   * for its event, then the wait is over and its coroutine is told success.
   */
  lemma ReadyIsTold(env: seq<Turn>, lap: Lap, key: Key, wakeFd: int)
    requires LapOk(env, lap, wakeFd) && lap.verdict == Again && lap.healthy && !lap.failed
    requires key in lap.idle.core.armed && key.fd != wakeFd && key.fd in env[lap.idle.at + 1].picks && |lap.idle.events| < 64
    requires Concerns(ReadyOf(LevelAfter(lap.kernel.level, env, lap.from + 1, lap.idle.at + 1), key.fd), key.dir)
    ensures key !in lap.end.armed && Told(lap.idle.core, lap.end, key, Ok)
  {
    hide Leads, LevelAfter, Told;
    var k, events := lap.idle.kernel, lap.idle.events;
    assert PoisedAt(lap.idle.core.armed, k, key);
    assert Deliverable(k, env[lap.idle.at + 1].picks, key.fd);
    var i :| 0 <= i < |events| && events[i].fd == key.fd;
    assert Reported(events, |events|, key);
    assert ServedAt(lap.idle.core, lap.end, events, wakeFd, key);
  }

  lemma StillNoneDue(s: Co.Sys, t: Co.Sys, events: seq<Event>, wakeFd: int, now: Time)
    requires Serves(s, t, events, wakeFd) && NoneDue(s.armed, now)
    ensures NoneDue(t.armed, now)
  {
    forall k ensures k !in Expired(t.armed, now) {
      assert ServedAt(s, t, events, wakeFd, k) && k !in Expired(s.armed, now);
    }
  }

  predicate Asks(t: Turn) { t.stop || StopLoop in t.script }

  /** In some turn from i to j a coroutine or another thread asks the loop to stop. */
  ghost predicate AskedIn(env: seq<Turn>, i: nat, j: nat)
  {
    exists n :: i <= n < j <= |env| && Asks(env[n])
  }

  /** Nobody called stop() in the turns from i up to j. */
  ghost predicate Quiet(env: seq<Turn>, i: nat, j: nat)
  {
    forall n :: i <= n < j < |env| ==> !env[n].stop
  }

  lemma QuietMore(env: seq<Turn>, i: nat, j: nat)
    requires j + 1 < |env| && Quiet(env, i, j) && (i <= j ==> !env[j].stop)
    ensures Quiet(env, i, j + 1)
  {}

  lemma AskedMore(env: seq<Turn>, i: nat, j: nat, k: nat)
    requires i <= j <= k <= |env|
    ensures AskedIn(env, i, j) || AskedIn(env, j, k) ==> AskedIn(env, i, k)
    ensures k == j + 1 && Asks(env[j]) ==> AskedIn(env, i, k)
  {}

  function Changed(k: Kernel, changes: seq<(int, Mask, bool)>): Kernel
  {
    if changes == [] then k else
    var last := changes[|changes| - 1];
    Change(Changed(k, changes[..|changes| - 1]), last.0, last.1, last.2)
  }

  function FaultAt(faults: map<int, int>, fd: int): int { if fd in faults then faults[fd] else 0 }

  /** Some change of interest fails with this errno. */
  ghost predicate IsFault(faults: map<int, int>, code: int)
  {
    code != 0 && exists fd :: FaultAt(faults, fd) == code
  }

  /** The wait or a change of interest fails with this errno in this turn, or in some turn. */
  ghost predicate FailsIn(t: Turn, code: int) { t.waitError == Some(code) || IsFault(t.faults, code) }

  ghost predicate Fails(env: seq<Turn>, code: int)
  {
    exists j :: 0 <= j < |env| && FailsIn(env[j], code)
  }

  class EventLoop {
    const core: Scheduler
    const wakeFd: int
    const initError: Option<int>
    var waiters: Table
    var pending: nat                     // pending_waiter_count_
    var timed: nat                       // timed_waiter_count_
    var nextDeadline: Option<Time>
    var dirty: bool                      // deadline_index_dirty_
    var loopError: Option<int>
    var stopRequested: bool
    var kernel: Kernel
    ghost var inbox: seq<Event>          // events returned by the last wait and not processed yet
    ghost var healthy: bool              // no change of interest has failed in the loop itself

    /** The table, the counters and the cached deadline agree with the abstract scheduler. */
    ghost predicate Coherent()
      reads this`waiters, this`pending, this`timed, this`nextDeadline, core
    {
      && core.Valid()
      && Represents(waiters, core.armed)
      && pending == |core.armed|
      && timed == |Timed(core.armed)|
      && LowerBound(nextDeadline, core.armed)
    }

    /** Table `t` and the kernel agree on every mask, and no edge is lost. */
    ghost predicate EdgesOk(t: Table)
      reads this`kernel, this`inbox, this`healthy
    {
      Agrees(t, kernel, inbox, wakeFd, healthy)
    }

    /** The error that ends this run, if any, was reported by a kernel call of some turn. */
    ghost predicate ErrorFrom(env: seq<Turn>)
      reads this`loopError
    {
      loopError.Some? ==> Fails(env, loopError.value)
    }

    ghost predicate KernelOk()
      reads this`waiters, this`kernel, this`inbox, this`healthy
    {
      EdgesOk(waiters)
    }

    /** A wait with this deadline has been entered into table `t` and counted, but is not armed. */
    ghost predicate Entered(t: Table, fd: int, d: Dir, deadline: Option<Time>)
      reads this`waiters, this`pending, this`timed, this`nextDeadline, core
    {
      && core.Valid() && Represents(t, core.armed) && SlotAt(t, fd).Reg(d).None? && LowerBound(nextDeadline, core.armed)
      && fd in waiters && waiters == t[fd := waiters[fd]] && waiters[fd].Put(d, None) == SlotAt(t, fd)
      && pending == |core.armed| + 1 && timed == |Timed(core.armed)| + if deadline.Some? then 1 else 0
    }

    ghost predicate Valid()
      reads this, core
    {
      && Coherent()
      && KernelOk()
      && (healthy ==> CacheOk(nextDeadline, dirty, core.armed))
      && (loopError.Some? ==> !healthy)
    }

    /** What holds between two steps of run(): an error ends the run, and a batch is left only by an error. */
    ghost predicate InRun(env: seq<Turn>)
      reads this`loopError, this`stopRequested, this`inbox
    {
      (loopError.Some? ==> stopRequested) && ErrorFrom(env) && (loopError.None? ==> inbox == [])
    }

    /** A verdict to leave means stopped or done, one to return has used up the turns or names a failed kernel call. */
    ghost predicate Concludes(env: seq<Turn>, next: nat, verdict: Verdict)
      reads this`stopRequested, core
    {
      match verdict
      case Again => true
      case Leave => stopRequested || (core.ready == [] && core.active == 0 && core.armed == map[])
      case Return(out) =>
        if out == Paused then next == |env| else out.Failed? && 0 < next <= |env| && FailsIn(env[next - 1], out.code)
    }

    /** Only a loop error ends the good health of a loop. */
    ghost predicate KeepsHealth(was: bool)
      reads this`loopError, this`healthy
    {
      loopError.None? && was ==> healthy
    }

    /** The counters are exact, so the guards of their decrements never change the result. */
    lemma CountersAreExact()
      requires Valid()
      ensures pending == |core.armed| && timed == |Timed(core.armed)| && core.active == |Inv.Unfinished(core.frames)|
    {
      ReachableInv(core.State());
    }

    /** While a timed wait is armed the cached deadline is set and not later than it. */
    lemma DeadlineIsCached(k: Key)
      requires Valid() && k in core.armed && core.armed[k].deadline.Some?
      ensures nextDeadline.Some? && nextDeadline.value <= core.armed[k].deadline.value
    {
      CachedDeadline(nextDeadline, core.armed, k);
    }

    /** The mask a slot remembers, the mask it needs and the kernel's mask are one. */
    lemma MasksAgree(fd: int)
      requires Valid() && healthy
      ensures fd in kernel.interest <==> fd in waiters || fd == wakeFd
      ensures fd in waiters ==> !waiters[fd].Empty() && waiters[fd].aux == Desired(waiters[fd]) == kernel.interest[fd]
      ensures fd in waiters ==>
                var mask := kernel.interest[fd];
                && {Et, Error, Hup, RdHup} <= mask
                && (In in mask <==> Key(fd, Read) in core.armed) && (Out in mask <==> Key(fd, Write) in core.armed)
    {
      assert RepresentsAt(waiters, core.armed, fd, Read) && RepresentsAt(waiters, core.armed, fd, Write);
      if fd in waiters {
        assert SlotOk(waiters, kernel, fd);
        DesiredFlags(waiters[fd]);
      }
    }

    /** No lost edge: with no batch in hand, an armed direction that is ready has an event to be delivered. */
    lemma ReadyWaitHasAnEvent(fd: int, d: Dir)
      requires Valid() && healthy && inbox == [] && Key(fd, d) in core.armed
      requires HasEvent(Level(kernel, fd), ReadyMask(d))
      ensures fd in kernel.edges && fd in kernel.interest
    {
      assert RepresentsAt(waiters, core.armed, fd, d);
      assert SlotOk(waiters, kernel, fd);
      assert Announced(kernel, inbox, fd, d);
    }

    /** A new loop watches only its wake descriptor; `failure` is an error of the setup calls. */
    constructor (wakeFd: int, failure: Option<int>)
      ensures Valid() && fresh(core) && healthy && core.State() == Co.INIT
      ensures this.wakeFd == wakeFd && initError == failure && inbox == [] && loopError.None?
    {
      core := new Scheduler();
      this.wakeFd := wakeFd;
      initError := failure;
      waiters, pending, timed, nextDeadline, dirty := map[], 0, 0, None, false;
      loopError, stopRequested := None, false;
      kernel := Kernel(map[wakeFd := {In}], map[], {});
      inbox, healthy := [], true;
      new;
      assert Timed(core.armed) == {};
    }

    method RefreshInterest(fd: int, fault: int) returns (r: Status)
      requires fd in waiters
      modifies this`waiters, this`kernel
      ensures r.Err? ==> waiters == old(waiters) && kernel == old(kernel)
      ensures r == Ok ==>
                var slot := old(waiters[fd]);
                var mask := Desired(slot);
                && waiters == old(waiters)[fd := slot.(aux := mask)]
                && kernel == InterestAfter(old(kernel), fd, slot)
                && (slot.aux != mask && mask != {} ==> (fd in old(kernel).interest <==> slot.aux != {}))
      ensures r == RefreshStatus(old(kernel), fd, old(waiters[fd]), fault)
      ensures kernel.level == old(kernel.level)
    {
      var slot := waiters[fd];
      var mask := Desired(slot);
      if slot.aux == mask {
        assert slot == slot.(aux := mask);
        return Ok;
      }
      var answer := Ctl(kernel, RefreshOp(slot), fd, mask, fault);
      r := answer.1;
      if r == Ok {
        kernel := answer.0;
        waiters := waiters[fd := slot.(aux := mask)];
      }
    }

    /** Clear one registration, give its coroutine `status` and queue it. */
    method Release(fd: int, d: Dir, status: Status)
      requires Coherent() && fd in waiters && waiters[fd].Reg(d).Some?
      modifies this`waiters, this`pending, this`timed, core
      ensures Coherent()
      ensures waiters == old(waiters)[fd := old(waiters)[fd].Put(d, None)]
      ensures Co.CanResolve(old(core.State()), Key(fd, d))
      ensures core.State() == Co.Resolved(old(core.State()), Key(fd, d), status)
    {
      var w := waiters[fd].Reg(d).value;
      assert RepresentsAt(waiters, core.armed, fd, d);
      DisarmCounts(core.armed, Key(fd, d));
      LowerBoundAfterDisarm(nextDeadline, core.armed, {Key(fd, d)});
      ClearRegistration(waiters, core.armed, fd, d);
      core.Wake(Key(fd, d), w.handle, status);
      if w.deadline.Some? && timed > 0 {
        timed := timed - 1;
      }
      waiters := waiters[fd := waiters[fd].Put(d, None)];
      if pending > 0 {
        pending := pending - 1;
      }
    }

    /** Ask for the mask the slot needs now, and erase the slot if nothing waits on it. */
    method Tidy(fd: int, fault: int, ghost before: Table) returns (r: Status)
      requires fd in waiters && waiters == before[fd := waiters[fd]]
      modifies this`waiters, this`kernel
      ensures r == RefreshStatus(old(kernel), fd, old(waiters[fd]), fault)
      ensures r.Err? ==> waiters == old(waiters) && kernel == old(kernel)
      ensures r == Ok ==> waiters == Tidied(before, fd, old(waiters[fd]))
      ensures r == Ok ==> kernel == InterestAfter(old(kernel), fd, old(waiters[fd]))
      ensures kernel.level == old(kernel.level)
    {
      ghost var slot := waiters[fd];
      UpdateTwice(before, fd, slot, slot.(aux := Desired(slot)));
      r := RefreshInterest(fd, fault);
      if r == Ok && waiters[fd].Empty() {
        waiters := waiters - {fd};
      }
    }

    /**
     * The loop has cleared registrations of slot `fd`; `before` is the table it started from.
     * Bring the kernel in line and erase the slot if it is no longer needed.
     */
    method SettleSlot(fd: int, fault: int, ghost before: Table) returns (r: Status)
      requires Coherent() && fd in waiters && fd in before
      requires waiters == before[fd := waiters[fd]] && Fewer(waiters[fd], before[fd])
      requires EdgesOk(before)
      modifies this`waiters, this`kernel
      ensures Coherent()
      ensures r.Err? ==> waiters == old(waiters) && kernel == old(kernel) && r == Err(fault) && fault != 0
      ensures AllEnrolled(waiters, kernel)
      ensures r == Ok ==> KernelOk() && waiters == Tidied(before, fd, old(waiters[fd]))
      ensures kernel.level == old(kernel.level)
    {
      ghost var slot := waiters[fd];
      if healthy { SettlingKeepsEdges(before, kernel, inbox, wakeFd, fd, slot); }
      SettlingKeepsEnrolled(before, kernel, fd, slot);
      SettleStatus(before, kernel, fd, slot, fault);
      TidyKeepsWaits(before, core.armed, fd, slot);
      r := Tidy(fd, fault, before);
    }

    /** Nothing was cleared: an empty slot can only be left over from a run that failed. */
    method EraseIfEmpty(fd: int)
      requires Coherent() && KernelOk() && fd in waiters
      modifies this`waiters
      ensures Coherent() && KernelOk()
      ensures old(waiters).Keys - {fd} <= waiters.Keys
    {
      assert healthy ==> SlotOk(waiters, kernel, fd);
      if waiters[fd].Empty() {
        RewriteSlot(waiters, core.armed, fd, waiters[fd].aux);
        FewerSlotsEnrolled(waiters, kernel, fd);
        waiters := waiters - {fd};
      }
    }

    /** Settle the slot; a failure of the kernel call ends the run. */
    method SettleOrFail(fd: int, fault: int, ghost before: Table)
      requires Coherent() && fd in waiters && fd in before && loopError.None?
      requires waiters == before[fd := waiters[fd]] && Fewer(waiters[fd], before[fd])
      requires EdgesOk(before)
      modifies this`waiters, this`kernel, this`loopError, this`stopRequested, this`healthy
      ensures Coherent() && KernelOk()
      ensures old(waiters).Keys - {fd} <= waiters.Keys
      ensures fd in waiters ==> waiters[fd] == old(waiters[fd]).(aux := waiters[fd].aux)
      ensures if loopError.None? then healthy == old(healthy) && stopRequested == old(stopRequested)
              else !healthy && stopRequested
      ensures loopError.Some? ==> loopError.value == fault != 0
      ensures kernel.level == old(kernel.level)
    {
      var r := SettleSlot(fd, fault, before);
      if r.Err? {
        loopError := Some(r.code);
        stopRequested := true;
        healthy := false;
      }
    }

    /** Time out one registration if its deadline has passed. */
    method ExpireRegistration(fd: int, d: Dir, now: Time) returns (expired: bool)
      requires Coherent() && fd in waiters
      modifies this`waiters, this`pending, this`timed, core
      ensures Coherent()
      ensures expired == Due(old(waiters[fd].Reg(d)), now)
      ensures expired <==> Key(fd, d) in Expired(old(core.armed), now)
      ensures expired ==> waiters == old(waiters)[fd := old(waiters[fd]).Put(d, None)]
      ensures !expired ==> waiters == old(waiters)
      ensures TimesOut(old(core.State()), core.State(), if expired then [Key(fd, d)] else [])
      ensures core.armed == old(core.armed) - if expired then {Key(fd, d)} else {}
    {
      assert RepresentsAt(waiters, core.armed, fd, d);
      var reg := waiters[fd].Reg(d);
      expired := Due(reg, now);
      if expired {
        CanAlwaysResolve(core.State(), Key(fd, d));
        TimesOutOne(core.State(), Key(fd, d));
        Release(fd, d, Err(reg.value.timeoutError));
      } else {
        TimesOutNothing(core.State());
      }
    }

    method ExpireSlot(fd: int, now: Time) returns (changed: bool, ghost order: seq<Key>)
      requires Coherent() && fd in waiters
      modifies this`waiters, this`pending, this`timed, core
      ensures Coherent()
      ensures fd in waiters && waiters == old(waiters)[fd := waiters[fd]] && waiters[fd] == Cleared(old(waiters[fd]), now)
      ensures !changed ==> waiters == old(waiters) && order == []
      ensures NoneDue(old(core.armed), now) ==> !changed
      ensures TimesOut(old(core.State()), core.State(), order)
      ensures core.armed == old(core.armed) - ExpiredOn(old(core.armed), now, {fd})
    {
      hide Woke, LowerBound;
      ghost var s0, t0 := core.State(), waiters;
      NoneDueHere(core.armed, now, fd);
      var r := ExpireRegistration(fd, Read, now);
      ghost var s1 := core.State();
      var w := ExpireRegistration(fd, Write, now);
      changed := r || w;
      ClearedTable(t0, fd, now, r, w);
      ghost var a := if r then [Key(fd, Read)] else [];
      ghost var b := if w then [Key(fd, Write)] else [];
      order := a + b;
      TimesOutMore(s0, s1, core.State(), a, b);
      ExpireBoth(s0.armed, now, fd, r, w);
    }

    /** Expire what is due on one slot, then bring the kernel in line. */
    method ScanSlot(fd: int, now: Time, fault: int) returns (ghost order: seq<Key>)
      requires Coherent() && KernelOk() && fd in waiters && loopError.None?
      modifies this`waiters, this`pending, this`timed, this`kernel, this`loopError, this`stopRequested, this`healthy, core
      ensures Coherent() && KernelOk()
      ensures TimesOut(old(core.State()), core.State(), order)
      ensures core.armed == old(core.armed) - ExpiredOn(old(core.armed), now, {fd})
      ensures NoneDue(old(core.armed), now) ==> loopError.None? && kernel == old(kernel) && order == []
      ensures old(waiters).Keys - {fd} <= waiters.Keys
      ensures if loopError.None? then healthy == old(healthy) && stopRequested == old(stopRequested)
              else !healthy && stopRequested
      ensures loopError.Some? ==> loopError.value == fault != 0
      ensures kernel.level == old(kernel.level)
    {
      hide TimesOut, Agrees, Fewer, NoneDue, LowerBound;
      ghost var before := waiters;
      var changed;
      changed, order := ClearDue(fd, now);
      SettleIfChanged(fd, changed, fault, before);
    }

    /** Registrations of slot `fd` may have been cleared since the table was `before`; the kernel does not know yet. */
    ghost predicate ToSettle(fd: int, changed: bool, before: Table)
      reads this`waiters, this`pending, this`timed, this`nextDeadline, this`kernel, this`inbox, this`healthy, core
    {
      && Coherent() && fd in waiters && fd in before && EdgesOk(before)
      && waiters == before[fd := waiters[fd]] && Fewer(waiters[fd], before[fd]) && (!changed ==> waiters == before)
    }

    /** Expiring a slot takes registrations away and leaves the other slots alone. */
    method ClearDue(fd: int, now: Time) returns (changed: bool, ghost order: seq<Key>)
      requires Coherent() && KernelOk() && fd in waiters
      modifies this`waiters, this`pending, this`timed, core
      ensures ToSettle(fd, changed, old(waiters)) && waiters.Keys == old(waiters).Keys
      ensures NoneDue(old(core.armed), now) ==> !changed && order == []
      ensures TimesOut(old(core.State()), core.State(), order)
      ensures core.armed == old(core.armed) - ExpiredOn(old(core.armed), now, {fd})
    {
      hide TimesOut, LowerBound, NoneDue, Agrees, Represents;
      ClearedIsFewer(waiters, fd, now);
      changed, order := ExpireSlot(fd, now);
    }

    /** Settle the slot if a registration was cleared; without one, an empty slot is only erased. */
    method SettleIfChanged(fd: int, changed: bool, fault: int, ghost before: Table)
      requires ToSettle(fd, changed, before) && loopError.None?
      modifies this`waiters, this`kernel, this`loopError, this`stopRequested, this`healthy
      ensures Coherent() && KernelOk()
      ensures old(waiters).Keys - {fd} <= waiters.Keys
      ensures if loopError.None? then healthy == old(healthy) && stopRequested == old(stopRequested)
              else !healthy && stopRequested
      ensures loopError.Some? ==> loopError.value == fault != 0
      ensures !changed ==> loopError.None? && kernel == old(kernel)
      ensures core.State() == old(core.State())
      ensures kernel.level == old(kernel.level)
    {
      if changed {
        SettleOrFail(fd, fault, before);
      } else {
        EraseIfEmpty(fd);
      }
    }

    /** Visit every slot; `next` is the earliest deadline that is left. */
    method ScanSlots(now: Time, faults: map<int, int>) returns (next: Option<Time>, ghost order: seq<Key>)
      requires Coherent() && KernelOk() && loopError.None?
      modifies this`waiters, this`pending, this`timed, this`kernel, this`loopError, this`stopRequested, this`healthy, core
      ensures Coherent() && KernelOk()
      ensures TimesOut(old(core.State()), core.State(), order)
      ensures loopError.None? ==> ScanDone(old(core.armed), core.armed, next, now)
      ensures NoneDue(old(core.armed), now) ==> loopError.None? && kernel == old(kernel) && order == []
      ensures if loopError.None? then healthy == old(healthy) && stopRequested == old(stopRequested)
              else !healthy && stopRequested
      ensures loopError.Some? ==> IsFault(faults, loopError.value)
      ensures kernel.level == old(kernel.level)
    {
      hide TimesOut, Agrees, LowerBound;
      ghost var s0 := core.State();
      order, next := [], None;
      TimesOutNothing(s0);
      ScanStart(waiters, core.armed, now);
      var rest := waiters.Keys;
      while rest != {}
        invariant rest <= waiters.Keys && Coherent() && KernelOk() && loopError.None?
        invariant healthy == old(healthy) && stopRequested == old(stopRequested)
        invariant TimesOut(s0, core.State(), order)
        invariant Scanned(s0.armed, core.armed, next, old(waiters).Keys - rest, now)
        invariant NoneDue(s0.armed, now) ==> kernel == old(kernel) && order == [] && core.armed == s0.armed
        invariant kernel.level == old(kernel.level)
        decreases rest
      {
        var fd := AnyOf(rest);
        ghost var s1 := core.State();
        NoneDueHere(s1.armed, now, fd);
        var more := ScanSlot(fd, now, FaultAt(faults, fd));
        TimesOutMore(s0, s1, core.State(), order, more);
        order := order + more;
        if loopError.Some? { return; }
        ScanStep(waiters, s0.armed, s1.armed, core.armed, next, old(waiters).Keys, rest, fd, now);
        next := NextWith(next, waiters, fd);
        rest := rest - {fd};
      }
      ScanEnd(old(waiters), s0.armed, core.armed, next, now);
    }

    method CacheDeadline(next: Option<Time>)
      requires Coherent() && KernelOk() && loopError.None? && Earliest(next, core.armed)
      modifies this`nextDeadline, this`dirty
      ensures Valid() && nextDeadline == next
    {
      EarliestIsLowerBound(next, core.armed);
      nextDeadline := next;
      dirty := false;
    }

    /**
     * Time out every wait whose deadline has passed. The cached deadline may let the loop skip the
     * scan; either way exactly the waits are expired that a scan of all slots would expire.
     */
    method ProcessExpiredWaiters(now: Time, faults: map<int, int>) returns (ghost order: seq<Key>)
      requires Valid() && loopError.None?
      modifies this`waiters, this`pending, this`timed, this`kernel, this`loopError, this`stopRequested,
               this`healthy, this`nextDeadline, this`dirty, core
      ensures Valid()
      ensures TimesOut(old(core.State()), core.State(), order)
      ensures loopError.None? ==> ExpiryDone(old(core.armed), core.armed, now)
      ensures NoneDue(old(core.armed), now) ==> loopError.None? && kernel == old(kernel) && order == []
      ensures loopError.None? && old(healthy) ==> healthy && Earliest(nextDeadline, core.armed)
      ensures loopError.None? ==> stopRequested == old(stopRequested)
      ensures loopError.Some? ==> stopRequested && IsFault(faults, loopError.value)
      ensures kernel.level == old(kernel.level)
    {
      order := [];
      if timed == 0 {
        TimesOutNothing(core.State());
        NothingTimed(core.armed, now);
        CacheDeadline(None);
      } else if !dirty && nextDeadline.Some? && now < nextDeadline.value {
        TimesOutNothing(core.State());
        SkipExpiresNothing(nextDeadline.value, core.armed, now);
      } else {
        order := ScanAndCache(now, faults);
      }
    }

    method ScanAndCache(now: Time, faults: map<int, int>) returns (ghost order: seq<Key>)
      requires Coherent() && KernelOk() && loopError.None?
      modifies this`waiters, this`pending, this`timed, this`kernel, this`loopError, this`stopRequested,
               this`healthy, this`nextDeadline, this`dirty, core
      ensures Valid()
      ensures TimesOut(old(core.State()), core.State(), order)
      ensures loopError.None? ==> ExpiryDone(old(core.armed), core.armed, now)
      ensures NoneDue(old(core.armed), now) ==> loopError.None? && kernel == old(kernel) && order == []
      ensures loopError.None? && old(healthy) ==> healthy && Earliest(nextDeadline, core.armed)
      ensures loopError.None? ==> stopRequested == old(stopRequested)
      ensures loopError.Some? ==> stopRequested && IsFault(faults, loopError.value)
      ensures kernel.level == old(kernel.level)
    {
      hide TimesOut, Agrees, LowerBound, NoneDue, Represents, ScanDone, Timed, Earliest, IsFault;
      var next;
      next, order := ScanSlots(now, faults);
      CacheIfDone(next, old(core.armed), now);
    }

    /** A scan that was not cut short leaves an exact cache. */
    method CacheIfDone(next: Option<Time>, ghost all: map<Key, Waiter>, ghost now: Time)
      requires Coherent() && KernelOk() && (loopError.Some? ==> !healthy)
      requires loopError.None? ==> ScanDone(all, core.armed, next, now)
      modifies this`nextDeadline, this`dirty
      ensures Valid()
      ensures loopError.None? ==> ExpiryDone(all, core.armed, now)
      ensures loopError.None? ==> Earliest(nextDeadline, core.armed)
    {
      if loopError.None? {
        CacheDeadline(next);
      }
    }

    /** Enter a wait into its slot, the counters and the deadline cache. */
    method Enter(fd: int, d: Dir, w: Waiter)
      modifies this`waiters, this`pending, this`timed, this`nextDeadline, this`dirty
      ensures waiters == old(waiters)[fd := SlotAt(old(waiters), fd).Put(d, Some(w))]
      ensures pending == old(pending) + 1
      ensures timed == old(timed) + if w.deadline.Some? then 1 else 0
      ensures nextDeadline == Earlier(old(nextDeadline), w.deadline) && dirty
    {
      waiters := waiters[fd := SlotAt(waiters, fd).Put(d, Some(w))];
      if w.deadline.Some? {
        timed := timed + 1;
        if nextDeadline.None? || w.deadline.value < nextDeadline.value {
          nextDeadline := w.deadline;
        }
      }
      dirty := true;
      pending := pending + 1;
    }

    /** Enter a wait into its slot and try to register the mask the slot now needs. */
    method TryEnter(fd: int, d: Dir, w: Waiter, fault: int) returns (r: Status)
      requires KernelOk() && SlotAt(waiters, fd).Reg(d).None? && fd >= 0
      modifies this`waiters, this`pending, this`timed, this`kernel, this`nextDeadline, this`dirty
      ensures dirty && nextDeadline == Earlier(old(nextDeadline), w.deadline)
      ensures pending == old(pending) + 1 && timed == old(timed) + if w.deadline.Some? then 1 else 0
      ensures fd in waiters && waiters == old(waiters)[fd := waiters[fd]]
      ensures waiters[fd] == SlotAt(old(waiters), fd).Put(d, Some(w)).(aux := waiters[fd].aux)
      ensures r.Err? ==> kernel == old(kernel) && waiters[fd].aux == SlotAt(old(waiters), fd).aux
      ensures r == Ok ==> KernelOk()
      ensures r == Ok && healthy ==> OneLegalCall(old(waiters), waiters, old(kernel), kernel, fd)
      ensures ArmAnswer(r, fd, wakeFd, fault, healthy)
      ensures kernel.level == old(kernel.level)
    {
      ghost var t, k := waiters, kernel;
      ghost var filled := SlotAt(t, fd).Put(d, Some(w));
      ArmingAgrees(t, k, inbox, wakeFd, fd, d, filled, fault, healthy);
      UpdateTwice(t, fd, filled, filled.(aux := Desired(filled)));
      Enter(fd, d, w);
      r := RefreshInterest(fd, fault);
    }

    /** Blank the registration that was entered into table `t` and count it out again. */
    method Blank(fd: int, d: Dir, deadline: Option<Time>, ghost t: Table)
      requires Entered(t, fd, d, deadline)
      modifies this`waiters, this`pending, this`timed, this`dirty
      ensures Coherent() && dirty && waiters == t[fd := SlotAt(t, fd)]
    {
      if deadline.Some? && timed > 0 {
        timed := timed - 1;
      }
      Reinsert(t, core.armed, fd);
      UpdateTwice(t, fd, waiters[fd], SlotAt(t, fd));
      waiters := waiters[fd := waiters[fd].Put(d, None)];
      dirty := true;
      if pending > 0 {
        pending := pending - 1;
      }
    }

    /** Erase a slot that is empty because it was made for a wait that was refused. */
    method EraseIfNew(fd: int, ghost t: Table)
      requires Coherent() && waiters == t[fd := SlotAt(t, fd)] && Represents(t, core.armed)
      requires EdgesOk(t)
      modifies this`waiters
      ensures Coherent() && KernelOk() && (healthy ==> waiters == t)
    {
      UndoKeeps(t, core.armed, fd);
      UndoAgrees(t, kernel, inbox, wakeFd, fd, healthy);
      if waiters[fd].Empty() {
        waiters := waiters - {fd};
      }
      assert waiters == Undone(t, fd);
    }

    /** Take back a wait that was entered into table `t` but refused by the kernel. */
    method Withdraw(fd: int, d: Dir, deadline: Option<Time>, ghost t: Table)
      requires Entered(t, fd, d, deadline)
      requires EdgesOk(t)
      requires loopError.Some? ==> !healthy
      modifies this`waiters, this`pending, this`timed, this`dirty
      ensures Valid() && (healthy ==> waiters == t)
    {
      Blank(fd, d, deadline, t);
      EraseIfNew(fd, t);
      assert Coherent();
      assert KernelOk();
    }

    /** The kernel has accepted the wait that was entered into table `t`: its coroutine stays suspended. */
    method Confirm(fd: int, d: Dir, w: Waiter, ghost t: Table)
      requires core.Valid() && Represents(t, core.armed) && Key(fd, d) !in core.armed
      requires fd in waiters && waiters == t[fd := waiters[fd]]
      requires waiters[fd] == SlotAt(t, fd).Put(d, Some(w)).(aux := waiters[fd].aux)
      requires pending == |core.armed| + 1 && timed == |Timed(core.armed)| + if w.deadline.Some? then 1 else 0
      requires LowerBound(nextDeadline, core.armed[Key(fd, d) := w])
      requires w.handle == core.running != NULL_HANDLE
      requires KernelOk() && dirty && (loopError.Some? ==> !healthy)
      modifies core
      ensures Valid()
      ensures Co.CanArm(old(core.State()), Key(fd, d))
      ensures core.State() == Co.Armed(old(core.State()), Key(fd, d), w.deadline, w.timeoutError)
    {
      ArmCounts(core.armed, Key(fd, d), w);
      FillRegistration(t, core.armed, fd, waiters[fd], d);
      core.SuspendOn(Key(fd, d), w.deadline, w.timeoutError);
    }

    /** Enter a wait and register it with the kernel, or leave everything as it was. */
    method Register(fd: int, d: Dir, deadline: Option<Time>, timeoutError: int, fault: int) returns (r: Status)
      requires Valid() && core.running != NULL_HANDLE && Key(fd, d) !in core.armed && fd >= 0
      modifies this`waiters, this`pending, this`timed, this`kernel, this`nextDeadline, this`dirty, core
      ensures ArmAnswer(r, fd, wakeFd, fault, healthy)
      ensures Valid()
      ensures r.Err? ==> core.State() == old(core.State()) && kernel == old(kernel)
      ensures r.Err? && healthy ==> waiters == old(waiters)
      ensures r == Ok ==> Co.CanArm(old(core.State()), Key(fd, d))
      ensures r == Ok ==> core.State() == Co.Armed(old(core.State()), Key(fd, d), deadline, timeoutError)
      ensures r == Ok && healthy ==> OneLegalCall(old(waiters), waiters, old(kernel), kernel, fd)
      ensures kernel.level == old(kernel.level)
    {
      ghost var t := waiters;
      var w := Waiter(core.running, deadline, timeoutError);
      assert RepresentsAt(t, core.armed, fd, d);
      LowerBoundAfterArm(nextDeadline, core.armed, Key(fd, d), w);
      r := TryEnter(fd, d, w, fault);
      if r == Ok {
        Confirm(fd, d, w, t);
      } else {
        Withdraw(fd, d, deadline, t);
      }
    }

    /**
     * `arm_waiter` for the running coroutine `h`: errors leave the abstract scheduler unchanged, a
     * timeout that is not positive is reported without arming, anything else is armed.
     */
    method ArmWaiter(fd: int, h: Handle, d: Dir, timeoutMs: Option<int>, timeoutError: int, now: Time, fault: int)
      returns (r: Status)
      requires Valid() && core.running != NULL_HANDLE && (h != NULL_HANDLE ==> h == core.running)
      modifies this`waiters, this`pending, this`timed, this`kernel, this`nextDeadline, this`dirty, core
      ensures Valid()
      ensures r.Err? ==> core.State() == old(core.State()) && kernel == old(kernel) && (healthy ==> waiters == old(waiters))
      ensures initError.Some? ==> r == Err(initError.value)
      ensures initError.None? && (fd < 0 || h == NULL_HANDLE) ==> r == Err(EBADF)
      ensures var usable := initError.None? && fd >= 0 && h != NULL_HANDLE;
              var key, spent := Key(fd, d), timeoutMs.Some? && timeoutMs.value <= 0;
              && (usable && spent ==> (
                    && r == Ok && old(core.running) in old(core.frames)
                    && Answered(old(core.State()), core.State(), Err(timeoutError))
                    && core.State() == Co.TimedOutAtOnce(old(core.State()), key, timeoutError)))
              && (usable && !spent && key in old(core.armed) ==> r == Err(EBUSY))
              && (usable && !spent && r == Ok ==> (
                    && Co.CanArm(old(core.State()), key)
                    && Suspended(old(core.State()), core.State(), key, timeoutMs, timeoutError, now)
                    && core.State() == Co.Armed(old(core.State()), key, DeadlineOf(timeoutMs, now), timeoutError)
                    && (healthy ==> OneLegalCall(old(waiters), waiters, old(kernel), kernel, fd))))
              && (usable && !spent && key !in old(core.armed) ==> ArmAnswer(r, fd, wakeFd, fault, healthy))
      ensures kernel.level == old(kernel.level)
    {
      if initError.Some? { return Err(initError.value); }
      if fd < 0 || h == NULL_HANDLE { return Err(EBADF); }
      if timeoutMs.Some? && timeoutMs.value <= 0 {
        ghost var s := core.State();
        core.TimeOutAtOnce(Key(fd, d), timeoutError);
        SpentIsAnswered(s, Key(fd, d), timeoutError);
        return Ok;
      }
      assert RepresentsAt(waiters, core.armed, fd, d);
      if fd in waiters && waiters[fd].Reg(d).Some? { return Err(EBUSY); }
      ghost var s := core.State();
      r := Register(fd, d, DeadlineOf(timeoutMs, now), timeoutError, fault);
      if r == Ok { ArmedIsSuspended(s, Key(fd, d), timeoutMs, timeoutError, now); }
    }

    /** Wake the waiter of one direction if the event says that it is ready. */
    method CompleteRegistration(ev: Event, d: Dir) returns (ghost order: seq<Key>)
      requires Coherent() && ev.fd in waiters
      modifies this`waiters, this`pending, this`timed, this`dirty, core
      ensures Coherent()
      ensures ev.fd in waiters && waiters == old(waiters)[ev.fd := waiters[ev.fd]]
      ensures waiters[ev.fd] == Completed(ev, old(waiters[ev.fd]), d)
      ensures BecomesReady(old(core.State()), core.State(), order)
      ensures order == KeyIfReady(ev, old(waiters[ev.fd]), d)
      ensures CacheOk(nextDeadline, old(dirty), old(core.armed)) ==> CacheOk(nextDeadline, dirty, core.armed)
    {
      assert RepresentsAt(waiters, core.armed, ev.fd, d);
      UpdateSame(waiters, ev.fd);
      order := [];
      if Matches(ev, waiters[ev.fd], d) {
        order := [Key(ev.fd, d)];
        CanAlwaysResolve(core.State(), Key(ev.fd, d));
        BecomesReadyOne(core.State(), Key(ev.fd, d));
        DisarmKeepsCache(nextDeadline, dirty, core.armed, Key(ev.fd, d));
        var timedWait := waiters[ev.fd].Reg(d).value.deadline.Some?;
        Release(ev.fd, d, Ok);
        if timedWait {
          dirty := true;
        }
      } else {
        BecomesReadyNothing(core.State());
      }
    }

    method CompleteSlot(ev: Event) returns (ghost order: seq<Key>)
      requires Coherent() && ev.fd in waiters
      modifies this`waiters, this`pending, this`timed, this`dirty, core
      ensures Coherent()
      ensures ev.fd in waiters && waiters == old(waiters)[ev.fd := waiters[ev.fd]]
      ensures waiters[ev.fd] == BothCompleted(ev, old(waiters[ev.fd]))
      ensures BecomesReady(old(core.State()), core.State(), order) && order == ReadyKeys(ev, old(waiters[ev.fd]))
      ensures CacheOk(nextDeadline, old(dirty), old(core.armed)) ==> CacheOk(nextDeadline, dirty, core.armed)
    {
      ghost var s0, t := core.State(), waiters;
      var a := CompleteRegistration(ev, Read);
      ghost var s1, slot := core.State(), waiters[ev.fd];
      var b := CompleteRegistration(ev, Write);
      UpdateTwice(t, ev.fd, slot, waiters[ev.fd]);
      BecomesReadyMore(s0, s1, core.State(), a, b);
      order := a + b;
    }

    /** Serve the waiters that the first event of the inbox concerns. */
    method ServeEvent(ev: Event, fault: int) returns (ghost order: seq<Key>)
      requires Valid() && loopError.None? && inbox != [] && inbox[0] == ev && ev.fd in waiters
      modifies this`waiters, this`pending, this`timed, this`kernel, this`dirty, this`loopError, this`stopRequested,
               this`healthy, core
      ensures Valid()
      ensures healthy ==> NoLostEdge(waiters, kernel, inbox[1..])
      ensures BecomesReady(old(core.State()), core.State(), order) && order == ReadyKeys(ev, old(waiters[ev.fd]))
      ensures if loopError.None? then healthy == old(healthy) && stopRequested == old(stopRequested)
              else !healthy && stopRequested
      ensures loopError.Some? ==> loopError.value == fault != 0
      ensures kernel.level == old(kernel.level)
    {
      hide Woke, LowerBound, Represents, Timed, Agrees, NoLostEdge, CacheOk, Fewer, ReadyKeys, BothCompleted;
      ghost var t := waiters;
      order := CompleteSlot(ev);
      assert healthy ==> CacheOk(nextDeadline, dirty, core.armed);
      SettleServed(ev, fault, t);
    }

    /** The waiters of the first event are served: settle the slot; nothing else needs the event. */
    method SettleServed(ev: Event, fault: int, ghost before: Table)
      requires Coherent() && ev.fd in waiters && ev.fd in before && loopError.None? && EdgesOk(before)
      requires waiters == before[ev.fd := waiters[ev.fd]] && waiters[ev.fd] == BothCompleted(ev, before[ev.fd])
      requires inbox != [] && inbox[0] == ev
      modifies this`waiters, this`kernel, this`loopError, this`stopRequested, this`healthy
      ensures Coherent() && KernelOk() && EdgesOk(waiters)
      ensures healthy ==> NoLostEdge(waiters, kernel, inbox[1..])
      ensures if loopError.None? then healthy == old(healthy) && stopRequested == old(stopRequested)
              else !healthy && stopRequested
      ensures loopError.Some? ==> loopError.value == fault != 0
      ensures kernel.level == old(kernel.level)
    {
      SettleOrFail(ev.fd, fault, before);
      if healthy { ForgetServed(waiters, kernel, inbox, before[ev.fd]); }
    }

    ghost method PopEvent()
      requires Valid() && inbox != [] && (healthy ==> NoLostEdge(waiters, kernel, inbox[1..]))
      modifies this`inbox
      ensures Valid() && inbox == old(inbox)[1..]
    {
      inbox := inbox[1..];
    }

    /**
     * Process the first event of the inbox: every waiter it concerns is told success, the kernel's
     * interest is adjusted, and no other waiter's readiness is forgotten.
     */
    method ProcessReadyEvent(ev: Event, fault: int) returns (ghost order: seq<Key>)
      requires Valid() && loopError.None? && inbox != [] && inbox[0] == ev
      modifies this`waiters, this`pending, this`timed, this`kernel, this`dirty, this`loopError, this`stopRequested,
               this`healthy, this`inbox, core
      ensures Valid() && inbox == old(inbox)[1..]
      ensures BecomesReady(old(core.State()), core.State(), order)
      ensures order == if ev.fd != wakeFd && ev.fd in old(waiters) then ReadyKeys(ev, old(waiters)[ev.fd]) else []
      ensures forall k :: k in order <==> k in old(core.armed) && k.fd == ev.fd != wakeFd && Concerns(ev.events, k.dir)
      ensures if loopError.None? then healthy == old(healthy) && stopRequested == old(stopRequested)
              else !healthy && stopRequested
      ensures loopError.Some? ==> loopError.value == fault != 0
      ensures kernel.level == old(kernel.level)
    {
      hide Woke, LowerBound;
      ghost var t, armed := waiters, core.armed;
      if ev.fd == wakeFd || ev.fd !in waiters {
        order := [];
        assert ev.fd !in waiters ==> forall k :: k in armed && k.fd == ev.fd ==> !RepresentsAt(t, armed, k.fd, k.dir);
        BecomesReadyNothing(core.State());
        if healthy { ForgetEvent(waiters, kernel, inbox); }
      } else {
        order := ServeEvent(ev, fault);
        ReadyKeysAreConcerned(t, armed, ev);
      }
      PopEvent();
    }

    /** The kernel changes the readiness of a descriptor at a moment of its own choosing. */
    method KernelChange(fd: int, level: Mask, poke: bool)
      requires Valid()
      modifies this`kernel
      ensures Valid() && kernel == Change(old(kernel), fd, level, poke)
    {
      if healthy { ChangeKeepsEdges(waiters, kernel, inbox, wakeFd, fd, level, poke); }
      SameInterestSameEnrolment(waiters, kernel, Change(kernel, fd, level, poke));
      kernel := Change(kernel, fd, level, poke);
    }

    /** How long to block: never beyond an armed deadline, for ever only if there is none, and not in vain. */
    method ChooseTimeout(now: Time) returns (limit: Option<int>)
      requires Valid()
      ensures BlocksNoLongerThan(limit, core.armed, now) && BlocksUntil(limit, nextDeadline, now)
    {
      BoundedBlocking(nextDeadline, core.armed, now);
      LimitIsThatOfTheDeadline(nextDeadline, now);
      limit := EpollLimit(nextDeadline, now);
    }

    /** `reactor::wait`: the kernel picks up to 64 descriptors with an event to deliver. */
    method Wait(picks: seq<int>, limit: Option<int>, ghost now: Time) returns (events: seq<Event>)
      requires Valid() && inbox == [] && BlocksNoLongerThan(limit, core.armed, now)
      requires BlocksUntil(limit, nextDeadline, now)
      modifies this`kernel, this`inbox
      ensures Valid() && inbox == events && |events| <= MAX_EVENTS
      ensures Reports(old(kernel), picks, events) && Taken(old(kernel), kernel, events)
    {
      events := [];
      TakeNothing(kernel);
      for i := 0 to |picks|
        invariant Valid() && inbox == events
        invariant Reports(old(kernel), picks[..i], events) && Taken(old(kernel), kernel, events)
      {
        assert picks[..i + 1] == picks[..i] + [picks[i]];
        events := LookAt(picks[i], events, old(kernel), picks[..i]);
      }
      assert picks[..|picks|] == picks;
    }

    /** The kernel looks at one more descriptor and reports its event if it has one and there is room. */
    method LookAt(fd: int, events: seq<Event>, ghost k: Kernel, ghost seen: seq<int>) returns (after: seq<Event>)
      requires Valid() && inbox == events && Reports(k, seen, events) && Taken(k, kernel, events)
      modifies this`kernel, this`inbox
      ensures Valid() && inbox == after && Reports(k, seen + [fd], after) && Taken(k, kernel, after)
    {
      TakeOneMore(k, kernel, seen, events, fd);
      after := events;
      if |events| < MAX_EVENTS && fd in kernel.edges && fd in kernel.interest {
        after := events + [Report(kernel, fd)];
        Deliver(fd);
      }
    }

    /** The kernel hands over the event of one descriptor. */
    method Deliver(fd: int)
      requires Valid() && fd in kernel.interest
      modifies this`kernel, this`inbox
      ensures Valid() && kernel == Delivered(old(kernel), fd) && inbox == old(inbox) + [Report(old(kernel), fd)]
    {
      if healthy { DeliveryKeepsEdges(waiters, kernel, inbox, wakeFd, fd); }
      SameInterestSameEnrolment(waiters, kernel, Delivered(kernel, fd));
      inbox := inbox + [Report(kernel, fd)];
      kernel := Delivered(kernel, fd);
    }

    method Stop()
      modifies this`stopRequested
      ensures stopRequested
    {
      stopRequested := true;
    }

    /** On what terms this loop takes waits: after a failed change of interest it may refuse any. */
    ghost function Offers(): Terms
      reads this`healthy
    {
      Terms(initError.None?, healthy, wakeFd)
    }

    /** One call of the running coroutine into the runtime; a call it could not make is skipped. */
    method Perform(a: Action)
      requires Valid() && core.running != NULL_HANDLE
      modifies this`waiters, this`pending, this`timed, this`kernel, this`nextDeadline, this`dirty, this`stopRequested, core
      ensures Valid() && Performed(old(core.State()), core.State(), a, Offers())
      ensures stopRequested == (old(stopRequested) || a.StopLoop?)
      ensures kernel.level == old(kernel.level)
    {
      match a {
        case WaitFor(fd, d, timeoutMs, e, now, fault) =>
          var _ := ArmWaiter(fd, core.running, d, timeoutMs, e, now, fault);
        case StopLoop =>
          Stop();
        case _ =>
          core.Act(a, Offers());
      }
    }

    /** The running coroutine makes the calls of its script until it suspends; it makes `n` of them. */
    method RunScript(script: seq<Action>) returns (ghost n: nat)
      requires Valid() && core.running != NULL_HANDLE
      modifies this`waiters, this`pending, this`timed, this`kernel, this`nextDeadline, this`dirty, this`stopRequested, core
      ensures Valid() && Leads(old(core.State()), core.State(), 0)
      ensures n <= |script| && After(old(core.State()), core.State(), script, n, Offers())
      ensures core.running != NULL_HANDLE ==> n == |script|
      ensures stopRequested == (old(stopRequested) || StopLoop in script[..n])
      ensures kernel.level == old(kernel.level)
    {
      hide Leads, Performed, LowerBound, Agrees;
      ghost var s0 := core.State();
      LeadsSelf(s0);
      var i := 0;
      while i < |script| && core.running != NULL_HANDLE
        invariant i <= |script| && Valid() && Leads(s0, core.State(), 0)
        invariant After(s0, core.State(), script, i, Offers())
        invariant stopRequested == (old(stopRequested) || StopLoop in script[..i])
        invariant kernel.level == old(kernel.level)
      {
        ghost var s1 := core.State();
        Perform(script[i]);
        PerformedLeads(s1, core.State(), script[i], Offers());
        LeadsOn(s0, s1, core.State(), 0, 0);
        AfterMore(s0, s1, core.State(), script, i, Offers());
        OneMoreCall(script, i, StopLoop);
        i := i + 1;
      }
      n := i;
    }

    /** Resume the front of the queue and let it run until it suspends or returns. */
    method ResumeNext(script: seq<Action>) returns (ghost n: nat)
      requires Valid() && core.running == NULL_HANDLE && core.ready != []
      modifies this`waiters, this`pending, this`timed, this`kernel, this`nextDeadline, this`dirty, this`stopRequested, core
      ensures Valid() && core.running == NULL_HANDLE
      ensures Co.CanResume(old(core.State())) && Leads(Co.Resumed(old(core.State())), core.State(), 0)
      ensures Ran(Co.Resumed(old(core.State())), core.State(), script, n, Offers()) && n <= |script|
      ensures stopRequested == (old(stopRequested) || StopLoop in script[..n])
      ensures kernel.level == old(kernel.level)
    {
      var status := core.ResumeFront();
      ghost var s0 := core.State();
      n := RunScript(script);
      ghost var s1 := core.State();
      if core.running != NULL_HANDLE {
        core.FinishTurn(s0);
      }
      AllOrSuspended(s0, s1, core.State(), script, n, Offers());
    }

    /** What the environment does during one turn: asynchronous readiness changes and calls of stop(). */
    method LetTimePass(t: Turn)
      requires Valid()
      modifies this`kernel, this`stopRequested
      ensures Valid() && stopRequested == (old(stopRequested) || t.stop) && kernel == Changed(old(kernel), t.changes)
      ensures kernel.level == Levels(old(kernel.level), t.changes)
    {
      for i := 0 to |t.changes|
        invariant Valid() && stopRequested == old(stopRequested) && kernel == Changed(old(kernel), t.changes[..i])
      {
        assert t.changes[..i + 1][..i] == t.changes[..i];
        KernelChange(t.changes[i].0, t.changes[i].1, t.changes[i].2);
      }
      assert t.changes[..|t.changes|] == t.changes;
      ChangedLevels(old(kernel), t.changes);
      if t.stop {
        Stop();
      }
    }

    /** Resume the front of the queue and reap finished roots; `ran` is what the coroutine left behind. */
    method ResumeAndReap(script: seq<Action>) returns (ghost ran: Co.Sys, ghost n: nat)
      requires Valid() && core.running == NULL_HANDLE && core.ready != []
      modifies this`waiters, this`pending, this`timed, this`kernel, this`nextDeadline, this`dirty, this`stopRequested, core
      ensures Valid() && core.running == NULL_HANDLE && core.RootsReaped()
      ensures Co.CanResume(old(core.State())) && Leads(Co.Resumed(old(core.State())), core.State(), 0)
      ensures Ran(Co.Resumed(old(core.State())), ran, script, n, Offers()) && n <= |script|
      ensures core.armed == ran.armed && core.ready == ran.ready
      ensures stopRequested == (old(stopRequested) || StopLoop in script[..n])
      ensures kernel.level == old(kernel.level)
    {
      ghost var s0 := core.State();
      var stale := core.FrontIsStale();
      if stale {
        assert false;          // the loop would skip a finished coroutine; there is none to skip
      }
      n := ResumeNext(script);
      ran := core.State();
      Reap();
      LeadsOn(Co.Resumed(s0), ran, core.State(), 0, 0);
    }

    /** Meanwhile time passes; expire what has become due. */
    method ExpireInTurn(t: Turn)
      requires Valid() && loopError.None?
      modifies this`waiters, this`pending, this`timed, this`kernel, this`loopError, this`stopRequested,
               this`healthy, this`nextDeadline, this`dirty, core
      ensures Valid() && core.running == old(core.running)
      ensures loopError.Some? ==> stopRequested && FailsIn(t, loopError.value)
      ensures loopError.None? ==> stopRequested == (old(stopRequested) || t.stop)
      ensures Leads(old(core.State()), core.State(), 0) && old(core.ready) <= core.ready
      ensures loopError.None? ==>
                && ExpiryDone(old(core.armed), core.armed, t.now) && NoneDue(core.armed, t.now)
                && AllTimedOut(old(core.State()), core.State(), t.now)
      ensures KeepsHealth(old(healthy))
      ensures kernel.level == Levels(old(kernel.level), t.changes)
    {
      LetTimePass(t);
      ghost var s := core.State();
      var order := ProcessExpiredWaiters(t.now, t.faults);
      TimesOutLeads(s, core.State(), order);
      if loopError.None? { DueAreTold(s, core.State(), order, t.now); }
    }

    /**
     * One turn of the inner loop of run(): the front of the queue runs its script, then what is due by now
     * times out. `ran` is what the coroutine left behind.
     */
    method ResumeAndExpire(t: Turn) returns (ghost ran: Co.Sys, ghost n: nat)
      requires Valid() && core.running == NULL_HANDLE && core.ready != [] && loopError.None?
      modifies this`waiters, this`pending, this`timed, this`kernel, this`nextDeadline, this`dirty, this`stopRequested,
               this`loopError, this`healthy, core
      ensures Valid() && core.running == NULL_HANDLE
      ensures loopError.Some? ==> stopRequested && FailsIn(t, loopError.value)
      ensures Co.CanResume(old(core.State())) && Leads(Co.Resumed(old(core.State())), core.State(), 0)
      ensures Ran(Co.Resumed(old(core.State())), ran, t.script, n, old(Offers())) && ran.ready <= core.ready
      ensures loopError.None? ==> ExpiryDone(ran.armed, core.armed, t.now) && NoneDue(core.armed, t.now)
      ensures loopError.None? ==> stopRequested == (old(stopRequested) || t.stop || StopLoop in t.script[..n])
      ensures loopError.None? && stopRequested ==> old(stopRequested) || Asks(t)
      ensures KeepsHealth(old(healthy))
      ensures kernel.level == Levels(old(kernel.level), t.changes)
    {
      ghost var s0 := core.State();
      ran, n := ResumeAndReap(t.script);
      ghost var s1 := core.State();
      ExpireInTurn(t);
      LeadsOn(Co.Resumed(s0), s1, core.State(), 0, 0);
      if StopLoop in t.script[..n] { PartOfScript(t.script, n, StopLoop); }
    }

    /** The same, seen from the queue: one coroutine was resumed. */
    method ResumeTurn(t: Turn)
      requires Valid() && core.running == NULL_HANDLE && core.ready != [] && loopError.None?
      modifies this`waiters, this`pending, this`timed, this`kernel, this`nextDeadline, this`dirty, this`stopRequested,
               this`loopError, this`healthy, core
      ensures Valid() && core.running == NULL_HANDLE
      ensures loopError.Some? ==> stopRequested && FailsIn(t, loopError.value)
      ensures Drained(old(core.State()), core.State(), 0, 1)
      ensures loopError.None? ==> NoneDue(core.armed, t.now)
      ensures t.stop ==> stopRequested
      ensures loopError.None? && stopRequested ==> old(stopRequested) || Asks(t)
      ensures KeepsHealth(old(healthy))
      ensures kernel.level == Levels(old(kernel.level), t.changes)
    {
      ghost var s := core.State();
      var _, _ := ResumeAndExpire(t);
      ResumeLeads(s, core.State(), 0);
    }

    method Reap()
      requires Valid()
      modifies core
      ensures Valid() && Leads(old(core.State()), core.State(), 0) && core.RootsReaped()
      ensures core.ready == old(core.ready) && core.running == old(core.running) && core.armed == old(core.armed)
      ensures core.active == old(core.active)
    {
      core.ReapRoots();
    }

    /** The stop flag is set only by an error, or if a turn from i to j asked for it. */
    ghost predicate StopsFor(was: bool, env: seq<Turn>, i: nat, j: nat)
      reads this`loopError, this`stopRequested
    {
      stopRequested && loopError.None? ==> was || AskedIn(env, i, j)
    }

    /**
     * The inner loop of run(): resume what is queued, one coroutine a turn, until nothing is left or the loop
     * has to end. After a turn in which stop() is called it ends at once.
     */
    method DrainReadyQueue(env: seq<Turn>, from: nat) returns (next: nat, ghost at: nat)
      requires Valid() && core.running == NULL_HANDLE && loopError.None? && 0 < from <= |env|
      requires NoneDue(core.armed, env[from - 1].now)
      modifies this`waiters, this`pending, this`timed, this`kernel, this`nextDeadline, this`dirty, this`stopRequested,
               this`loopError, this`healthy, core
      ensures Valid() && core.running == NULL_HANDLE && from <= next <= |env|
      ensures loopError.Some? ==> stopRequested
      ensures ErrorFrom(env)
      ensures core.ready == [] || stopRequested || next == |env|
      ensures Drained(old(core.State()), core.State(), from, next)
      ensures old(core.ready) != [] && !old(stopRequested) && from < |env| ==> next > from
      ensures old(core.ready) == [] ==> next == from
      ensures next == from ==> kernel == old(kernel) && stopRequested == old(stopRequested) && loopError.None?
      ensures at + 1 == next && (loopError.None? ==> NoneDue(core.armed, env[at].now))
      ensures StopsFor(old(stopRequested), env, from, next)
      ensures Quiet(env, from, at)
      ensures KeepsHealth(old(healthy))
      ensures kernel.level == LevelAfter(old(kernel.level), env, from, next)
    {
      hide Leads, NoneDue, LowerBound, Agrees, Represents, FailsIn, Timed, Quiet, AskedIn, LevelAfter, Levels, Drained;
      next, at := from, from - 1;
      NothingDrained(core.State(), from);
      NothingPassed(kernel.level, env, from);
      ghost var s0 := core.State();
      while core.ready != [] && !stopRequested && next < |env|
        invariant Valid() && core.running == NULL_HANDLE && from <= next <= |env|
        invariant loopError.Some? ==> stopRequested
        invariant KeepsHealth(old(healthy))
        invariant ErrorFrom(env)
        invariant Drained(s0, core.State(), from, next) && (if next > from then s0.ready != [] else core.State() == s0)
        invariant next == from ==> stopRequested == old(stopRequested) && kernel == old(kernel) && loopError.None?
        invariant at + 1 == next && (loopError.None? ==> NoneDue(core.armed, env[at].now))
        invariant StopsFor(old(stopRequested), env, from, next)
        invariant Quiet(env, from, at)
        invariant kernel.level == LevelAfter(old(kernel.level), env, from, next)
        invariant next > from && env[at].stop ==> stopRequested
        decreases |env| - next
      {
        ghost var s := core.State();
        QuietMore(env, from, at);
        ResumeTurn(env[next]);
        at := next;
        DrainedMore(s0, s, core.State(), from, next);
        LevelMore(old(kernel.level), env, from, next);
        AskedMore(env, from, next, next + 1);
        next := next + 1;
      }
    }

    /** Process a batch, up to the first loop error: without one, every wait an event is for is told success. */
    method ServeBatch(events: seq<Event>, t: Turn)
      requires Valid() && loopError.None? && inbox == events
      modifies this`waiters, this`pending, this`timed, this`kernel, this`dirty, this`stopRequested,
               this`loopError, this`healthy, this`inbox, core
      ensures Valid() && core.running == old(core.running)
      ensures loopError.Some? ==> stopRequested && FailsIn(t, loopError.value)
      ensures loopError.None? ==> inbox == [] && stopRequested == old(stopRequested)
      ensures loopError.None? ==> Serves(old(core.State()), core.State(), events, wakeFd)
      ensures Leads(old(core.State()), core.State(), 0)
      ensures KeepsHealth(old(healthy))
      ensures kernel.level == old(kernel.level)
    {
      ghost var s0 := core.State();
      ghost var order: seq<Key> := [];
      BecomesReadyNothing(s0);
      var i := 0;
      while i < |events| && loopError.None?
        invariant Valid() && i <= |events| && KeepsHealth(old(healthy))
        invariant loopError.Some? ==> stopRequested && FailsIn(t, loopError.value)
        invariant loopError.None? ==> inbox == events[i..] && stopRequested == old(stopRequested)
        invariant BecomesReady(s0, core.State(), order)
        invariant Wakes(order, s0.armed, events, i, wakeFd) && kernel.level == old(kernel.level)
      {
        order := ServeNext(events, i, FaultAt(t.faults, events[i].fd), s0, order);
        i := i + 1;
      }
      BecomesReadyLeads(s0, core.State(), order);
      if loopError.None? { WokenAreServed(s0, core.State(), order, events, wakeFd); }
    }

    /** Process event i of a batch; `order` are the waits that were ended before, `after` those ended by then. */
    method ServeNext(events: seq<Event>, i: nat, fault: int, ghost s: Co.Sys, ghost order: seq<Key>)
      returns (ghost after: seq<Key>)
      requires Valid() && loopError.None? && i < |events| && inbox == events[i..]
      requires BecomesReady(s, core.State(), order) && Wakes(order, s.armed, events, i, wakeFd)
      modifies this`waiters, this`pending, this`timed, this`kernel, this`dirty, this`stopRequested,
               this`loopError, this`healthy, this`inbox, core
      ensures Valid() && inbox == events[i + 1..]
      ensures if loopError.None? then healthy == old(healthy) && stopRequested == old(stopRequested)
              else stopRequested && loopError.value == fault != 0
      ensures BecomesReady(s, core.State(), after) && Wakes(after, s.armed, events, i + 1, wakeFd)
      ensures kernel.level == old(kernel.level)
    {
      ghost var before := core.State();
      var more := ProcessReadyEvent(events[i], fault);
      BecomesReadyMore(s, before, core.State(), order, more);
      WakesMore(order, more, s.armed, before.armed, events, i, wakeFd);
      after := order + more;
    }

    /**
     * Block for as long as the cached deadline allows, then process what the kernel delivers. Every wait that is
     * ready on a descriptor the kernel looks at ends with success.
     */
    method BlockAndServe(t: Turn) returns (ghost events: seq<Event>)
      requires Valid() && loopError.None? && inbox == []
      modifies this`waiters, this`pending, this`timed, this`kernel, this`dirty, this`stopRequested,
               this`loopError, this`healthy, this`inbox, core
      ensures Valid() && core.running == old(core.running)
      ensures loopError.Some? ==> stopRequested && FailsIn(t, loopError.value)
      ensures loopError.None? ==> inbox == [] && stopRequested == old(stopRequested)
      ensures Reports(old(kernel), t.picks, events)
      ensures loopError.None? ==> Serves(old(core.State()), core.State(), events, wakeFd)
      ensures Leads(old(core.State()), core.State(), 0)
      ensures KeepsHealth(old(healthy))
      ensures kernel.level == old(kernel.level)
    {
      var limit := ChooseTimeout(t.now);
      var batch := Wait(t.picks, limit, t.now);
      events := batch;
      ServeBatch(batch, t);
    }

    /**
     * A wait that is ready when the loop blocks is in the batch the kernel returns, if the kernel looks at its
     * descriptor and the batch is not full.
     */
    lemma ReadyWaitIsReported(picks: seq<int>, events: seq<Event>, k: Key)
      requires Valid() && healthy && inbox == [] && k in core.armed && k.fd in picks
      requires Concerns(Level(kernel, k.fd), k.dir)
      requires Reports(kernel, picks, events) && |events| < 64
      ensures Reported(events, |events|, k) && k.fd != wakeFd
    {
      ReadyMaskConcerns(Level(kernel, k.fd), k.dir);
      ReadyWaitHasAnEvent(k.fd, k.dir);
      assert RepresentsAt(waiters, core.armed, k.fd, k.dir);
      ReadyIsReported(waiters, kernel, wakeFd, picks, events, k.fd, k.dir);
    }

    /** On a healthy loop with no batch in hand, every armed wait that is ready has its event pending. */
    lemma WaitsArePoised()
      requires Valid() && healthy && inbox == []
      ensures Poised(core.armed, kernel)
    {
      forall key ensures PoisedAt(core.armed, kernel, key) {
        if key in core.armed && Concerns(Level(kernel, key.fd), key.dir) {
          ReadyMaskConcerns(Level(kernel, key.fd), key.dir);
          ReadyWaitHasAnEvent(key.fd, key.dir);
          assert RepresentsAt(waiters, core.armed, key.fd, key.dir);
          WatchedIsReported(waiters, kernel, wakeFd, key.fd, key.dir);
        }
      }
    }

    /** The first half of an iteration: expire what is due, then resume what is queued. */
    method ExpireAndDrain(env: seq<Turn>, from: nat) returns (next: nat, ghost at: nat)
      requires Valid() && core.running == NULL_HANDLE && from < |env| && loopError.None?
      modifies this`waiters, this`pending, this`timed, this`kernel, this`nextDeadline, this`dirty, this`stopRequested,
               this`loopError, this`healthy, core
      ensures Valid() && core.running == NULL_HANDLE && from < next <= |env|
      ensures loopError.Some? ==> stopRequested
      ensures ErrorFrom(env)
      ensures core.ready == [] || stopRequested || next == |env|
      ensures Leads(old(core.State()), core.State(), next - from - 1)
      ensures at + 1 == next && (loopError.None? ==> NoneDue(core.armed, env[at].now))
      ensures loopError.None? ==> AllTimedOut(old(core.State()), core.State(), env[from].now)
      ensures old(core.ready) == [] && NoneDue(old(core.armed), env[from].now) ==>
                core.State() == old(core.State()) && kernel == old(kernel) && next == from + 1 &&
                stopRequested == old(stopRequested)
      ensures StopsFor(old(stopRequested), env, from, next)
      ensures KeepsHealth(old(healthy))
      ensures kernel.level == LevelAfter(old(kernel.level), env, from + 1, next)
    {
      hide Leads, LowerBound, Agrees, Represents, NoneDue, AllTimedOut, FailsIn;
      ghost var s0 := core.State();
      ExpireFirst(env[from]);
      ghost var s1 := core.State();
      next, at := from + 1, from;
      if !stopRequested {
        next, at := DrainReadyQueue(env, next);
        AskedMore(env, from, from + 1, next);
        LeadsOn(s0, s1, core.State(), 0, next - from - 1);
        if loopError.None? { TimedOutForGood(s0, s1, core.State(), next - from - 1, env[from].now); }
      }
    }

    /** At the head of an iteration what is due times out. */
    method ExpireFirst(t: Turn)
      requires Valid() && loopError.None?
      modifies this`waiters, this`pending, this`timed, this`kernel, this`nextDeadline, this`dirty, this`stopRequested,
               this`loopError, this`healthy, core
      ensures Valid() && core.running == old(core.running)
      ensures loopError.Some? ==> stopRequested && FailsIn(t, loopError.value)
      ensures loopError.None? ==> stopRequested == old(stopRequested)
      ensures Leads(old(core.State()), core.State(), 0)
      ensures loopError.None? ==>
                NoneDue(core.armed, t.now) && AllTimedOut(old(core.State()), core.State(), t.now)
      ensures NoneDue(old(core.armed), t.now) ==>
                loopError.None? && core.State() == old(core.State()) && kernel == old(kernel)
      ensures KeepsHealth(old(healthy))
      ensures kernel.level == old(kernel.level)
    {
      ghost var s := core.State();
      var order := ProcessExpiredWaiters(t.now, t.faults);
      TimesOutLeads(s, core.State(), order);
      if order == [] { NobodyTimesOut(s, core.State()); }
      if loopError.None? { DueAreTold(s, core.State(), order, t.now); }
    }

    /** The second half, with nothing queued and a waiter armed: block and serve. */
    method BlockTurn(t: Turn) returns (verdict: Verdict, ghost events: seq<Event>)
      requires Valid() && core.running == NULL_HANDLE && loopError.None? && inbox == []
      modifies this`waiters, this`pending, this`timed, this`kernel, this`nextDeadline, this`dirty, this`stopRequested,
               this`loopError, this`healthy, this`inbox, core
      ensures Valid() && core.running == NULL_HANDLE
      ensures loopError.Some? ==> stopRequested && FailsIn(t, loopError.value)
      ensures loopError.None? ==> inbox == []
      ensures verdict == if t.waitError.Some? then Return(Failed(t.waitError.value)) else Again
      ensures verdict != Again ==>
                core.State() == old(core.State()) && stopRequested == old(stopRequested) && loopError.None?
      ensures verdict == Again ==> Reports(old(kernel), t.picks, events)
      ensures verdict == Again && loopError.None? ==>
                && Serves(old(core.State()), core.State(), events, wakeFd)
                && stopRequested == (old(stopRequested) || t.stop)
      ensures Leads(old(core.State()), core.State(), 0)
      ensures KeepsHealth(old(healthy))
      ensures kernel.level == if verdict == Again then Levels(old(kernel.level), t.changes) else old(kernel.level)
    {
      events := [];
      if t.waitError.Some? {
        LeadsSelf(core.State());
        return Return(Failed(t.waitError.value)), events;
      }
      events := BlockAndServe(t);
      LetTimePass(t);
      verdict := Again;
    }

    /** Leave if the work is done, else block; the wait has a turn of its own, with a clock reading of its own. */
    method IdleTurn(env: seq<Turn>, from: nat, ghost at: nat) returns (next: nat, verdict: Verdict, ghost events: seq<Event>)
      requires Valid() && core.running == NULL_HANDLE && core.ready == [] && loopError.None? && inbox == []
      requires at + 1 == from <= |env| && NoneDue(core.armed, env[at].now)
      modifies this`waiters, this`pending, this`timed, this`kernel, this`nextDeadline, this`dirty, this`stopRequested,
               this`loopError, this`healthy, this`inbox, core
      ensures Valid() && core.running == NULL_HANDLE && from <= next <= |env| && next <= from + 1
      ensures loopError.None? ==> NoneDue(core.armed, env[at].now)
      ensures InRun(env)
      ensures Concludes(env, next, verdict)
      ensures verdict != Again ==> core.State() == old(core.State()) && loopError.None?
      ensures verdict == Again ==>
                && next == from + 1
                && WokeUp(Idle(at, old(core.State()), old(kernel), events), env, core.State(), wakeFd, loopError.Some?)
      ensures old(core.armed) != map[] && from < |env| && env[from].waitError.None? ==> verdict == Again
      ensures Leads(old(core.State()), core.State(), 0)
      ensures StopsFor(old(stopRequested), env, from, next)
      ensures KeepsHealth(old(healthy))
      ensures verdict == Again ==> kernel.level == Levels(old(kernel.level), env[from].changes)
    {
      LeadsSelf(core.State());
      next, events := from, [];
      var done := core.NothingLeft(pending);
      if done { return next, Leave, events; }
      if from == |env| { return next, Return(Paused), events; }
      ghost var s := core.State();
      verdict, events := BlockTurn(env[from]);
      if verdict == Again && loopError.None? { StillNoneDue(s, core.State(), events, wakeFd, env[at].now); }
      next := from + 1;
      AskedMore(env, from, from, next);
    }

    /**
     * One iteration of the loop of run(): what is due times out, what is queued is resumed in order, and an idle
     * loop waits and wakes whoever the kernel has an event for; `lap` tells so.
     */
    method Iterate(env: seq<Turn>, from: nat) returns (next: nat, verdict: Verdict, ghost lap: Lap)
      requires Valid() && core.running == NULL_HANDLE && from < |env| && loopError.None? && inbox == []
      modifies this`waiters, this`pending, this`timed, this`kernel, this`nextDeadline, this`dirty, this`stopRequested,
               this`loopError, this`healthy, this`inbox, core
      ensures Valid() && core.running == NULL_HANDLE && from < next <= |env|
      ensures InRun(env)
      ensures Concludes(env, next, verdict)
      ensures LapOk(env, lap, wakeFd)
      ensures lap ==
              Lap(from, old(core.State()), old(kernel), lap.idle, verdict, next, core.State(), kernel, old(healthy),
                  loopError.Some?)
      ensures WouldBlock(old(core.State()), env, from) && !old(stopRequested) ==> verdict == Again
      ensures StopsFor(old(stopRequested), env, from, next)
      ensures KeepsHealth(old(healthy))
    {
      hide Leads, LowerBound, Agrees, Represents, NoneDue, AllTimedOut, WokeUp, Poised, LevelAfter, Levels, Timed, FailsIn;
      ghost var s0, k0 := core.State(), kernel;
      ghost var at, events;
      next, at := ExpireAndDrain(env, from);
      ghost var s1, k1 := core.State(), kernel;
      next, verdict, events := WaitOrLeave(env, next, at);
      AskedMore(env, from, at + 1, next);
      if loopError.None? { TimedOutForGood(s0, s1, core.State(), 0, env[from].now); }
      lap := Lap(from, s0, k0, Idle(at, s1, k1, events), verdict, next, core.State(), kernel, old(healthy), loopError.Some?);
    }

    /** The queue is worked off or the loop has to end: leave, run out of turns, or wait. */
    method WaitOrLeave(env: seq<Turn>, from: nat, ghost at: nat)
      returns (next: nat, verdict: Verdict, ghost events: seq<Event>)
      requires Valid() && core.running == NULL_HANDLE && inbox == [] && at + 1 == from <= |env|
      requires core.ready == [] || stopRequested || from == |env|
      requires if loopError.None? then NoneDue(core.armed, env[at].now) else stopRequested && ErrorFrom(env)
      modifies this`waiters, this`pending, this`timed, this`kernel, this`nextDeadline, this`dirty, this`stopRequested,
               this`loopError, this`healthy, this`inbox, core
      ensures Valid() && core.running == NULL_HANDLE && from <= next <= |env| && next <= from + 1
      ensures InRun(env)
      ensures Concludes(env, next, verdict)
      ensures loopError.None? ==> old(loopError).None? && NoneDue(core.armed, env[at].now)
      ensures verdict == Again ==>
                && next == from + 1
                && WokeUp(Idle(at, old(core.State()), old(kernel), events), env, core.State(), wakeFd, loopError.Some?)
                && kernel.level == Levels(old(kernel.level), env[from].changes)
      ensures verdict == Again && old(healthy) ==> Poised(old(core.armed), old(kernel))
      ensures old(stopRequested) ==> verdict == Leave
      ensures (&& old(core.ready) == [] && !old(stopRequested) && old(core.armed) != map[]
               && from < |env| && env[from].waitError.None?) ==> verdict == Again
      ensures Leads(old(core.State()), core.State(), 0)
      ensures StopsFor(old(stopRequested), env, from, next)
      ensures KeepsHealth(old(healthy))
    {
      hide Leads, LowerBound, Agrees, Represents, NoneDue, WokeUp, Poised;
      LeadsSelf(core.State());
      next, events := from, [];
      if stopRequested {
        verdict := Leave;
      } else if core.ready != [] {
        verdict := Return(Paused);
      } else {
        if healthy { WaitsArePoised(); }
        next, verdict, events := IdleTurn(env, from, at);
      }
    }

    /** run() forgets an earlier stop request, and the error and the batch of an earlier run. */
    method Reset()
      requires Valid()
      modifies this`stopRequested, this`loopError, this`inbox, this`healthy
      ensures Valid() && !stopRequested && loopError.None? && inbox == []
      ensures healthy == (old(healthy) && old(inbox) == [])
    {
      if inbox != [] { healthy := false; }
      stopRequested := false;
      loopError := None;
      inbox := [];
    }

    /** The outer loop of run(). */
    method Loop(env: seq<Turn>) returns (i: nat, verdict: Verdict, ghost resumed: nat, ghost laps: seq<Lap>)
      requires Valid() && core.running == NULL_HANDLE && loopError.None? && !stopRequested && inbox == []
      modifies this`waiters, this`pending, this`timed, this`kernel, this`nextDeadline, this`dirty, this`stopRequested,
               this`loopError, this`healthy, this`inbox, core
      ensures Valid() && core.running == NULL_HANDLE && i <= |env| && Leads(old(core.State()), core.State(), resumed)
      ensures InRun(env) && resumed <= i
      ensures Concludes(env, i, verdict) && (verdict == Again ==> stopRequested)
      ensures StopsFor(false, env, 0, i)
      ensures loopError.None? ==> Begins(old(core.State()), old(kernel), env, core.State(), wakeFd)
      ensures LapsLead(env, laps, old(core.State()), old(kernel), i, core.State(), wakeFd)
      ensures if laps == [] then env == [] else laps[0].healthy == old(healthy)
      ensures KeepsHealth(old(healthy))
    {
      hide Leads, LowerBound, Agrees, Represents, AllTimedOut, LapOk, LapsLead, Begins;
      ghost var s0, k0 := core.State(), kernel;
      LeadsSelf(s0);
      i, verdict, resumed, laps := 0, Again, 0, [];
      NothingBegun(env, s0, k0, wakeFd);
      while !stopRequested && verdict == Again
        invariant Valid() && core.running == NULL_HANDLE && i <= |env| && Leads(s0, core.State(), resumed)
        invariant resumed <= i && (i == 0 ==> core.State() == s0 && kernel == k0 && !stopRequested)
        invariant KeepsHealth(old(healthy))
        invariant InRun(env)
        invariant StopsFor(false, env, 0, i)
        invariant Concludes(env, i, verdict)
        invariant (i > 0 || env == []) && loopError.None? ==> Begins(s0, k0, env, core.State(), wakeFd)
        invariant i == 0 ==> verdict == Again || env == []
        invariant LapsLead(env, laps, s0, k0, i, core.State(), wakeFd) && (laps == [] <==> i == 0)
        invariant if laps == [] then healthy == old(healthy) else laps[0].healthy == old(healthy)
        invariant laps != [] && verdict == Again ==>
                    var last := laps[|laps| - 1];
                    && last.verdict == Again && last.failed == loopError.Some?
                    && last.next == i && last.end == core.State() && last.after == kernel
                    && (last.healthy && !last.failed ==> healthy)
        decreases |env| - i, verdict == Again
      {
        if i == |env| {
          verdict := Return(Paused);
        } else {
          ghost var s, before := core.State(), i;
          ghost var lap;
          i, verdict, lap := Iterate(env, i);
          AskedMore(env, 0, before, i);
          LapLeads(env, lap, wakeFd);
          if loopError.None? { BeginsOn(s0, k0, env, s, lap, wakeFd); }
          LeadsOn(s0, s, core.State(), resumed, lap.idle.at - before);
          LapsLeadOn(env, laps, lap, s0, k0, before, s, wakeFd);
          resumed, laps := resumed + (lap.idle.at - before), laps + [lap];
        }
      }
    }

    /**
     * run() against any environment. It returns normally only when it was stopped or nothing is
     * left to do, the branch that would report EDEADLK is never taken, and every error it returns is the
     * error of the setup or one that the kernel reported in some turn: without a fault, a run never
     * fails. `used` counts the turns, `resumed` the coroutines resumed in them; `laps` tells every iteration, up to
     * the state `end` in which the loop is left.
     */
    method Run(env: seq<Turn>)
      returns (out: Outcome, ghost used: nat, ghost resumed: nat, ghost laps: seq<Lap>, ghost end: Co.Sys)
      requires Valid() && core.running == NULL_HANDLE
      modifies this`waiters, this`pending, this`timed, this`kernel, this`nextDeadline, this`dirty, this`stopRequested,
               this`loopError, this`healthy, this`inbox, core
      ensures Valid() && core.running == NULL_HANDLE && Leads(old(core.State()), core.State(), resumed) && resumed <= used
      ensures initError.Some? ==> out == Failed(initError.value)
      ensures out == Finished ==> loopError.None?
      ensures out.Failed? ==> initError == Some(out.code) || Fails(env, out.code)
      ensures out == Paused ==> used == |env|
      ensures out == Finished && !stopRequested ==>
                core.ready == [] && core.active == 0 && core.armed == map[] && core.roots == []
      ensures out == Finished && !stopRequested ==>
                forall h :: h in core.frames ==> core.frames[h].state.NotStarted? || core.frames[h].state.Destroyed?
      ensures initError.None? && loopError.None? && stopRequested ==> AskedIn(env, 0, used)
      ensures initError.None? && loopError.None? ==> Begins(old(core.State()), old(kernel), env, core.State(), wakeFd)
      ensures initError.None? ==>
                && LapsLead(env, laps, old(core.State()), old(kernel), used, end, wakeFd)
                && if laps == [] then env == [] else laps[0].healthy == (old(healthy) && old(inbox) == [])
      ensures Leads(end, core.State(), 0)
      ensures KeepsHealth(old(healthy) && old(inbox) == [])
    {
      hide Leads, LowerBound, Agrees, Represents, LapsLead, Begins;
      ghost var s0 := core.State();
      LeadsSelf(s0);
      if initError.Some? { return Failed(initError.value), 0, 0, [], s0; }
      Reset();
      var i, verdict;
      i, verdict, resumed, laps := Loop(env);
      used, end := i, core.State();
      LeadsSelf(end);
      if verdict.Return? { return verdict.out, used, resumed, laps, end; }
      Reap();
      LeadsOn(s0, end, core.State(), resumed, 0);
      if loopError.None? { BegunForGood(s0, old(kernel), env, end, core.State(), 0, wakeFd); }
      if !stopRequested { core.NoFrameIsLeft(); }
      out := if loopError.Some? then Failed(loopError.value) else Finished;
    }
  }
}
