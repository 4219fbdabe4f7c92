/**
 * The map from descriptors to registration slots that both loops keep, the abstract set of armed
 * waits it stands for, and the cached earliest deadline. `A` is what a backend adds to a slot:
 * the registered epoll mask, or the io_uring tokens.
 */
module WaiterTable {
  import opened Base

  datatype Slot<A> = Slot(readable: Option<Waiter>, writable: Option<Waiter>, aux: A) {
    function Reg(d: Dir): Option<Waiter> { if d.Read? then readable else writable }

    function Put(d: Dir, r: Option<Waiter>): Slot<A> {
      if d.Read? then this.(readable := r) else this.(writable := r)
    }

    predicate Empty() { readable.None? && writable.None? }
  }

  function Other(d: Dir): Dir { if d.Read? then Write else Read }

  ghost predicate RepresentsAt<A>(t: map<int, Slot<A>>, armed: map<Key, Waiter>, fd: int, d: Dir)
  {
    if fd in t && t[fd].Reg(d).Some? then Key(fd, d) in armed && armed[Key(fd, d)] == t[fd].Reg(d).value
    else Key(fd, d) !in armed
  }

  /** The slot table holds exactly the armed waits. */
  ghost predicate Represents<A>(t: map<int, Slot<A>>, armed: map<Key, Waiter>)
  {
    forall fd, d :: RepresentsAt(t, armed, fd, d)
  }

  /** Filling one registration of one slot arms exactly that wait. */
  lemma FillRegistration<A>(t: map<int, Slot<A>>, armed: map<Key, Waiter>, fd: int, slot: Slot<A>, d: Dir)
    requires Represents(t, armed) && slot.Reg(d).Some?
    requires slot.Reg(Other(d)) == if fd in t then t[fd].Reg(Other(d)) else None
    ensures Represents(t[fd := slot], armed[Key(fd, d) := slot.Reg(d).value])
  {
    var u, after := t[fd := slot], armed[Key(fd, d) := slot.Reg(d).value];
    forall x, e ensures RepresentsAt(u, after, x, e) {
      assert RepresentsAt(t, armed, x, e);
    }
  }

  /** Clearing it disarms exactly that wait. */
  lemma ClearRegistration<A>(t: map<int, Slot<A>>, armed: map<Key, Waiter>, fd: int, d: Dir)
    requires Represents(t, armed) && fd in t
    ensures Represents(t[fd := t[fd].Put(d, None)], armed - {Key(fd, d)})
  {
    var u, after := t[fd := t[fd].Put(d, None)], armed - {Key(fd, d)};
    forall x, e ensures RepresentsAt(u, after, x, e) {
      assert RepresentsAt(t, armed, x, e);
    }
  }

  /** What a backend keeps in a slot is not part of the waits, and neither is an empty slot. */
  lemma RewriteSlot<A>(t: map<int, Slot<A>>, armed: map<Key, Waiter>, fd: int, aux: A)
    requires Represents(t, armed) && fd in t
    ensures Represents(t[fd := t[fd].(aux := aux)], armed)
    ensures t[fd].Empty() ==> Represents(t - {fd}, armed)
  {
    var u := t[fd := t[fd].(aux := aux)];
    forall x, e ensures RepresentsAt(u, armed, x, e) { assert RepresentsAt(t, armed, x, e); }
    if t[fd].Empty() {
      var v := t - {fd};
      forall x, e ensures RepresentsAt(v, armed, x, e) { assert RepresentsAt(t, armed, x, e); }
    }
  }

  lemma UpdateTwice<A>(t: map<int, Slot<A>>, fd: int, a: Slot<A>, b: Slot<A>)
    ensures t[fd := a][fd := b] == t[fd := b]
    ensures t[fd := b] - {fd} == t - {fd}
  {}

  lemma UpdateSame<A>(t: map<int, Slot<A>>, fd: int)
    requires fd in t
    ensures t[fd := t[fd]] == t
  {}

  // ---------------------------------------------------------------- counts

  ghost function Timed(armed: map<Key, Waiter>): set<Key>
  {
    set k | k in armed && armed[k].deadline.Some?
  }

  lemma ArmCounts(armed: map<Key, Waiter>, k: Key, w: Waiter)
    requires k !in armed
    ensures |armed[k := w]| == |armed| + 1
    ensures |Timed(armed[k := w])| == |Timed(armed)| + if w.deadline.Some? then 1 else 0
  {
    assert Timed(armed[k := w]) == Timed(armed) + if w.deadline.Some? then {k} else {};
  }

  lemma DisarmCounts(armed: map<Key, Waiter>, k: Key)
    requires k in armed
    ensures |armed| == |armed - {k}| + 1
    ensures |Timed(armed)| == |Timed(armed - {k})| + if armed[k].deadline.Some? then 1 else 0
  {
    assert armed == (armed - {k})[k := armed[k]];
    ArmCounts(armed - {k}, k, armed[k]);
  }

  // ---------------------------------------------------------------- the deadline cache

  function DeadlineOf(timeoutMs: Option<int>, now: Time): Option<Time>
  {
    if timeoutMs.None? then None else Some(now + timeoutMs.value * NS_PER_MS)
  }

  /** A wait armed at `now` is due T milliseconds later and not before, and never without a timeout. */
  lemma DueWhenTimeIsUp(armed: map<Key, Waiter>, k: Key, timeoutMs: Option<int>, now: Time, later: Time)
    requires k in armed && armed[k].deadline == DeadlineOf(timeoutMs, now)
    ensures k in Expired(armed, later) <==> timeoutMs.Some? && later - now >= timeoutMs.value * NS_PER_MS
  {}

  /** The waits a scan of every slot at time `now` would expire. */
  ghost function Expired(armed: map<Key, Waiter>, now: Time): set<Key>
  {
    set k | k in armed && armed[k].deadline.Some? && armed[k].deadline.value <= now
  }

  ghost predicate NotLater(next: Time, armed: map<Key, Waiter>, k: Key)
  {
    k in armed && armed[k].deadline.Some? ==> next <= armed[k].deadline.value
  }

  ghost predicate AtMostAll(next: Time, armed: map<Key, Waiter>)
  {
    forall k {:trigger NotLater(next, armed, k)} :: NotLater(next, armed, k)
  }

  /** The cached deadline is set while a timed wait is armed, and never later than any deadline. */
  ghost predicate LowerBound(next: Option<Time>, armed: map<Key, Waiter>)
  {
    Timed(armed) != {} ==> next.Some? && AtMostAll(next.value, armed)
  }

  /** The cached deadline is the earliest armed deadline, and is set only if there is one. */
  ghost predicate Earliest(next: Option<Time>, armed: map<Key, Waiter>)
  {
    match next
    case None => Timed(armed) == {}
    case Some(n) => AtMostAll(n, armed) && exists k :: k in Timed(armed) && armed[k].deadline == next
  }

  /** Unless marked dirty, the cache is exact. */
  ghost predicate CacheOk(next: Option<Time>, dirty: bool, armed: map<Key, Waiter>)
  {
    dirty || Earliest(next, armed)
  }

  lemma CachedDeadline(next: Option<Time>, armed: map<Key, Waiter>, k: Key)
    requires LowerBound(next, armed) && k in armed && armed[k].deadline.Some?
    ensures next.Some? && next.value <= armed[k].deadline.value
  {
    assert k in Timed(armed);
    assert NotLater(next.value, armed, k);
  }

  /** Skipping the scan before the cached deadline skips nothing that a full scan would expire. */
  lemma SkipExpiresNothing(next: Time, armed: map<Key, Waiter>, now: Time)
    requires LowerBound(Some(next), armed) && now < next
    ensures ExpiryDone(armed, armed, now)
  {
    forall k | k in armed && armed[k].deadline.Some? ensures k in Timed(armed) && now < armed[k].deadline.value {
      assert k in Timed(armed) && NotLater(next, armed, k);
    }
  }

  function Earlier(a: Option<Time>, b: Option<Time>): Option<Time> {
    if a.None? then b else if b.None? || a.value <= b.value then a else b
  }

  lemma LowerBoundAfterArm(next: Option<Time>, armed: map<Key, Waiter>, k: Key, w: Waiter)
    requires LowerBound(next, armed) && k !in armed
    ensures LowerBound(Earlier(next, w.deadline), armed[k := w]) && LowerBound(Earlier(next, w.deadline), armed)
  {
    var after, n := armed[k := w], Earlier(next, w.deadline);
    forall j | n.Some? ensures NotLater(n.value, after, j) && NotLater(n.value, armed, j) {
      if j in armed && armed[j].deadline.Some? { assert j in Timed(armed) && NotLater(next.value, armed, j); }
    }
    forall j | j in Timed(after) && j != k ensures j in Timed(armed) {}
  }

  lemma LowerBoundAfterDisarm(next: Option<Time>, armed: map<Key, Waiter>, ks: set<Key>)
    requires LowerBound(next, armed)
    ensures LowerBound(next, armed - ks)
  {
    assert Timed(armed - ks) <= Timed(armed);
    var left := armed - ks;
    forall j | next.Some? && Timed(left) != {} ensures NotLater(next.value, left, j) {
      assert NotLater(next.value, armed, j);
    }
  }

  // ---------------------------------------------------------------- scanning slot by slot

  ghost function On(armed: map<Key, Waiter>, fds: set<int>): map<Key, Waiter>
  {
    map k | k in armed && k.fd in fds :: armed[k]
  }

  function Deadline(r: Option<Waiter>): Option<Time> { if r.None? then None else r.value.deadline }

  function NextWith<A>(next: Option<Time>, t: map<int, Slot<A>>, fd: int): Option<Time>
  {
    if fd in t then Earlier(Earlier(next, Deadline(t[fd].readable)), Deadline(t[fd].writable)) else next
  }

  /** Folding the deadlines of one more slot into the earliest deadline seen so far. */
  lemma ScanOneMore<A>(next: Option<Time>, t: map<int, Slot<A>>, armed: map<Key, Waiter>, seen: set<int>, fd: int)
    requires Represents(t, armed) && fd !in seen && Earliest(next, On(armed, seen))
    ensures Earliest(NextWith(next, t, fd), On(armed, seen + {fd}))
  {
    var before, after := On(armed, seen), On(armed, seen + {fd});
    assert RepresentsAt(t, armed, fd, Read) && RepresentsAt(t, armed, fd, Write);
    forall k | k in Timed(before) ensures k in Timed(after) && after[k] == before[k] && NotLater(next.value, before, k) {}
    forall k | k in Timed(after) ensures k in Timed(before) || k == Key(fd, Read) || k == Key(fd, Write) {
      if k.fd in seen { assert k in before; } else if k.dir.Read? {} else {}
    }
    if fd in t {
      if Deadline(t[fd].readable).Some? { assert Key(fd, Read) in Timed(after); }
      if Deadline(t[fd].writable).Some? { assert Key(fd, Write) in Timed(after); }
    }
    var n := NextWith(next, t, fd);
    forall k | n.Some? ensures NotLater(n.value, after, k) {
      if k in after && after[k].deadline.Some? { assert k in Timed(after); }
    }
  }

  predicate Due(r: Option<Waiter>, now: Time)
  {
    r.Some? && r.value.deadline.Some? && now >= r.value.deadline.value
  }

  /** A slot once the registrations that are due have been timed out. */
  function Cleared<A>(slot: Slot<A>, now: Time): Slot<A>
  {
    Slot(if Due(slot.readable, now) then None else slot.readable,
         if Due(slot.writable, now) then None else slot.writable, slot.aux)
  }

  ghost function ExpiredOn(armed: map<Key, Waiter>, now: Time, fds: set<int>): set<Key>
  {
    set k | k in Expired(armed, now) && k.fd in fds
  }

  /** Expiring one slot after those already seen is expiring all of them. */
  lemma ExpireOneMore(all: map<Key, Waiter>, now: Time, seen: set<int>, fd: int)
    requires fd !in seen
    ensures var left := all - ExpiredOn(all, now, seen);
            left - ExpiredOn(left, now, {fd}) == all - ExpiredOn(all, now, seen + {fd})
    ensures On(all - ExpiredOn(all, now, seen + {fd}), seen) == On(all - ExpiredOn(all, now, seen), seen)
  {
    var left := all - ExpiredOn(all, now, seen);
    assert ExpiredOn(all, now, seen + {fd}) == ExpiredOn(all, now, seen) + ExpiredOn(left, now, {fd});
  }

  /** The two directions of a slot, expired one after the other. */
  lemma ExpireBoth(armed: map<Key, Waiter>, now: Time, fd: int, r: bool, w: bool)
    requires r <==> Key(fd, Read) in Expired(armed, now)
    requires w <==> Key(fd, Write) in Expired(armed - (if r then {Key(fd, Read)} else {}), now)
    ensures armed - (if r then {Key(fd, Read)} else {}) - (if w then {Key(fd, Write)} else {}) ==
            armed - ExpiredOn(armed, now, {fd})
  {
    forall k | k in ExpiredOn(armed, now, {fd}) ensures k == Key(fd, Read) || k == Key(fd, Write) {
      if k.dir.Read? {} else {}
    }
  }

  lemma NothingTimed(armed: map<Key, Waiter>, now: Time)
    requires Timed(armed) == {}
    ensures ExpiryDone(armed, armed, now) && Earliest(None, armed)
  {
    assert Expired(armed, now) <= Timed(armed);
  }

  /** The next entry of an unordered map may be any of those not visited yet. */
  method AnyOf<T>(s: set<T>) returns (x: T)
    requires s != {}
    ensures x in s
  {
    x :| x in s;
  }

  /**
   * The state of a scan that has visited the slots `seen`: what was due there is gone, and `next`
   * is the earliest deadline left there.
   */
  ghost predicate Scanned(all: map<Key, Waiter>, left: map<Key, Waiter>, next: Option<Time>, seen: set<int>, now: Time)
  {
    left == all - ExpiredOn(all, now, seen) && Earliest(next, On(left, seen))
  }

  lemma ScanStart<A>(t: map<int, Slot<A>>, all: map<Key, Waiter>, now: Time)
    ensures Scanned(all, all, None, t.Keys - t.Keys, now)
  {
    assert t.Keys - t.Keys == {};
    assert ExpiredOn(all, now, {}) == {};
  }

  /** Slot `fd`, one of those not visited yet, has been expired and its deadlines folded into `next`. */
  lemma ScanStep<A>(t: map<int, Slot<A>>, all: map<Key, Waiter>, before: map<Key, Waiter>, left: map<Key, Waiter>,
                    next: Option<Time>, fds: set<int>, rest: set<int>, fd: int, now: Time)
    requires fd in rest && rest <= fds && Scanned(all, before, next, fds - rest, now)
    requires Represents(t, left) && left == before - ExpiredOn(before, now, {fd})
    ensures Scanned(all, left, NextWith(next, t, fd), fds - (rest - {fd}), now)
  {
    var seen := fds - rest;
    assert fds - (rest - {fd}) == seen + {fd};
    ExpireOneMore(all, now, seen, fd);
    ScanOneMore(next, t, left, seen, fd);
  }

  /** Exactly the waits that a scan of all slots would expire are gone, and nothing due is left. */
  ghost predicate ExpiryDone(all: map<Key, Waiter>, left: map<Key, Waiter>, now: Time)
  {
    left == all - Expired(all, now) && Expired(left, now) == {}
  }

  /** No armed wait is due. */
  ghost predicate NoneDue(armed: map<Key, Waiter>, now: Time)
  {
    |Expired(armed, now)| == 0
  }

  lemma NoneDueHere(armed: map<Key, Waiter>, now: Time, fd: int)
    ensures NoneDue(armed, now) ==> NoneDueOn(armed, now, fd) && armed - ExpiredOn(armed, now, {fd}) == armed
  {}

  ghost predicate NoneDueOn(armed: map<Key, Waiter>, now: Time, fd: int)
  {
    Key(fd, Read) !in Expired(armed, now) && Key(fd, Write) !in Expired(armed, now)
  }

  lemma NoneDueAnyMore(all: map<Key, Waiter>, left: map<Key, Waiter>, now: Time)
    requires ExpiryDone(all, left, now)
    ensures NoneDue(left, now)
  {}

  ghost predicate ScanDone(all: map<Key, Waiter>, left: map<Key, Waiter>, next: Option<Time>, now: Time)
  {
    ExpiryDone(all, left, now) && Earliest(next, left)
  }

  /** Once every slot has been seen, the scan is complete. */
  lemma ScanEnd<A>(t: map<int, Slot<A>>, all: map<Key, Waiter>, left: map<Key, Waiter>, next: Option<Time>, now: Time)
    requires Represents(t, all) && Scanned(all, left, next, t.Keys - {}, now)
    ensures ScanDone(all, left, next, now)
  {
    assert t.Keys - {} == t.Keys;
    forall k | k in all ensures k.fd in t { assert RepresentsAt(t, all, k.fd, k.dir); }
    assert ExpiredOn(all, now, t.Keys) == Expired(all, now);
    assert On(left, t.Keys) == left;
  }

  lemma EarliestIsLowerBound(next: Option<Time>, armed: map<Key, Waiter>)
    requires Earliest(next, armed)
    ensures LowerBound(next, armed)
  {}

  /** Disarming a wait keeps the cache exact unless the wait had a deadline; then the cache must be marked dirty. */
  lemma DisarmKeepsCache(next: Option<Time>, dirty: bool, armed: map<Key, Waiter>, k: Key)
    requires k in armed
    ensures CacheOk(next, dirty, armed) ==> CacheOk(next, dirty || armed[k].deadline.Some?, armed - {k})
  {
    if CacheOk(next, dirty, armed) && !dirty && armed[k].deadline.None? {
      var left := armed - {k};
      assert Timed(left) == Timed(armed);
      forall j | next.Some? ensures NotLater(next.value, left, j) { assert NotLater(next.value, armed, j); }
    }
  }
}
