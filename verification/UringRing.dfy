/**
 * An io_uring instance as the loop uses it: a submission queue of bounded depth, one-shot polls
 * outstanding in the kernel, and a completion queue. `Poll` records what is polled
 * and which arming queued it; the loop never reads it from a completion, it lets us say whose completion
 * a completion is.
 */
module UringRing {
  import opened Base

  const TOKEN_LIMIT: nat := 0x1_0000_0000_0000_0000

  /** What is polled, and for which arming. */
  datatype Poll = Poll(fd: int, dir: Dir, arm: nat)
  const NO_POLL := Poll(-1, Read, 0)

  datatype Sqe = PollAdd(token: nat, poll: Poll) | PollRemove(target: nat)
  datatype Cqe = Cqe(token: nat, result: int, poll: Poll)

  datatype Ring = Ring(depth: nat, sq: seq<Sqe>, polls: map<nat, Poll>, cq: seq<Cqe>)

  /** The kernel takes one submission. Removing a poll cancels it; both requests get a completion. */
  function Take(r: Ring, e: Sqe): (s: Ring)
    ensures r.cq <= s.cq
  {
    match e
    case PollAdd(token, poll) => r.(polls := r.polls[token := poll])
    case PollRemove(t) =>
      if t in r.polls then
        r.(polls := r.polls - {t}, cq := r.cq + [Cqe(t, -ECANCELED, r.polls[t]), Cqe(0, 0, NO_POLL)])
      else r.(cq := r.cq + [Cqe(0, -ENOENT, NO_POLL)])
  }

  /** A successful submit takes the whole queue, in order. */
  function Submitted(r: Ring): (s: Ring)
    ensures s.sq == [] && s.depth == r.depth && r.cq <= s.cq
    decreases |r.sq|
  {
    if r.sq == [] then r else Submitted(Take(r.(sq := r.sq[1..]), r.sq[0]))
  }

  lemma SubmitOne(r: Ring, e: Sqe)
    requires r.sq == [e]
    ensures Submitted(r) == Take(r.(sq := []), e)
  {
    assert r.sq[1..] == [];
    assert Submitted(r) == Submitted(Take(r.(sq := []), e));
  }

  /** Queue an entry, submitting the full queue first. */
  function Pushed(r: Ring, e: Sqe): (s: Ring)
    ensures r.cq <= s.cq
  {
    if |r.sq| < r.depth then r.(sq := r.sq + [e]) else Submitted(r).(sq := [e])
  }

  /** A poll fires, or fails, and is gone. */
  function Fired(r: Ring, token: nat, result: int): Ring
    requires token in r.polls
  {
    r.(polls := r.polls - {token}, cq := r.cq + [Cqe(token, result, r.polls[token])])
  }

  // ---------------------------------------------------------------- where polls are

  /** The tokens in use and the poll each of them stands for. */
  type Arms = map<nat, Poll>

  /** The token was handed out before `next`, and if it is in use, for this very poll. */
  predicate Fresh(arms: Arms, next: nat, token: nat, poll: Poll)
  {
    token < next && (token in arms ==> arms[token] == poll)
  }

  predicate SqeOk(arms: Arms, next: nat, e: Sqe)
  {
    match e
    case PollAdd(token, poll) => Fresh(arms, next, token, poll)
    case PollRemove(t) => t < next && t !in arms
  }

  ghost predicate ArmAt(arms: Arms, next: nat, t: nat) { t in arms ==> 0 < t < next }

  ghost predicate SqeAt(arms: Arms, next: nat, q: seq<Sqe>, i: int) { 0 <= i < |q| ==> SqeOk(arms, next, q[i]) }

  ghost predicate PollAt(arms: Arms, next: nat, polls: map<nat, Poll>, t: nat) { t in polls ==> Fresh(arms, next, t, polls[t]) }

  ghost predicate CqeAt(arms: Arms, next: nat, q: seq<Cqe>, i: int)
  {
    0 <= i < |q| ==> Fresh(arms, next, q[i].token, q[i].poll)
  }

  ghost predicate SqOk(arms: Arms, next: nat, q: seq<Sqe>)
  {
    forall i {:trigger SqeAt(arms, next, q, i)} :: SqeAt(arms, next, q, i)
  }

  ghost predicate PollsFresh(arms: Arms, next: nat, polls: map<nat, Poll>)
  {
    forall t {:trigger PollAt(arms, next, polls, t)} :: PollAt(arms, next, polls, t)
  }

  ghost predicate CqOk(arms: Arms, next: nat, q: seq<Cqe>)
  {
    forall i {:trigger CqeAt(arms, next, q, i)} :: CqeAt(arms, next, q, i)
  }

  /** Nothing in the ring carries a token that belongs to somebody else. */
  ghost predicate RingOk(r: Ring, box: seq<Cqe>, arms: Arms, next: nat)
  {
    && next > 0 && (forall t {:trigger ArmAt(arms, next, t)} :: ArmAt(arms, next, t))
    && SqOk(arms, next, r.sq) && PollsFresh(arms, next, r.polls) && CqOk(arms, next, r.cq) && CqOk(arms, next, box)
  }

  lemma SqAppend(arms: Arms, next: nat, q: seq<Sqe>, e: Sqe)
    requires SqOk(arms, next, q) && SqeOk(arms, next, e)
    ensures SqOk(arms, next, q + [e])
  {
    forall i ensures SqeAt(arms, next, q + [e], i) { assert SqeAt(arms, next, q, i); }
  }

  lemma SqTail(arms: Arms, next: nat, q: seq<Sqe>)
    requires SqOk(arms, next, q) && q != []
    ensures SqOk(arms, next, q[1..]) && SqeOk(arms, next, q[0])
  {
    assert SqeAt(arms, next, q, 0);
    forall i ensures SqeAt(arms, next, q[1..], i) { assert SqeAt(arms, next, q, i + 1); }
  }

  lemma CqAppend(arms: Arms, next: nat, q: seq<Cqe>, c: Cqe)
    requires CqOk(arms, next, q) && Fresh(arms, next, c.token, c.poll)
    ensures CqOk(arms, next, q + [c])
  {
    forall i ensures CqeAt(arms, next, q + [c], i) { assert CqeAt(arms, next, q, i); }
  }

  lemma CqSlice(arms: Arms, next: nat, q: seq<Cqe>, lo: nat, hi: nat)
    requires CqOk(arms, next, q) && lo <= hi <= |q|
    ensures CqOk(arms, next, q[lo..hi])
  {
    forall i ensures CqeAt(arms, next, q[lo..hi], i) { assert CqeAt(arms, next, q, lo + i); }
  }

  /** The ring is as good for fewer tokens, or later numbers, or one new token that nothing carries. */
  lemma OtherOwners(r: Ring, box: seq<Cqe>, arms: Arms, next: nat, others: Arms, later: nat)
    requires RingOk(r, box, arms, next) && next <= later
    requires forall t :: t in others ==> 0 < t < later && (t >= next || (t in arms && others[t] == arms[t]))
    ensures RingOk(r, box, others, later)
  {
    forall t: nat ensures ArmAt(others, later, t) {}
    forall i ensures SqeAt(others, later, r.sq, i) { assert SqeAt(arms, next, r.sq, i); }
    forall t: nat ensures PollAt(others, later, r.polls, t) { assert PollAt(arms, next, r.polls, t); }
    forall i ensures CqeAt(others, later, r.cq, i) { assert CqeAt(arms, next, r.cq, i); }
    forall i ensures CqeAt(others, later, box, i) { assert CqeAt(arms, next, box, i); }
  }

  predicate Queued(q: seq<Sqe>, token: nat) { exists i :: 0 <= i < |q| && q[i].PollAdd? && q[i].token == token }

  predicate Completed(q: seq<Cqe>, token: nat) { exists i :: 0 <= i < |q| && q[i].token == token }

  /** The poll of `token` is somewhere between the loop and its completion. */
  predicate Pending(r: Ring, box: seq<Cqe>, token: nat)
  {
    Queued(r.sq, token) || token in r.polls || Completed(r.cq, token) || Completed(box, token)
  }

  /** And it is this poll, on this descriptor and direction. */
  predicate PendingAs(r: Ring, box: seq<Cqe>, token: nat, poll: Poll)
  {
    || PollAdd(token, poll) in r.sq
    || (token in r.polls && r.polls[token] == poll)
    || (exists i :: 0 <= i < |r.cq| && r.cq[i].token == token && r.cq[i].poll == poll)
    || (exists i :: 0 <= i < |box| && box[i].token == token && box[i].poll == poll)
  }

  lemma PendingIsOwn(r: Ring, box: seq<Cqe>, arms: Arms, next: nat, token: nat)
    requires RingOk(r, box, arms, next) && token in arms && Pending(r, box, token)
    ensures PendingAs(r, box, token, arms[token])
  {
    if i :| 0 <= i < |r.sq| && r.sq[i].PollAdd? && r.sq[i].token == token { assert SqeAt(arms, next, r.sq, i); }
    assert PollAt(arms, next, r.polls, token);
    if i :| 0 <= i < |r.cq| && r.cq[i].token == token { assert CqeAt(arms, next, r.cq, i); }
    if i :| 0 <= i < |box| && box[i].token == token { assert CqeAt(arms, next, box, i); }
  }

  /** The polls of these tokens are all pending. */
  ghost predicate NoneStranded(r: Ring, box: seq<Cqe>, live: set<nat>)
  {
    forall token {:trigger Pending(r, box, token)} :: token in live ==> Pending(r, box, token)
  }

  lemma CompletedAppend(a: seq<Cqe>, b: seq<Cqe>, token: nat)
    ensures Completed(a + b, token) <==> Completed(a, token) || Completed(b, token)
  {
    if i :| 0 <= i < |a| && a[i].token == token { assert (a + b)[i].token == token; }
    if i :| 0 <= i < |b| && b[i].token == token { assert (a + b)[|a| + i].token == token; }
  }

  lemma QueuedAppend(a: seq<Sqe>, b: seq<Sqe>, token: nat)
    ensures Queued(a + b, token) <==> Queued(a, token) || Queued(b, token)
  {
    if i :| 0 <= i < |a| && a[i].PollAdd? && a[i].token == token { assert (a + b)[i].token == token; }
    if i :| 0 <= i < |b| && b[i].PollAdd? && b[i].token == token { assert (a + b)[|a| + i].token == token; }
  }

  lemma TakeRing(r: Ring, box: seq<Cqe>, arms: Arms, next: nat)
    requires RingOk(r, box, arms, next) && r.sq != []
    ensures RingOk(Take(r.(sq := r.sq[1..]), r.sq[0]), box, arms, next)
  {
    SqTail(arms, next, r.sq);
    match r.sq[0]
    case PollAdd(token, poll) =>
      var polls := r.polls[token := poll];
      forall t: nat ensures PollAt(arms, next, polls, t) { assert PollAt(arms, next, r.polls, t); }
    case PollRemove(target) =>
      assert ArmAt(arms, next, 0);
      if target in r.polls {
        var c := Cqe(target, -ECANCELED, r.polls[target]);
        var polls := r.polls - {target};
        assert PollAt(arms, next, r.polls, target);
        forall t: nat ensures PollAt(arms, next, polls, t) { assert PollAt(arms, next, r.polls, t); }
        CqAppend(arms, next, r.cq, c);
        CqAppend(arms, next, r.cq + [c], Cqe(0, 0, NO_POLL));
        assert r.cq + [c, Cqe(0, 0, NO_POLL)] == r.cq + [c] + [Cqe(0, 0, NO_POLL)];
      } else {
        CqAppend(arms, next, r.cq, Cqe(0, -ENOENT, NO_POLL));
      }
  }

  lemma TakeKeeps(r: Ring, box: seq<Cqe>, live: set<nat>)
    requires NoneStranded(r, box, live) && r.sq != []
    ensures NoneStranded(Take(r.(sq := r.sq[1..]), r.sq[0]), box, live)
  {
    var s := Take(r.(sq := r.sq[1..]), r.sq[0]);
    forall token | token in live ensures Pending(s, box, token) {
      assert Pending(r, box, token);
      assert r.sq == [r.sq[0]] + r.sq[1..];
      QueuedAppend([r.sq[0]], r.sq[1..], token);
      if s.cq != r.cq { CompletedAppend(r.cq, s.cq[|r.cq|..], token); assert s.cq == r.cq + s.cq[|r.cq|..]; }
      if r.sq[0] == PollRemove(token) && token in r.polls { assert s.cq[|r.cq|].token == token; }
    }
  }

  /** Submitting loses no poll and mixes up no tokens. */
  lemma {:induction false} SubmitKeeps(r: Ring, box: seq<Cqe>, arms: Arms, next: nat, live: set<nat>)
    requires RingOk(r, box, arms, next) && NoneStranded(r, box, live)
    ensures RingOk(Submitted(r), box, arms, next) && NoneStranded(Submitted(r), box, live)
    decreases |r.sq|
  {
    if r.sq != [] {
      TakeRing(r, box, arms, next);
      TakeKeeps(r, box, live);
      SubmitKeeps(Take(r.(sq := r.sq[1..]), r.sq[0]), box, arms, next, live);
    }
  }

  /** A poll submitted last is outstanding afterwards. */
  lemma {:induction false} LastIsOutstanding(r: Ring, e: Sqe)
    requires e.PollAdd? && r.sq != [] && r.sq[|r.sq| - 1] == e
    ensures e.token in Submitted(r).polls && Submitted(r).polls[e.token] == e.poll
    decreases |r.sq|
  {
    var rest := Take(r.(sq := r.sq[1..]), r.sq[0]);
    assert rest.sq == r.sq[1..];
    if |r.sq| > 1 { LastIsOutstanding(rest, e); }
  }

  lemma PushedIsPending(r: Ring, e: Sqe)
    requires e.PollAdd?
    ensures Pending(Pushed(r, e), [], e.token)
    ensures Pushed(r, e).sq != [] && Pushed(r, e).sq[|Pushed(r, e).sq| - 1] == e
  {
    var q := Pushed(r, e).sq;
    assert q[|q| - 1] == e;
  }

  /** Queueing an acceptable entry, whether or not the queue had to be submitted first. */
  lemma PushKeeps(r: Ring, box: seq<Cqe>, arms: Arms, next: nat, live: set<nat>, e: Sqe)
    requires RingOk(r, box, arms, next) && NoneStranded(r, box, live)
    requires SqeOk(arms, next, e)
    ensures RingOk(Pushed(r, e), box, arms, next) && NoneStranded(Pushed(r, e), box, live)
  {
    SubmitKeeps(r, box, arms, next, live);
    var m := if |r.sq| < r.depth then r else Submitted(r);
    var s := Pushed(r, e);
    assert s.sq == m.sq + [e];
    SqAppend(arms, next, m.sq, e);
    forall token | token in live ensures Pending(s, box, token) {
      assert Pending(m, box, token);
      QueuedAppend(m.sq, [e], token);
    }
  }

  /** A new arming with a token nobody has used: its poll is queued and everything else stays owned. */
  lemma ArmKeeps(r: Ring, box: seq<Cqe>, arms: Arms, next: nat, live: set<nat>, e: Sqe)
    requires RingOk(r, box, arms, next) && NoneStranded(r, box, live)
    requires e.PollAdd? && next <= e.token
    ensures RingOk(Pushed(r, e), box, arms[e.token := e.poll], e.token + 1)
    ensures NoneStranded(Pushed(r, e), box, live + {e.token})
  {
    var s := Pushed(r, e);
    SubmitKeeps(r, box, arms, next, live);
    var m := if |r.sq| < r.depth then r else Submitted(r);
    assert s.sq == m.sq + [e];
    forall t | t in arms ensures 0 < t < next { assert ArmAt(arms, next, t); }
    OtherOwners(m, box, arms, next, arms[e.token := e.poll], e.token + 1);
    SqAppend(arms[e.token := e.poll], e.token + 1, m.sq, e);
    forall token | token in live + {e.token} ensures Pending(s, box, token) {
      QueuedAppend(m.sq, [e], token);
      if token == e.token { assert Queued([e], token) by { assert [e][0] == e; } } else { assert Pending(m, box, token); }
    }
  }

  /** Giving up a token: what still carries it is from now on nobody's. */
  lemma ReleaseKeeps(r: Ring, box: seq<Cqe>, arms: Arms, next: nat, token: nat)
    requires RingOk(r, box, arms, next)
    ensures RingOk(r, box, arms - {token}, next)
  {
    forall t | t in arms ensures 0 < t < next { assert ArmAt(arms, next, t); }
    OtherOwners(r, box, arms, next, arms - {token}, next);
  }

  lemma FewerStranded(r: Ring, box: seq<Cqe>, live: set<nat>, fewer: set<nat>)
    requires NoneStranded(r, box, live) && fewer <= live
    ensures NoneStranded(r, box, fewer)
  {
    forall t | t in fewer ensures Pending(r, box, t) {}
  }

  lemma FireKeeps(r: Ring, box: seq<Cqe>, arms: Arms, next: nat, live: set<nat>, token: nat, result: int)
    requires RingOk(r, box, arms, next) && NoneStranded(r, box, live) && token in r.polls
    ensures RingOk(Fired(r, token, result), box, arms, next) && NoneStranded(Fired(r, token, result), box, live)
  {
    var s := Fired(r, token, result);
    assert PollAt(arms, next, r.polls, token);
    CqAppend(arms, next, r.cq, Cqe(token, result, r.polls[token]));
    forall t: nat ensures PollAt(arms, next, s.polls, t) { assert PollAt(arms, next, r.polls, t); }
    forall t | t in live ensures Pending(s, box, t) {
      assert Pending(r, box, t);
      CompletedAppend(r.cq, [Cqe(token, result, r.polls[token])], t);
      if t == token { assert s.cq[|r.cq|].token == t; }
    }
  }

  /** The loop collects the first `n` completions. */
  lemma CollectKeeps(r: Ring, arms: Arms, next: nat, live: set<nat>, n: nat)
    requires RingOk(r, [], arms, next) && NoneStranded(r, [], live) && n <= |r.cq|
    ensures RingOk(r.(cq := r.cq[n..]), r.cq[..n], arms, next) && NoneStranded(r.(cq := r.cq[n..]), r.cq[..n], live)
  {
    var s := r.(cq := r.cq[n..]);
    CqSlice(arms, next, r.cq, 0, n);
    CqSlice(arms, next, r.cq, n, |r.cq|);
    assert r.cq[0..n] == r.cq[..n] && r.cq[n..|r.cq|] == r.cq[n..];
    forall t | t in live ensures Pending(s, r.cq[..n], t) {
      assert Pending(r, [], t);
      assert r.cq == r.cq[..n] + r.cq[n..];
      CompletedAppend(r.cq[..n], r.cq[n..], t);
    }
  }

  /** The completion at the head of the inbox is done with, unless its poll would be lost with it. */
  lemma ForgetKeeps(r: Ring, box: seq<Cqe>, arms: Arms, next: nat, live: set<nat>)
    requires RingOk(r, box, arms, next) && NoneStranded(r, box, live) && box != []
    requires box[0].token in live ==> Pending(r, box[1..], box[0].token)
    ensures RingOk(r, box[1..], arms, next) && NoneStranded(r, box[1..], live)
  {
    CqSlice(arms, next, box, 1, |box|);
    assert box[1..|box|] == box[1..];
    forall t | t in live ensures Pending(r, box[1..], t) {
      assert Pending(r, box, t);
      assert box == [box[0]] + box[1..];
      CompletedAppend([box[0]], box[1..], t);
    }
  }

  function BatchTokens(box: seq<Cqe>): set<nat> { set i | 0 <= i < |box| :: box[i].token }

  lemma CompletedIsInBatch(box: seq<Cqe>, token: nat)
    ensures Completed(box, token) ==> token in BatchTokens(box)
  {
    if i :| 0 <= i < |box| && box[i].token == token { assert box[i].token in BatchTokens(box); }
  }

  ghost predicate BelowAt(tokens: set<nat>, next: nat, t: nat) { t in tokens ==> t < next }

  ghost predicate Below(tokens: set<nat>, next: nat)
  {
    forall t {:trigger BelowAt(tokens, next, t)} :: BelowAt(tokens, next, t)
  }

  lemma BelowMore(a: set<nat>, b: set<nat>, next: nat)
    requires Below(a, next) && Below(b, next)
    ensures Below(a + b, next)
  {
    forall t: nat ensures BelowAt(a + b, next, t) { assert BelowAt(a, next, t) && BelowAt(b, next, t); }
  }

  lemma BelowLater(a: set<nat>, next: nat, later: nat)
    requires Below(a, next) && next <= later
    ensures Below(a, later)
  {
    forall t: nat ensures BelowAt(a, later, t) { assert BelowAt(a, next, t); }
  }

  lemma BelowOne(a: set<nat>, t: nat, next: nat)
    requires Below(a, next) && t < next
    ensures Below(a + {t}, next)
  {
    forall x: nat ensures BelowAt(a + {t}, next, x) { assert BelowAt(a, next, x); }
  }

  lemma BelowFewer(a: set<nat>, b: set<nat>, next: nat)
    requires Below(a, next) && b <= a
    ensures Below(b, next)
  {
    forall t: nat ensures BelowAt(b, next, t) { assert BelowAt(a, next, t); }
  }

  /** Dropping a whole batch strands at most the polls it completes. */
  lemma DropBatch(r: Ring, box: seq<Cqe>, arms: Arms, next: nat, live: set<nat>)
    requires RingOk(r, box, arms, next) && NoneStranded(r, box, live)
    ensures RingOk(r, [], arms, next) && NoneStranded(r, [], live - BatchTokens(box)) && Below(BatchTokens(box), next)
  {
    forall i ensures CqeAt(arms, next, [], i) {}
    forall t: nat ensures BelowAt(BatchTokens(box), next, t) {
      if i :| 0 <= i < |box| && box[i].token == t { assert CqeAt(arms, next, box, i); }
    }
    forall t | t in live - BatchTokens(box) ensures Pending(r, [], t) {
      assert Pending(r, box, t);
      CompletedIsInBatch(box, t);
    }
  }

  lemma LaterIsFine(r: Ring, box: seq<Cqe>, arms: Arms, next: nat, later: nat)
    requires RingOk(r, box, arms, next) && next <= later
    ensures RingOk(r, box, arms, later)
  {
    forall t | t in arms ensures 0 < t < next { assert ArmAt(arms, next, t); }
    OtherOwners(r, box, arms, next, arms, later);
  }

  /** A token that has not been handed out yet is on nothing in the ring: no stale completion can carry it. */
  lemma NewTokenIsUnseen(r: Ring, box: seq<Cqe>, arms: Arms, next: nat, token: nat)
    requires RingOk(r, box, arms, next) && next <= token
    ensures !Pending(r, box, token) && token !in arms
    ensures forall i :: 0 <= i < |r.sq| ==> r.sq[i] != PollRemove(token)
  {
    assert ArmAt(arms, next, token) && PollAt(arms, next, r.polls, token);
    forall i | 0 <= i < |r.sq| ensures r.sq[i] != PollRemove(token) && !(r.sq[i].PollAdd? && r.sq[i].token == token) {
      assert SqeAt(arms, next, r.sq, i);
    }
    forall i | 0 <= i < |r.cq| ensures r.cq[i].token != token { assert CqeAt(arms, next, r.cq, i); }
    forall i | 0 <= i < |box| ensures box[i].token != token { assert CqeAt(arms, next, box, i); }
  }
}
