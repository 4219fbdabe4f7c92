/** The io_uring event loop. */
module UringLoop {
  import opened Base
  import opened WaiterTable
  import opened UringRing
  import opened SchedulerCore
  import opened CoroutineTheorems
  import Inv = CoroutineInvariant
  import opened Blocking
  import opened Program
  import Co = Coroutines

  const MAX_COMPLETIONS := 64

  /** A slot keeps the token of the poll of each armed direction, 0 if there is none. */
  datatype Tokens = Tokens(read: nat, write: nat)
  type Table = map<int, Slot<Tokens>>
  type Inflight = map<nat, Key>

  function TokenOf(slot: Slot<Tokens>, d: Dir): nat { if d.Read? then slot.aux.read else slot.aux.write }

  function Fill(slot: Slot<Tokens>, d: Dir, r: Option<Waiter>, token: nat): Slot<Tokens>
  {
    slot.Put(d, r).(aux := if d.Read? then slot.aux.(read := token) else slot.aux.(write := token))
  }

  function SlotAt(t: Table, fd: int): Slot<Tokens> { if fd in t then t[fd] else Slot(None, None, Tokens(0, 0)) }

  // ---------------------------------------------------------------- tokens and registrations

  ghost predicate HasToken(t: Table, inflight: Inflight, fd: int, d: Dir)
  {
    fd in t && t[fd].Reg(d).Some? ==> TokenOf(t[fd], d) in inflight && inflight[TokenOf(t[fd], d)] == Key(fd, d)
  }

  ghost predicate HasOwner(t: Table, inflight: Inflight, token: nat)
  {
    token in inflight ==>
      && 0 < token < TOKEN_LIMIT && inflight[token].fd in t
      && t[inflight[token].fd].Reg(inflight[token].dir).Some?
      && TokenOf(t[inflight[token].fd], inflight[token].dir) == token
  }

  /** In-flight tokens and armed registrations are in bijection. */
  ghost predicate TokensOk(t: Table, inflight: Inflight)
  {
    && (forall fd, d {:trigger HasToken(t, inflight, fd, d)} :: HasToken(t, inflight, fd, d))
    && (forall token {:trigger HasOwner(t, inflight, token)} :: HasOwner(t, inflight, token))
  }

  lemma FillKeepsTokens(t: Table, inflight: Inflight, fd: int, d: Dir, w: Waiter, token: nat)
    requires TokensOk(t, inflight) && SlotAt(t, fd).Reg(d).None? && token !in inflight && 0 < token < TOKEN_LIMIT
    ensures TokensOk(t[fd := Fill(SlotAt(t, fd), d, Some(w), token)], inflight[token := Key(fd, d)])
  {
    var u, after := t[fd := Fill(SlotAt(t, fd), d, Some(w), token)], inflight[token := Key(fd, d)];
    forall x, e ensures HasToken(u, after, x, e) { assert HasToken(t, inflight, x, e); }
    forall x ensures HasOwner(u, after, x) { assert HasOwner(t, inflight, x); }
  }

  lemma ClearKeepsTokens(t: Table, inflight: Inflight, fd: int, d: Dir)
    requires TokensOk(t, inflight) && fd in t && t[fd].Reg(d).Some?
    ensures TokensOk(t[fd := Fill(t[fd], d, None, 0)], inflight - {TokenOf(t[fd], d)})
  {
    var u, after := t[fd := Fill(t[fd], d, None, 0)], inflight - {TokenOf(t[fd], d)};
    assert HasToken(t, inflight, fd, d);
    forall x, e ensures HasToken(u, after, x, e) {
      assert HasToken(t, inflight, x, e);
    }
    forall x ensures HasOwner(u, after, x) { assert HasOwner(t, inflight, x); }
  }

  lemma ClearFilled(t: Table, armed: map<Key, Waiter>, fd: int, d: Dir)
    requires Represents(t, armed) && fd in t
    ensures Represents(t[fd := Fill(t[fd], d, None, 0)], armed - {Key(fd, d)})
  {
    var u, after := t[fd := Fill(t[fd], d, None, 0)], armed - {Key(fd, d)};
    forall x, e ensures RepresentsAt(u, after, x, e) { assert RepresentsAt(t, armed, x, e); }
  }

  /** Filling a registration and blanking it again stands for the same waits and tokens. */
  lemma BlankKeeps(t: Table, armed: map<Key, Waiter>, inflight: Inflight, fd: int, d: Dir)
    requires Represents(t, armed) && TokensOk(t, inflight) && SlotAt(t, fd).Reg(d).None?
    ensures var u := t[fd := Fill(SlotAt(t, fd), d, None, 0)];
            Represents(u, armed) && TokensOk(u, inflight)
  {
    var u := t[fd := Fill(SlotAt(t, fd), d, None, 0)];
    forall x, e ensures RepresentsAt(u, armed, x, e) { assert RepresentsAt(t, armed, x, e); }
    forall x, e ensures HasToken(u, inflight, x, e) { assert HasToken(t, inflight, x, e); }
    forall x ensures HasOwner(u, inflight, x) { assert HasOwner(t, inflight, x); }
  }

  lemma EraseKeepsTokens(t: Table, inflight: Inflight, fd: int)
    requires TokensOk(t, inflight) && fd in t && t[fd].Empty()
    ensures TokensOk(t - {fd}, inflight)
  {
    var u := t - {fd};
    forall x, e ensures HasToken(u, inflight, x, e) { assert HasToken(t, inflight, x, e); }
    forall x ensures HasOwner(u, inflight, x) { assert HasOwner(t, inflight, x); }
  }

  // ---------------------------------------------------------------- handing out tokens

  /** How far `t` is ahead of `from` when counting up and wrapping at 2^64. */
  function Ahead(from: nat, t: nat): int { if t >= from then t - from else t - from + TOKEN_LIMIT }

  /** `token` is the first non-zero value, counting up from `from`, that is not in flight. */
  ghost predicate FirstFree(from: nat, token: nat, used: set<nat>)
  {
    0 < token < TOKEN_LIMIT && token !in used && AllUsed(from, token, used)
  }

  /** Every non-zero value from `from` up to `token`, exclusive, is used. */
  ghost predicate AllUsed(from: nat, token: nat, used: set<nat>)
  {
    forall t {:trigger Ahead(from, t)} :: 0 < t < TOKEN_LIMIT && Ahead(from, t) < Ahead(from, token) ==> t in used
  }

  function Successor(t: nat): nat { if t + 1 == TOKEN_LIMIT then 1 else t + 1 }

  /** Counting on from `t` passes no other non-zero value and does not overshoot a value still ahead. */
  lemma StepAhead(from: nat, t: nat, free: nat, used: set<nat>)
    requires 0 < from < TOKEN_LIMIT && 0 < t < TOKEN_LIMIT && 0 < free < TOKEN_LIMIT
    requires Ahead(from, t) <= Ahead(from, free) && free !in used && AllUsed(from, t, used)
    ensures (t + 1) % TOKEN_LIMIT == if t + 1 == TOKEN_LIMIT then 0 else t + 1
    ensures t in used ==>
              && Ahead(from, t) < Ahead(from, Successor(t)) <= Ahead(from, free)
              && (Successor(t) < from <==> t < from || t + 1 == TOKEN_LIMIT)
              && AllUsed(from, Successor(t), used)
  {
    if t in used {
      forall x | 0 < x < TOKEN_LIMIT && Ahead(from, x) < Ahead(from, Successor(t)) ensures x in used {
        assert x == t || Ahead(from, x) < Ahead(from, t);
      }
    }
  }

  /** With fewer than n values used, one of 1..n is free. */
  lemma {:induction false} FreeToken(used: set<nat>, n: nat) returns (free: nat)
    requires |used| < n
    ensures 0 < free <= n && free !in used
  {
    if n !in used {
      free := n;
    } else {
      free := FreeToken(used - {n}, n - 1);
    }
  }

  /** While no token in flight lies at or beyond `from`, the search ends where it starts. */
  lemma FirstIsFree(from: nat, token: nat, used: set<nat>)
    requires 0 < from < TOKEN_LIMIT && from !in used && FirstFree(from, token, used)
    ensures token == from
  {
    assert Ahead(from, from) == 0;
  }

  /**
   * The tokens in use are those in flight and the wake token, each for the poll of its own descriptor and
   * direction.
   */
  ghost predicate Owned(arms: Arms, inflight: Inflight, wakeToken: nat, wakeFd: int)
  {
    && wakeToken in arms && arms[wakeToken] == Poll(wakeFd, Read, 0) && wakeToken !in inflight
    && forall t {:trigger OwnedAt(arms, inflight, wakeToken, t)} :: OwnedAt(arms, inflight, wakeToken, t)
  }

  ghost predicate OwnedAt(arms: Arms, inflight: Inflight, wakeToken: nat, t: nat)
  {
    && (t in arms <==> t in inflight || t == wakeToken)
    && (t in arms && t in inflight ==> Key(arms[t].fd, arms[t].dir) == inflight[t])
  }

  lemma OwnMore(arms: Arms, inflight: Inflight, wakeToken: nat, wakeFd: int, token: nat, poll: Poll)
    requires Owned(arms, inflight, wakeToken, wakeFd) && token !in arms
    ensures Owned(arms[token := poll], inflight[token := Key(poll.fd, poll.dir)], wakeToken, wakeFd)
  {
    var a, f := arms[token := poll], inflight[token := Key(poll.fd, poll.dir)];
    forall t: nat ensures OwnedAt(a, f, wakeToken, t) { assert OwnedAt(arms, inflight, wakeToken, t); }
  }

  lemma OwnFewer(arms: Arms, inflight: Inflight, wakeToken: nat, wakeFd: int, token: nat)
    requires Owned(arms, inflight, wakeToken, wakeFd) && token in inflight
    ensures Owned(arms - {token}, inflight - {token}, wakeToken, wakeFd)
  {
    var a, f := arms - {token}, inflight - {token};
    forall t: nat ensures OwnedAt(a, f, wakeToken, t) { assert OwnedAt(arms, inflight, wakeToken, t); }
  }

  /** A request for this poll was queued under this token. */
  predicate Polled(before: Ring, after: Ring, token: nat, poll: Poll) { after == Pushed(before, PollAdd(token, poll)) }

  /** Fewer than n different tokens lie below n. */
  lemma {:induction false} FewTokens(used: set<nat>, n: nat)
    requires forall t :: t in used ==> 0 < t < n
    ensures n > 0 ==> |used| < n
    ensures n == 0 ==> used == {}
  {
    if n > 1 {
      FewTokens(used - {n - 1}, n - 1);
      assert used - {n - 1} == used || used == used - {n - 1} + {n - 1};
    } else {
      assert used == {};
    }
  }

  /** While the counter has not wrapped there is always a token to be had. */
  lemma TokensAreLeft(arms: Arms, inflight: Inflight, wakeToken: nat, wakeFd: int, r: Ring, box: seq<Cqe>, next: nat)
    requires RingOk(r, box, arms, next) && Owned(arms, inflight, wakeToken, wakeFd)
    ensures |inflight| < next
  {
    forall t | t in inflight.Keys ensures 0 < t < next {
      assert OwnedAt(arms, inflight, wakeToken, t) && ArmAt(arms, next, t);
    }
    FewTokens(inflight.Keys, next);
    assert |inflight| == |inflight.Keys|;
  }

  /** Does a completion with this token resolve an armed wait? */
  predicate Meant(token: nat, wakeToken: nat, inflight: Inflight)
  {
    token != 0 && token != wakeToken && token in inflight
  }

  /**
   * A completion that is meant for an armed wait ends it: the token is given up and the coroutine queued with
   * success, or with the errno that a negative result stands for. Any other completion changes nothing.
   */
  ghost predicate Processed(c: Cqe, wakeToken: nat, s: Co.Sys, t: Co.Sys, held: Inflight, left: Inflight)
  {
    if Meant(c.token, wakeToken, held) then
      var key := held[c.token];
      && left == held - {c.token} && Co.CanResolve(s, key)
      && t == Co.Resolved(s, key, if c.result >= 0 then Ok else Err(-c.result))
      && var h := s.armed[key].handle;
         && t.ready == s.ready + [h] && t.armed == s.armed - {key} && h in t.results
         && (c.result >= 0 ==> t.results[h] == Ok) && (c.result < 0 ==> t.results[h] == Err(-c.result))
    else t == s && left == held
  }

  lemma NotProcessed(c: Cqe, wakeToken: nat, s: Co.Sys, held: Inflight)
    requires !Meant(c.token, wakeToken, held)
    ensures Processed(c, wakeToken, s, s, held, held)
  {}

  /** Whom a completion wakes, and what it tells them. */
  function Resolves(c: Cqe, wakeToken: nat, held: Inflight): seq<Key>
  {
    if Meant(c.token, wakeToken, held) then [held[c.token]] else []
  }

  function Outcomes(c: Cqe, wakeToken: nat, held: Inflight): seq<Status>
  {
    if Meant(c.token, wakeToken, held) then [if c.result >= 0 then Ok else Err(-c.result)] else []
  }

  lemma ProcessedWakes(c: Cqe, wakeToken: nat, s: Co.Sys, t: Co.Sys, held: Inflight, left: Inflight)
    requires Reachable(s) && Processed(c, wakeToken, s, t, held, left)
    ensures Woke(s, t, Resolves(c, wakeToken, held), Outcomes(c, wakeToken, held))
  {
    if Meant(c.token, wakeToken, held) {
      WokeOne(s, held[c.token], if c.result >= 0 then Ok else Err(-c.result));
    } else {
      WokeNothing(s);
    }
  }

  // ---------------------------------------------------------------- a batch of completions

  /** This completion is the first of the batch with its token, and the token is in flight for `k`. */
  ghost predicate Speaks(cs: seq<Cqe>, i: int, wakeToken: nat, held: Inflight, k: Key)
  {
    && 0 <= i < |cs| && Meant(cs[i].token, wakeToken, held) && held[cs[i].token] == k
    && !Seen(cs, i, cs[i].token)
  }

  ghost predicate Seen(cs: seq<Cqe>, n: int, token: nat)
  {
    exists j :: 0 <= j < n <= |cs| && cs[j].token == token
  }

  ghost predicate AnswerAt(cs: seq<Cqe>, n: int, held: Inflight, wakeToken: nat, order: seq<Key>, statuses: seq<Status>,
                           j: int)
  {
    0 <= j < |order| == |statuses| ==>
      exists i :: 0 <= i < n && Speaks(cs, i, wakeToken, held, order[j]) &&
        statuses[j] == if cs[i].result >= 0 then Ok else Err(-cs[i].result)
  }

  ghost predicate SpokenAt(cs: seq<Cqe>, n: int, held: Inflight, wakeToken: nat, order: seq<Key>, i: int)
  {
    0 <= i < n <= |cs| && Meant(cs[i].token, wakeToken, held) ==> held[cs[i].token] in order
  }

  ghost predicate LeftAt(cs: seq<Cqe>, n: int, held: Inflight, left: Inflight, wakeToken: nat, t: nat)
  {
    t != 0 && t != wakeToken ==>
      (t in left <==> t in held && !Seen(cs, n, t)) && (t in left ==> left[t] == held[t])
  }

  /** After n completions: who was told what, and which tokens are left. */
  ghost predicate Answers(cs: seq<Cqe>, n: int, held: Inflight, left: Inflight, wakeToken: nat, order: seq<Key>,
                          statuses: seq<Status>)
  {
    && |order| == |statuses|
    && (forall j {:trigger AnswerAt(cs, n, held, wakeToken, order, statuses, j)} ::
          AnswerAt(cs, n, held, wakeToken, order, statuses, j))
    && (forall i {:trigger SpokenAt(cs, n, held, wakeToken, order, i)} :: SpokenAt(cs, n, held, wakeToken, order, i))
    && (forall t {:trigger LeftAt(cs, n, held, left, wakeToken, t)} :: LeftAt(cs, n, held, left, wakeToken, t))
  }

  lemma AnswersNothing(cs: seq<Cqe>, held: Inflight, wakeToken: nat)
    ensures Answers(cs, 0, held, held, wakeToken, [], [])
  {}

  lemma SeenMore(cs: seq<Cqe>, n: nat, token: nat)
    requires n < |cs|
    ensures Seen(cs, n + 1, token) <==> Seen(cs, n, token) || cs[n].token == token
  {
    if j :| 0 <= j < n + 1 && cs[j].token == token { if j < n { assert Seen(cs, n, token); } }
  }

  lemma AnswersMore(cs: seq<Cqe>, n: nat, held: Inflight, left: Inflight, after: Inflight, wakeToken: nat,
                    order: seq<Key>, statuses: seq<Status>, s: Co.Sys, t: Co.Sys)
    requires n < |cs| && Answers(cs, n, held, left, wakeToken, order, statuses)
    requires Processed(cs[n], wakeToken, s, t, left, after)
    ensures Answers(cs, n + 1, held, after, wakeToken,
                    order + Resolves(cs[n], wakeToken, left), statuses + Outcomes(cs[n], wakeToken, left))
  {
    var next := n + 1;
    var told, news := order + Resolves(cs[n], wakeToken, left), statuses + Outcomes(cs[n], wakeToken, left);
    assert LeftAt(cs, n, held, left, wakeToken, cs[n].token);
    forall j ensures AnswerAt(cs, next, held, wakeToken, told, news, j) {
      if 0 <= j < |order| {
        assert AnswerAt(cs, n, held, wakeToken, order, statuses, j);
        assert told[j] == order[j] && news[j] == statuses[j];
      } else if |order| <= j < |told| {
        assert Speaks(cs, n, wakeToken, held, told[j]);
      }
    }
    forall i ensures SpokenAt(cs, next, held, wakeToken, told, i) {
      assert SpokenAt(cs, n, held, wakeToken, order, i);
      if i == n && Meant(cs[n].token, wakeToken, held) && Seen(cs, n, cs[n].token) {
        var j :| 0 <= j < n && cs[j].token == cs[n].token;
        assert SpokenAt(cs, n, held, wakeToken, order, j);
      }
    }
    forall x: nat ensures LeftAt(cs, next, held, after, wakeToken, x) {
      assert LeftAt(cs, n, held, left, wakeToken, x);
      SeenMore(cs, n, x);
    }
  }

  /** No two tokens are in flight for one wait. */
  lemma OneToken(table: Table, held: Inflight, a: nat, b: nat)
    requires TokensOk(table, held) && a in held && b in held && held[a] == held[b]
    ensures a == b
  {
    assert HasOwner(table, held, a) && HasOwner(table, held, b);
  }

  lemma OneFirst(cs: seq<Cqe>, i: int, j: int)
    requires 0 <= i < |cs| && 0 <= j < |cs| && cs[i].token == cs[j].token
    requires !Seen(cs, i, cs[i].token) && !Seen(cs, j, cs[j].token)
    ensures i == j
  {}

  /** The wait that this completion speaks for is over, and its coroutine is queued and told the outcome of the poll. */
  ghost predicate ServedAt(s: Co.Sys, t: Co.Sys, held: Inflight, cs: seq<Cqe>, wakeToken: nat, i: int)
  {
    0 <= i < |cs| && Meant(cs[i].token, wakeToken, held) && !Seen(cs, i, cs[i].token) ==>
      var k := held[cs[i].token];
      && k in s.armed && k !in t.armed
      && var h := s.armed[k].handle;
         && h in t.ready && h in t.results
         && (cs[i].result >= 0 ==> t.results[h] == Ok && Told(s, t, k, Ok))
         && (cs[i].result < 0 ==> t.results[h] == Err(-cs[i].result) && Told(s, t, k, Err(-cs[i].result)))
  }

  /** A wait that no completion of the batch speaks for stays armed. */
  ghost predicate SparedAt(s: Co.Sys, t: Co.Sys, held: Inflight, cs: seq<Cqe>, wakeToken: nat, k: Key)
  {
    k in s.armed ==> (k in t.armed && t.armed[k] == s.armed[k]) || exists i :: Speaks(cs, i, wakeToken, held, k)
  }

  ghost predicate Serves(s: Co.Sys, t: Co.Sys, held: Inflight, cs: seq<Cqe>, wakeToken: nat)
  {
    && (forall i {:trigger ServedAt(s, t, held, cs, wakeToken, i)} :: ServedAt(s, t, held, cs, wakeToken, i))
    && (forall k {:trigger SparedAt(s, t, held, cs, wakeToken, k)} :: SparedAt(s, t, held, cs, wakeToken, k))
    && (forall k :: k in t.armed ==> k in s.armed && t.armed[k] == s.armed[k]) && s.ready <= t.ready
  }

  /** What the batch says about the wait woken at place j of the order is what the j-th status says. */
  lemma WokenIsServed(s: Co.Sys, t: Co.Sys, table: Table, held: Inflight, left: Inflight, cs: seq<Cqe>, wakeToken: nat,
                      order: seq<Key>, statuses: seq<Status>, i: int)
    requires Reachable(s) && Reachable(t) && Woke(s, t, order, statuses) && TokensOk(table, held)
    requires Answers(cs, |cs|, held, left, wakeToken, order, statuses)
    ensures ServedAt(s, t, held, cs, wakeToken, i)
  {
    if 0 <= i < |cs| && Meant(cs[i].token, wakeToken, held) && !Seen(cs, i, cs[i].token) {
      var k := held[cs[i].token];
      assert SpokenAt(cs, |cs|, held, wakeToken, order, i);
      var j :| 0 <= j < |order| && order[j] == k;
      assert AnswerAt(cs, |cs|, held, wakeToken, order, statuses, j);
      var m :| 0 <= m < |cs| && Speaks(cs, m, wakeToken, held, k) &&
               statuses[j] == if cs[m].result >= 0 then Ok else Err(-cs[m].result);
      OneToken(table, held, cs[i].token, cs[m].token);
      OneFirst(cs, i, m);
      assert WokenAt(s, t, order, statuses, j);
      WokeTells(s, t, order, statuses, j);
      assert Handles(s.armed, order)[j] == s.armed[k].handle;
      assert t.ready[|s.ready| + j] == s.armed[k].handle;
    }
  }

  lemma AnsweredAreServed(s: Co.Sys, t: Co.Sys, table: Table, held: Inflight, left: Inflight, cs: seq<Cqe>, wakeToken: nat,
                          order: seq<Key>, statuses: seq<Status>)
    requires Reachable(s) && Reachable(t) && Woke(s, t, order, statuses) && TokensOk(table, held)
    requires Answers(cs, |cs|, held, left, wakeToken, order, statuses)
    ensures Serves(s, t, held, cs, wakeToken)
  {
    forall i ensures ServedAt(s, t, held, cs, wakeToken, i) {
      WokenIsServed(s, t, table, held, left, cs, wakeToken, order, statuses, i);
    }
    forall k ensures SparedAt(s, t, held, cs, wakeToken, k) {
      if k in order {
        var j :| 0 <= j < |order| && order[j] == k;
        assert AnswerAt(cs, |cs|, held, wakeToken, order, statuses, j);
      }
    }
  }

  lemma SameRunning(s: Co.Sys, t: Co.Sys, order: seq<Key>, statuses: seq<Status>)
    requires Woke(s, t, order, statuses)
    ensures t.running == s.running
  {}

  /** What a wait returns: the oldest completions, all of them if no more than asked for and no more than 64. */
  predicate Collected(r: Ring, n: nat, cs: seq<Cqe>)
  {
    cs <= r.cq && |cs| <= 64 && |cs| <= n && (|cs| < 64 && |cs| < n ==> cs == r.cq)
  }

  /**
   * One turn of the environment: the clock reading, what the resumed coroutine does, how
   * submissions fail, which polls fire meanwhile, how many completions are collected, and whether
   * some thread calls stop().
   */
  datatype Turn = Turn(
    now: Time,
    script: seq<Action>,
    submitFault: int,
    fires: seq<(nat, int)>,
    collect: nat,
    waitError: Option<int>,
    stop: bool)

  /** The first submit of a new ring: the wake poll, with token 1, is outstanding. */
  lemma FirstSubmit(depth: nat, wakeFd: int)
    ensures var wake := Poll(wakeFd, Read, 0);
            var r := Submitted(Ring(depth, [PollAdd(1, wake)], map[], []));
            && r == Ring(depth, [], map[1 := wake], [])
            && RingOk(r, [], map[1 := wake], 2) && NoneStranded(r, [], {1}) && Pending(r, [], 1)
            && Owned(map[1 := wake], map[], 1, wakeFd) && Below({}, 2)
  {
    var wake := Poll(wakeFd, Read, 0);
    var e, arms := PollAdd(1, wake), map[1 := wake];
    SubmitOne(Ring(depth, [e], map[], []), e);
    forall t: nat ensures ArmAt(arms, 2, t) && PollAt(arms, 2, arms, t) && OwnedAt(arms, map[], 1, t) && BelowAt({}, 2, t) {}
    forall i ensures SqeAt(arms, 2, [], i) && CqeAt(arms, 2, [], i) {}
  }

  /** How many calls the coroutines resumed in turns i..j make into the runtime, at most. */
  function CallsIn(env: seq<Turn>, i: nat, j: nat): nat
    requires i <= j <= |env|
    decreases j - i
  {
    if i == j then 0 else CallsIn(env, i, j - 1) + |env[j - 1].script|
  }

  lemma {:induction false} CallsSplit(env: seq<Turn>, i: nat, j: nat, k: nat)
    requires i <= j <= k <= |env|
    ensures CallsIn(env, i, k) == CallsIn(env, i, j) + CallsIn(env, j, k)
    decreases k - j
  {
    if j < k { CallsSplit(env, i, j, k - 1); }
  }

  /** The kernel's wait or a submission fails with this errno in some turn. */
  ghost predicate KernelFails(env: seq<Turn>, code: int)
  {
    exists j :: 0 <= j < |env| && FailsIn(env[j], code)
  }

  predicate FailsIn(t: Turn, code: int) { t.waitError == Some(code) || (t.submitFault == code && code != 0) }

  // ---------------------------------------------------------------- turns and runs

  predicate Asks(t: Turn) { t.stop || StopLoop in t.script }

  /** In some turn from i to j a coroutine or another thread asks the loop to stop. */
  ghost predicate AskedIn(env: seq<Turn>, i: nat, j: nat)
  {
    exists n :: i <= n < j <= |env| && Asks(env[n])
  }

  /** Nobody called stop() in the turns from i up to j. */
  ghost predicate Quiet(env: seq<Turn>, i: nat, j: nat)
  {
    forall n :: i <= n < j < |env| ==> !env[n].stop
  }

  lemma QuietMore(env: seq<Turn>, i: nat, j: nat)
    requires j + 1 < |env| && Quiet(env, i, j) && (i <= j ==> !env[j].stop)
    ensures Quiet(env, i, j + 1)
  {}

  lemma AskedMore(env: seq<Turn>, i: nat, j: nat, k: nat)
    requires i <= j <= k <= |env|
    ensures AskedIn(env, i, j) || AskedIn(env, j, k) ==> AskedIn(env, i, k)
    ensures k == j + 1 && Asks(env[j]) ==> AskedIn(env, i, k)
  {}

  /** The ring once these polls have fired, as far as they are outstanding. */
  function AfterFires(r: Ring, fires: seq<(nat, int)>): (s: Ring)
    ensures r.cq <= s.cq
  {
    if fires == [] then r else
    var before, last := AfterFires(r, fires[..|fires| - 1]), fires[|fires| - 1];
    if last.0 in before.polls then Fired(before, last.0, last.1) else before
  }

  /** The completions that were not collected are still in the queue, in order and first. */
  predicate KeptBack(r: Ring, cs: seq<Cqe>, after: Ring)
  {
    |cs| <= |r.cq| && r.cq[|cs|..] <= after.cq
  }

  /** How a loop went to wait: after which turn, with what scheduler, tokens and ring, and what the wait returned. */
  datatype Idle = Idle(at: nat, core: Co.Sys, inflight: Inflight, ring: Ring, completions: seq<Cqe>)

  /** From `s` on, each turn up to `idle` resumes one coroutine; a loop with nothing to do goes idle as it is. */
  ghost predicate WentIdle(s: Co.Sys, held: Inflight, r: Ring, env: seq<Turn>, from: nat, idle: Idle)
  {
    && from <= idle.at < |env| && Leads(s, idle.core, idle.at - from) && r.cq <= idle.ring.cq
    && (s.ready == [] && NoneDue(s.armed, env[from].now) ==>
          idle.at == from && idle.core == s && idle.inflight == held && idle.ring == r)
  }

  /** The wait returns completions of the ring once all is submitted, and without a failure each is served. */
  ghost predicate WokeUp(idle: Idle, env: seq<Turn>, t: Co.Sys, wakeToken: nat, failed: bool)
  {
    && idle.at + 1 < |env| && env[idle.at + 1].waitError.None?
    && Collected(Submitted(idle.ring), env[idle.at + 1].collect, idle.completions)
    && (!failed ==> Serves(idle.core, t, idle.inflight, idle.completions, wakeToken))
  }

  /**
   * One iteration of the loop of run(): where it begins and ends, and the loop as it went to wait. What was due at
   * its first clock reading is told so and nothing due is left; if it goes on, it has served what its wait returned.
   */
  datatype Lap = Lap(from: nat, start: Co.Sys, inflight: Inflight, ring: Ring, idle: Idle, verdict: Verdict,
                     next: nat, end: Co.Sys, left: Inflight, after: Ring, failed: bool)

  ghost predicate LapOk(env: seq<Turn>, lap: Lap, wakeToken: nat)
  {
    && lap.from < lap.next <= |env| && lap.idle.at + 1 <= lap.next <= lap.idle.at + 2
    && WentIdle(lap.start, lap.inflight, lap.ring, env, lap.from, lap.idle) && Leads(lap.idle.core, lap.end, 0)
    && (!lap.failed ==> NoneDue(lap.end.armed, env[lap.idle.at].now))
    && (!lap.failed ==> AllTimedOut(lap.start, lap.end, env[lap.from].now))
    && (lap.verdict == Again ==> lap.next == lap.idle.at + 2 && WokeUp(lap.idle, env, lap.end, wakeToken, lap.failed))
    && (lap.verdict == Again ==> KeptBack(Submitted(lap.idle.ring), lap.idle.completions, lap.after))
  }

  /** A lap begins where the one before has ended. */
  ghost predicate Follows(a: Lap, b: Lap)
  {
    && b.from == a.next && b.start == a.end && b.inflight == a.left && b.ring == a.after
    && a.verdict == Again && !a.failed
  }

  /** The laps of a run, one after the other. */
  ghost predicate LapsOk(env: seq<Turn>, laps: seq<Lap>, wakeToken: nat)
  {
    && (forall i :: 0 <= i < |laps| ==> LapOk(env, laps[i], wakeToken))
    && (forall i, j :: 0 <= i && j == i + 1 < |laps| ==> Follows(laps[i], laps[j]))
  }

  lemma LapsMore(env: seq<Turn>, laps: seq<Lap>, lap: Lap, wakeToken: nat)
    requires LapsOk(env, laps, wakeToken) && LapOk(env, lap, wakeToken) && (laps != [] ==> Follows(laps[|laps| - 1], lap))
    ensures LapsOk(env, laps + [lap], wakeToken)
  {
    hide LapOk, Follows;
    var more := laps + [lap];
    forall i, j | 0 <= i && j == i + 1 < |more| ensures Follows(more[i], more[j]) {
      if j < |laps| { assert Follows(laps[i], laps[j]); }
    }
  }

  /** The laps lead from `s` at turn 0 to `t` at turn i. */
  ghost predicate LapsLead(env: seq<Turn>, laps: seq<Lap>, s: Co.Sys, held: Inflight, r: Ring, i: nat, t: Co.Sys,
                           wakeToken: nat)
  {
    && LapsOk(env, laps, wakeToken)
    && if laps == [] then i == 0 && t == s
       else
         && laps[0].from == 0 && laps[0].start == s && laps[0].inflight == held && laps[0].ring == r
         && laps[|laps| - 1].next == i && laps[|laps| - 1].end == t
  }

  lemma LapsLeadOn(env: seq<Turn>, laps: seq<Lap>, lap: Lap, s: Co.Sys, held: Inflight, r: Ring, i: nat, t: Co.Sys,
                   wakeToken: nat)
    requires LapsLead(env, laps, s, held, r, i, t, wakeToken) && LapOk(env, lap, wakeToken)
    requires if laps == [] then lap.from == 0 && lap.start == s && lap.inflight == held && lap.ring == r
             else Follows(laps[|laps| - 1], lap)
    ensures LapsLead(env, laps + [lap], s, held, r, lap.next, lap.end, wakeToken)
  {
    LapsMore(env, laps, lap, wakeToken);
  }

  /** Nothing is queued or due, something is armed, and neither submit nor wait fails: the loop has to block. */
  ghost predicate WouldBlock(s: Co.Sys, env: seq<Turn>, from: nat)
  {
    && from + 1 < |env| && s.ready == [] && s.armed != map[] && NoneDue(s.armed, env[from].now)
    && env[from + 1].submitFault == 0 && env[from + 1].waitError.None?
  }

  /** The wait this completion speaks for is over and its coroutine is told the outcome of the poll. */
  ghost predicate ToldAt(s: Co.Sys, t: Co.Sys, held: Inflight, cs: seq<Cqe>, wakeToken: nat, i: int)
  {
    0 <= i < |cs| && Meant(cs[i].token, wakeToken, held) && !Seen(cs, i, cs[i].token) ==>
      Told(s, t, held[cs[i].token], if cs[i].result >= 0 then Ok else Err(-cs[i].result))
  }

  ghost predicate AllTold(s: Co.Sys, t: Co.Sys, held: Inflight, cs: seq<Cqe>, wakeToken: nat)
  {
    forall i {:trigger ToldAt(s, t, held, cs, wakeToken, i)} :: ToldAt(s, t, held, cs, wakeToken, i)
  }

  lemma ServedAreTold(s: Co.Sys, t: Co.Sys, held: Inflight, cs: seq<Cqe>, wakeToken: nat)
    requires Serves(s, t, held, cs, wakeToken)
    ensures AllTold(s, t, held, cs, wakeToken)
  {
    forall i ensures ToldAt(s, t, held, cs, wakeToken, i) { assert ServedAt(s, t, held, cs, wakeToken, i); }
  }

  lemma AllToldForGood(s: Co.Sys, t: Co.Sys, u: Co.Sys, n: nat, held: Inflight, cs: seq<Cqe>, wakeToken: nat)
    requires AllTold(s, t, held, cs, wakeToken) && Leads(t, u, n) && Reachable(u)
    ensures AllTold(s, u, held, cs, wakeToken)
  {
    forall i ensures ToldAt(s, u, held, cs, wakeToken, i) {
      assert ToldAt(s, t, held, cs, wakeToken, i);
      if 0 <= i < |cs| && Meant(cs[i].token, wakeToken, held) && !Seen(cs, i, cs[i].token) {
        ToldForGood(s, t, u, n, held[cs[i].token], if cs[i].result >= 0 then Ok else Err(-cs[i].result));
      }
    }
  }

  /**
   * What is sure of a run from its first turns on: the waits due at the first clock reading have timed out, and a
   * loop that has to block submits everything and serves the completions it collects.
   */
  ghost predicate Begins(s: Co.Sys, held: Inflight, r: Ring, env: seq<Turn>, t: Co.Sys, wakeToken: nat)
  {
    && (env != [] ==> AllTimedOut(s, t, env[0].now))
    && (WouldBlock(s, env, 0) ==>
          exists cs :: Collected(Submitted(r), env[1].collect, cs) && AllTold(s, t, held, cs, wakeToken))
  }

  lemma NothingBegun(s: Co.Sys, held: Inflight, r: Ring, env: seq<Turn>, wakeToken: nat)
    ensures env == [] ==> Begins(s, held, r, env, s, wakeToken)
    ensures LapsLead(env, [], s, held, r, 0, s, wakeToken)
  {}

  lemma BegunForGood(s: Co.Sys, held: Inflight, r: Ring, env: seq<Turn>, t: Co.Sys, u: Co.Sys, n: nat, wakeToken: nat)
    requires Begins(s, held, r, env, t, wakeToken) && Leads(t, u, n) && Reachable(u)
    ensures Begins(s, held, r, env, u, wakeToken)
  {
    hide Leads, Reachable, AllTold, Collected;
    if env != [] { TimedOutForGood(s, t, u, n, env[0].now); }
    if WouldBlock(s, env, 0) {
      var cs :| Collected(Submitted(r), env[1].collect, cs) && AllTold(s, t, held, cs, wakeToken);
      AllToldForGood(s, t, u, n, held, cs, wakeToken);
    }
  }

  lemma LapLeads(env: seq<Turn>, lap: Lap, wakeToken: nat)
    requires LapOk(env, lap, wakeToken)
    ensures lap.from <= lap.idle.at < lap.next && Leads(lap.start, lap.end, lap.idle.at - lap.from)
  {
    LeadsOn(lap.start, lap.idle.core, lap.end, lap.idle.at - lap.from, 0);
  }

  /** The first lap begins the run so, and the later ones take nothing back. */
  lemma BeginsOn(s: Co.Sys, held: Inflight, r: Ring, env: seq<Turn>, m: Co.Sys, lap: Lap, wakeToken: nat)
    requires LapOk(env, lap, wakeToken) && lap.start == m && !lap.failed && Reachable(lap.end)
    requires if lap.from == 0 then m == s && lap.inflight == held && lap.ring == r else Begins(s, held, r, env, m, wakeToken)
    requires lap.from == 0 && WouldBlock(m, env, 0) ==> lap.verdict == Again
    ensures Begins(s, held, r, env, lap.end, wakeToken)
  {
    hide Leads, Reachable, AllTold, Serves, AllTimedOut;
    var t, idle := lap.end, lap.idle;
    if lap.from > 0 {
      LapLeads(env, lap, wakeToken);
      BegunForGood(s, held, r, env, m, t, idle.at - lap.from, wakeToken);
    } else if WouldBlock(s, env, 0) {
      ServedAreTold(s, t, held, idle.completions, wakeToken);
    }
  }

  /**
   * Whole runs: whoever a lap has timed out, or served after its wait, has been told so in every later state of the
   * run, once and for all.
   */
  lemma {:induction false} LapTells(env: seq<Turn>, laps: seq<Lap>, i: nat, j: nat, wakeToken: nat)
    requires LapsOk(env, laps, wakeToken) && i <= j < |laps| && Reachable(laps[i].start) && !laps[i].failed
    ensures Reachable(laps[j].end)
    ensures AllTimedOut(laps[i].start, laps[j].end, env[laps[i].from].now)
    ensures laps[i].verdict == Again ==>
              AllTold(laps[i].idle.core, laps[j].end, laps[i].idle.inflight, laps[i].idle.completions, wakeToken)
    decreases j - i
  {
    hide Leads, Reachable, Serves, AllTimedOut, AllTold, WentIdle;
    var a, b := laps[i], laps[j];
    assert LapOk(env, a, wakeToken) && LapOk(env, b, wakeToken);
    LapLeads(env, b, wakeToken);
    if i == j {
      ReachableOn(b.start, b.end, b.idle.at - b.from);
      if a.verdict == Again { ServedAreTold(a.idle.core, a.end, a.idle.inflight, a.idle.completions, wakeToken); }
    } else {
      var m := j - 1;
      LapTells(env, laps, i, m, wakeToken);
      assert Follows(laps[m], b);
      ReachableOn(b.start, b.end, b.idle.at - b.from);
      TimedOutForGood(a.start, b.start, b.end, b.idle.at - b.from, env[a.from].now);
      if a.verdict == Again {
        AllToldForGood(a.idle.core, b.start, b.end, b.idle.at - b.from, a.idle.inflight, a.idle.completions, wakeToken);
      }
    }
  }

  lemma NotSeenYet(cq: seq<Cqe>, cs: seq<Cqe>, p: nat)
    requires cs <= cq && p < |cs| && !Seen(cq, p, cq[p].token)
    ensures !Seen(cs, p, cs[p].token)
  {
    assert forall j :: 0 <= j < |cs| ==> cs[j] == cq[j];
  }

  /**
   * No lost completion, told from the outside: if a completion is among the oldest that the wait asks for, once all is
   * submitted, and is the first with a token in flight, then its wait is over and told the outcome of the poll.
   */
  lemma CompletionIsTold(env: seq<Turn>, lap: Lap, p: nat, wakeToken: nat)
    requires LapOk(env, lap, wakeToken) && lap.verdict == Again && !lap.failed
    requires var cq := Submitted(lap.idle.ring).cq;
             && p < |cq| && p < 64 && p < env[lap.idle.at + 1].collect
             && Meant(cq[p].token, wakeToken, lap.idle.inflight) && !Seen(cq, p, cq[p].token)
    ensures var c := Submitted(lap.idle.ring).cq[p];
            var key := lap.idle.inflight[c.token];
            && key !in lap.end.armed
            && Told(lap.idle.core, lap.end, key, if c.result >= 0 then Ok else Err(-c.result))
  {
    hide Leads, Told, Submitted;
    var cq, cs := Submitted(lap.idle.ring).cq, lap.idle.completions;
    assert p < |cs| && cs[p] == cq[p];
    NotSeenYet(cq, cs, p);
    assert ServedAt(lap.idle.core, lap.end, lap.idle.inflight, cs, wakeToken, p);
  }

  lemma StillNoneDue(s: Co.Sys, t: Co.Sys, held: Inflight, cs: seq<Cqe>, wakeToken: nat, now: Time)
    requires Serves(s, t, held, cs, wakeToken) && NoneDue(s.armed, now)
    ensures NoneDue(t.armed, now)
  {
    forall k ensures k !in Expired(t.armed, now) {
      assert k !in Expired(s.armed, now);
    }
  }

  class UringEventLoop {
    const core: Scheduler
    const wakeFd: int
    const initError: Option<int>
    var waiters: Table
    var inflight: Inflight               // inflight_polls_
    var pending: nat                     // pending_waiter_count_
    var timed: nat                       // timed_waiter_count_
    var nextDeadline: Option<Time>
    var dirty: bool                      // deadline_index_dirty_
    var nextToken: nat
    const wakeToken: nat
    var submissionPending: bool
    var loopError: Option<int>
    var stopRequested: bool
    var ring: Ring
    ghost var inbox: seq<Cqe>            // completions collected and not processed yet
    ghost var arms: Arms                 // the poll that each token in use stands for
    var armCount: nat                    // history: number of tokens taken for waits
    ghost var lost: set<nat>             // tokens whose completion was dropped or whose poll was not renewed
    ghost var wrapped: bool              // the 64-bit token counter has wrapped around
    ghost var healthy: bool              // no scan was cut short by a failed submission

    ghost predicate Coherent()
      reads this`waiters, this`pending, this`timed, this`nextDeadline, core
    {
      && core.Valid()
      && Represents(waiters, core.armed)
      && pending == |core.armed|
      && timed == |Timed(core.armed)|
      && LowerBound(nextDeadline, core.armed)
    }

    /** Unsubmitted entries are never forgotten. */
    ghost predicate QueueOk()
      reads this`ring, this`submissionPending
    {
      0 < ring.depth && |ring.sq| <= ring.depth && (ring.sq != [] ==> submissionPending)
    }

    /** Tokens are numbered from 1, and the wake descriptor exists unless the setup failed. */
    ghost predicate Numbered()
      reads this`nextToken
    {
      0 < nextToken < TOKEN_LIMIT && 0 < wakeToken && (initError.None? ==> wakeFd >= 0)
    }

    ghost predicate RingReady()
      reads this`waiters, this`inflight, this`nextToken, this`ring, this`submissionPending
    {
      TokensOk(waiters, inflight) && Numbered() && QueueOk()
    }

    /** The tokens whose polls have to be somewhere: those of the armed waits and the wake poll's. */
    ghost function Live(): set<nat>
      reads this`arms, this`lost
    {
      arms.Keys - lost
    }

    /** Until the token counter wraps, every poll is where it should be and belongs to who holds its token. */
    ghost predicate PollsOk()
      reads this`wrapped, this`ring, this`inbox, this`arms, this`inflight, this`armCount, this`nextToken,
            this`lost
    {
      if wrapped then armCount >= TOKEN_LIMIT - 2
      else nextToken == armCount + 2 && PollsAt(nextToken)
    }

    /** Every poll is where it should be, with tokens below `next`. */
    ghost predicate PollsAt(next: nat)
      reads this`ring, this`inbox, this`arms, this`inflight, this`lost
    {
      && RingOk(ring, inbox, arms, next) && NoneStranded(ring, inbox, Live())
      && Owned(arms, inflight, wakeToken, wakeFd) && Below(lost, next)
    }

    /** The poll of the wake descriptor. */
    function WakePoll(): Poll { Poll(wakeFd, Read, 0) }

    /** The error that ends a run, if any, is that of the given kernel call. */
    ghost predicate Blames(fault: int)
      reads this`loopError
    {
      initError.None? && loopError.Some? ==> loopError.value == fault && fault != 0
    }

    ghost predicate BlamesTurn(t: Turn)
      reads this`loopError
    {
      initError.None? && loopError.Some? ==> FailsIn(t, loopError.value)
    }

    ghost predicate ErrorFrom(env: seq<Turn>)
      reads this`loopError
    {
      initError.None? && loopError.Some? ==> KernelFails(env, loopError.value)
    }

    ghost predicate Valid()
      reads this, core
    {
      && Coherent() && RingReady() && PollsOk()
      && (healthy ==> CacheOk(nextDeadline, dirty, core.armed))
      && (loopError.Some? ==> !healthy)
    }

    /** What holds between two steps of run(): an error ends the run, and a batch is left only by an error. */
    ghost predicate InRun(env: seq<Turn>)
      reads this`loopError, this`stopRequested, this`inbox
    {
      (loopError.Some? ==> stopRequested) && ErrorFrom(env) && (loopError.None? ==> inbox == [])
    }

    /** A verdict to leave means stopped or done, one to return has used up the turns or names a failed kernel call. */
    ghost predicate Concludes(env: seq<Turn>, next: nat, verdict: Verdict)
      reads this`stopRequested, core
    {
      match verdict
      case Again => true
      case Leave => stopRequested || (core.ready == [] && core.active == 0 && core.armed == map[])
      case Return(out) =>
        if out == Paused then next == |env| else out.Failed? && 0 < next <= |env| && FailsIn(env[next - 1], out.code)
    }

    /** Since `was`, no poll was lost but the wake poll of a stopped run. */
    ghost predicate LostSince(was: set<nat>)
      reads this`lost, this`stopRequested
    {
      lost <= was + {wakeToken} && (stopRequested || lost <= was)
    }

    /** Only a loop error ends the good health of a loop. */
    ghost predicate KeepsHealth(was: bool)
      reads this`loopError, this`healthy
    {
      loopError.None? && was ==> healthy
    }

    /** The counters are exact, so the guards of their decrements never change the result. */
    lemma CountersAreExact()
      requires Valid()
      ensures pending == |core.armed| && timed == |Timed(core.armed)| && core.active == |Inv.Unfinished(core.frames)|
    {
      ReachableInv(core.State());
    }

    /** While a timed wait is armed the cached deadline is set and not later than it. */
    lemma DeadlineIsCached(k: Key)
      requires Valid() && k in core.armed && core.armed[k].deadline.Some?
      ensures nextDeadline.Some? && nextDeadline.value <= core.armed[k].deadline.value
    {
      CachedDeadline(nextDeadline, core.armed, k);
    }

    /** Every armed wait holds a token of its own that is in flight for it. */
    lemma EveryWaitHasAToken(key: Key)
      requires Valid() && key in core.armed
      ensures key.fd in waiters && waiters[key.fd].Reg(key.dir) == Some(core.armed[key])
      ensures var token := TokenOf(waiters[key.fd], key.dir);
              token != 0 && token in inflight && inflight[token] == key
      ensures forall t :: t in inflight && inflight[t] == key ==> t == TokenOf(waiters[key.fd], key.dir)
    {
      assert RepresentsAt(waiters, core.armed, key.fd, key.dir);
      assert HasToken(waiters, inflight, key.fd, key.dir);
      assert HasOwner(waiters, inflight, TokenOf(waiters[key.fd], key.dir));
      forall t | t in inflight && inflight[t] == key ensures t == TokenOf(waiters[key.fd], key.dir) {
        assert HasOwner(waiters, inflight, t);
      }
    }

    /** And every token in flight belongs to an armed wait. */
    lemma EveryTokenHasAWait(token: nat)
      requires Valid() && token in inflight
      ensures inflight[token] in core.armed
    {
      assert HasOwner(waiters, inflight, token);
      assert RepresentsAt(waiters, core.armed, inflight[token].fd, inflight[token].dir);
    }

    /**
     * No stranded poll: a poll on the descriptor and direction of an armed
     * wait is queued, outstanding, completed or being processed.
     */
    lemma EveryWaitHasAPoll(key: Key)
      requires Valid() && !wrapped && key in core.armed
      ensures key.fd in waiters
      ensures var token := TokenOf(waiters[key.fd], key.dir);
              && token in arms && arms[token].fd == key.fd && arms[token].dir == key.dir
              && (token !in lost ==> PendingAs(ring, inbox, token, arms[token]))
      ensures ring.sq != [] ==> submissionPending
    {
      EveryWaitHasAToken(key);
      var token := TokenOf(waiters[key.fd], key.dir);
      assert OwnedAt(arms, inflight, wakeToken, token);
      if token !in lost {
        assert token in Live() && Pending(ring, inbox, token);
        PendingIsOwn(ring, inbox, arms, nextToken, token);
      }
    }

    /** The token counter has not wrapped while fewer than 2^64 - 2 tokens were taken for waits. */
    lemma NotWrappedYet()
      requires Valid() && armCount < TOKEN_LIMIT - 2
      ensures !wrapped && nextToken == armCount + 2
    {}

    /** The wake poll is pending too, unless a stopped run did not renew it. */
    lemma WakePollIsPending()
      requires Valid() && !wrapped && wakeToken !in lost
      ensures PendingAs(ring, inbox, wakeToken, WakePoll())
    {
      assert wakeToken in Live() && Pending(ring, inbox, wakeToken);
      PendingIsOwn(ring, inbox, arms, nextToken, wakeToken);
    }

    /** A new loop has taken its first token for the poll of its wake descriptor and submitted that poll. */
    constructor (depth: nat, wakeFd: int, failure: Option<int>)
      requires depth > 0 && (failure.None? ==> wakeFd >= 0)
      ensures Valid() && fresh(core) && healthy && !wrapped && lost == {} && core.State() == Co.INIT
      ensures this.wakeFd == wakeFd && initError == failure && inbox == [] && loopError.None?
      ensures PendingAs(ring, inbox, wakeToken, WakePoll()) && ring.sq == [] && inflight == map[] && armCount == 0
    {
      core := new Scheduler();
      this.wakeFd := wakeFd;
      initError := failure;
      waiters, inflight, pending, timed, nextDeadline, dirty := map[], map[], 0, 0, None, false;
      wakeToken, nextToken, submissionPending := 1, 2, false;
      loopError, stopRequested := None, false;
      ring := Submitted(Ring(depth, [PollAdd(1, Poll(wakeFd, Read, 0))], map[], []));
      inbox, arms, armCount, lost, wrapped, healthy := [], map[1 := Poll(wakeFd, Read, 0)], 0, {}, false, true;
      new;
      FirstSubmit(depth, wakeFd);
      assert Live() == {1};
      assert Timed(core.armed) == {};
    }

    /** Next free token; the search ends because fewer than 2^64 - 1 tokens are in flight. */
    method AllocateToken() returns (token: nat)
      requires 0 < nextToken < TOKEN_LIMIT && |inflight| < TOKEN_LIMIT - 1
      modifies this`nextToken, this`wrapped
      ensures FirstFree(old(nextToken), token, inflight.Keys)
      ensures 0 < nextToken < TOKEN_LIMIT
      ensures nextToken == if token + 1 == TOKEN_LIMIT then 1 else token + 1
      ensures wrapped <==> old(wrapped) || token < old(nextToken) || token + 1 == TOKEN_LIMIT
    {
      ghost var from, was := nextToken, wrapped;
      ghost var free := FreeToken(inflight.Keys, TOKEN_LIMIT - 1);
      while true
        invariant 0 < nextToken < TOKEN_LIMIT && Ahead(from, nextToken) <= Ahead(from, free)
        invariant AllUsed(from, nextToken, inflight.Keys)
        invariant wrapped <==> was || nextToken < from
        decreases Ahead(from, free) - Ahead(from, nextToken)
      {
        token := nextToken;
        StepAhead(from, token, free, inflight.Keys);
        nextToken := (nextToken + 1) % TOKEN_LIMIT;
        if nextToken == 0 {
          nextToken := 1;
          wrapped := true;
        }
        if token != 0 && token !in inflight {
          return;
        }
      }
    }

    /** Submit what is queued; afterwards nothing is unsubmitted. */
    method FlushSubmissions(fault: int) returns (r: Status)
      requires QueueOk()
      modifies this`ring, this`submissionPending
      ensures QueueOk()
      ensures r == Ok ==> ring == Submitted(old(ring)) && ring.sq == [] && !submissionPending
      ensures r.Err? ==> ring == old(ring) && submissionPending == old(submissionPending) && r == Err(fault) && fault != 0
      ensures old(ring).cq <= ring.cq
    {
      if !submissionPending { return Ok; }
      if fault != 0 { return Err(fault); }
      ring := Submitted(ring);
      submissionPending := false;
      r := Ok;
    }

    /** `submit_poll_add` and `submit_poll_remove`: the queue has room or the call fails with EBUSY. */
    method PrepareEntry(e: Sqe) returns (r: Status)
      modifies this`ring
      ensures r == Ok ==> |old(ring).sq| < ring.depth && ring == old(ring).(sq := old(ring).sq + [e])
      ensures r.Err? ==> ring == old(ring) && r == Err(EBUSY) && |ring.sq| >= ring.depth
      ensures old(ring).cq <= ring.cq
    {
      if |ring.sq| >= ring.depth { return Err(EBUSY); }
      ring := ring.(sq := ring.sq + [e]);
      r := Ok;
    }

    /** Queue an entry, submitting a full queue first. EBUSY never comes out of this. */
    method QueueEntry(e: Sqe, fault: int) returns (r: Status)
      requires QueueOk()
      modifies this`ring, this`submissionPending
      ensures QueueOk()
      ensures r == Ok ==> ring == Pushed(old(ring), e) && submissionPending
      ensures r.Err? ==> ring == old(ring) && submissionPending == old(submissionPending) && r == Err(fault) && fault != 0
      ensures old(ring).cq <= ring.cq
    {
      r := PrepareEntry(e);
      if r == Err(EBUSY) {
        r := FlushSubmissions(fault);
        if r.Err? { return; }
        r := PrepareEntry(e);
      }
      if r == Ok {
        submissionPending := true;
      }
    }

    method QueuePollAdd(token: nat, fd: int, d: Dir, arm: nat, fault: int) returns (r: Status)
      requires QueueOk()
      modifies this`ring, this`submissionPending
      ensures QueueOk()
      ensures token == 0 || fd < 0 ==> r == Err(EINVAL)
      ensures r == Ok ==> ring == Pushed(old(ring), PollAdd(token, Poll(fd, d, arm))) && submissionPending
      ensures r.Err? ==> ring == old(ring) && submissionPending == old(submissionPending)
      ensures token != 0 && fd >= 0 && r.Err? ==> r == Err(fault) && fault != 0
      ensures old(ring).cq <= ring.cq
    {
      if token == 0 || fd < 0 { return Err(EINVAL); }
      r := QueueEntry(PollAdd(token, Poll(fd, d, arm)), fault);
    }

    method QueuePollRemove(token: nat, fault: int) returns (r: Status)
      requires QueueOk()
      modifies this`ring, this`submissionPending
      ensures QueueOk()
      ensures r == Ok ==> ring == if token == 0 then old(ring) else Pushed(old(ring), PollRemove(token))
      ensures r.Err? ==> ring == old(ring) && submissionPending == old(submissionPending) && r == Err(fault) && fault != 0
      ensures old(ring).cq <= ring.cq
    {
      if token == 0 { return Ok; }
      r := QueueEntry(PollRemove(token), fault);    // preparing the entry never fails with ENOENT
    }

    /** Clear one registration, give its coroutine `status` and queue it. */
    method Disarm(fd: int, d: Dir, status: Status)
      requires Coherent() && fd in waiters && waiters[fd].Reg(d).Some?
      modifies this`waiters, this`pending, this`timed, core
      ensures Coherent()
      ensures waiters == old(waiters)[fd := Fill(old(waiters)[fd], d, None, 0)]
      ensures Co.CanResolve(old(core.State()), Key(fd, d))
      ensures core.State() == Co.Resolved(old(core.State()), Key(fd, d), status)
    {
      var w := waiters[fd].Reg(d).value;
      assert RepresentsAt(waiters, core.armed, fd, d);
      DisarmCounts(core.armed, Key(fd, d));
      LowerBoundAfterDisarm(nextDeadline, core.armed, {Key(fd, d)});
      ClearFilled(waiters, core.armed, fd, d);
      core.Wake(Key(fd, d), w.handle, status);
      if w.deadline.Some? && timed > 0 {
        timed := timed - 1;
      }
      waiters := waiters[fd := Fill(waiters[fd], d, None, 0)];
      if pending > 0 {
        pending := pending - 1;
      }
    }

    /** Nobody holds `token` any more: `inflight_polls_.erase(token)`. */
    method DropToken(token: nat)
      requires TokensOk(waiters, inflight - {token}) && token in inflight && Numbered() && QueueOk() && PollsOk()
      modifies this`inflight, this`arms
      ensures RingReady() && PollsOk()
      ensures inflight == old(inflight) - {token} && arms == old(arms) - {token}
    {
      if !wrapped {
        ReleaseKeeps(ring, inbox, arms, nextToken, token);
        FewerStranded(ring, inbox, Live(), (arms - {token}).Keys - lost);
        OwnFewer(arms, inflight, wakeToken, wakeFd, token);
      }
      inflight := inflight - {token};
      arms := arms - {token};
    }

    /** Disarm a registration and give up its token. */
    method Release(fd: int, d: Dir, status: Status) returns (token: nat)
      requires Coherent() && RingReady() && PollsOk() && fd in waiters && waiters[fd].Reg(d).Some?
      modifies this`waiters, this`pending, this`timed, this`inflight, this`arms, core
      ensures Coherent() && RingReady() && PollsOk()
      ensures token == TokenOf(old(waiters[fd]), d) && token in old(inflight) && token != 0
      ensures waiters == old(waiters)[fd := Fill(old(waiters)[fd], d, None, 0)]
      ensures inflight == old(inflight) - {token} && arms == old(arms) - {token}
      ensures Co.CanResolve(old(core.State()), Key(fd, d))
      ensures core.State() == Co.Resolved(old(core.State()), Key(fd, d), status)
    {
      token := TokenOf(waiters[fd], d);
      assert HasToken(waiters, inflight, fd, d) && HasOwner(waiters, inflight, token);
      ClearKeepsTokens(waiters, inflight, fd, d);
      Disarm(fd, d, status);
      DropToken(token);
    }

    /** Cancel the poll of a token that was given up; a failure of the submission ends the run. */
    method CancelPoll(token: nat, fault: int)
      requires RingReady() && PollsOk() && (!wrapped ==> token !in arms && token < nextToken) && loopError.None?
      modifies this`ring, this`submissionPending, this`loopError, this`stopRequested, this`healthy
      ensures RingReady() && PollsOk()
      ensures if loopError.None? then healthy == old(healthy) && stopRequested == old(stopRequested)
              else !healthy && stopRequested
      ensures loopError.None? ==> ring == if token == 0 then old(ring) else Pushed(old(ring), PollRemove(token))
      ensures loopError.Some? ==> loopError.value == fault != 0
      ensures old(ring).cq <= ring.cq
    {
      if token != 0 {
        if !wrapped { PushKeeps(ring, inbox, arms, nextToken, Live(), PollRemove(token)); }
        var r := QueuePollRemove(token, fault);
        if r.Err? {
          loopError := Some(r.code);
          stopRequested := true;
          healthy := false;
        }
      }
    }

    /** Time out a registration and cancel its poll. */
    method Expire(fd: int, d: Dir, fault: int)
      requires Coherent() && RingReady() && PollsOk() && fd in waiters && waiters[fd].Reg(d).Some? && loopError.None?
      modifies this`waiters, this`pending, this`timed, this`inflight, this`arms, this`ring, this`submissionPending,
               this`loopError, this`stopRequested, this`healthy, core
      ensures Coherent() && RingReady() && PollsOk()
      ensures waiters == old(waiters)[fd := Fill(old(waiters[fd]), d, None, 0)]
      ensures Co.CanResolve(old(core.State()), Key(fd, d))
      ensures core.State() == Co.Resolved(old(core.State()), Key(fd, d), Err(old(waiters[fd].Reg(d)).value.timeoutError))
      ensures if loopError.None? then healthy == old(healthy) && stopRequested == old(stopRequested)
              else !healthy && stopRequested
      ensures inflight == old(inflight) - {TokenOf(old(waiters[fd]), d)}
      ensures loopError.None? ==> ring == Pushed(old(ring), PollRemove(TokenOf(old(waiters[fd]), d)))
      ensures loopError.Some? ==> loopError.value == fault != 0
      ensures old(ring).cq <= ring.cq
    {
      var token := Release(fd, d, Err(waiters[fd].Reg(d).value.timeoutError));
      assert !wrapped ==> OwnedAt(old(arms), old(inflight), wakeToken, token) && ArmAt(old(arms), nextToken, token);
      assert !wrapped ==> token in old(arms);
      CancelPoll(token, fault);
    }

    /** Time out one registration if its deadline has passed, and cancel its poll. */
    method ExpireRegistration(fd: int, d: Dir, now: Time, fault: int) returns (expired: bool)
      requires Coherent() && RingReady() && PollsOk() && fd in waiters && loopError.None?
      modifies this`waiters, this`pending, this`timed, this`inflight, this`arms, this`ring, this`submissionPending,
               this`loopError, this`stopRequested, this`healthy, core
      ensures Coherent() && RingReady() && PollsOk()
      ensures expired <==> Key(fd, d) in Expired(old(core.armed), now)
      ensures waiters.Keys == old(waiters).Keys
      ensures TimesOut(old(core.State()), core.State(), if expired then [Key(fd, d)] else [])
      ensures core.armed == old(core.armed) - if expired then {Key(fd, d)} else {}
      ensures if loopError.None? then healthy == old(healthy) && stopRequested == old(stopRequested)
              else !healthy && stopRequested
      ensures if expired then inflight == old(inflight) - {TokenOf(old(waiters[fd]), d)} else inflight == old(inflight)
      ensures expired && loopError.None? ==> ring == Pushed(old(ring), PollRemove(TokenOf(old(waiters[fd]), d)))
      ensures !expired ==> ring == old(ring) && loopError.None?
      ensures loopError.Some? ==> loopError.value == fault != 0
      ensures old(ring).cq <= ring.cq
    {
      hide Woke, LowerBound, PollsOk, TokensOk;
      assert RepresentsAt(waiters, core.armed, fd, d);
      var reg := waiters[fd].Reg(d);
      expired := Due(reg, now);
      if expired {
        CanAlwaysResolve(core.State(), Key(fd, d));
        TimesOutOne(core.State(), Key(fd, d));
        Expire(fd, d, fault);
      } else {
        TimesOutNothing(core.State());
      }
    }

    method EraseIfEmpty(fd: int)
      requires Coherent() && RingReady() && PollsOk() && fd in waiters
      modifies this`waiters
      ensures Coherent() && RingReady() && PollsOk()
      ensures waiters == if old(waiters[fd]).Empty() then old(waiters) - {fd} else old(waiters)
    {
      if waiters[fd].Empty() {
        RewriteSlot(waiters, core.armed, fd, waiters[fd].aux);
        EraseKeepsTokens(waiters, inflight, fd);
        waiters := waiters - {fd};
      }
    }

    method ExpireSlot(fd: int, now: Time, fault: int) returns (ghost order: seq<Key>)
      requires Coherent() && RingReady() && PollsOk() && fd in waiters && loopError.None?
      modifies this`waiters, this`pending, this`timed, this`inflight, this`arms, this`ring, this`submissionPending,
               this`loopError, this`stopRequested, this`healthy, core
      ensures Coherent() && RingReady() && PollsOk()
      ensures waiters.Keys == old(waiters).Keys
      ensures TimesOut(old(core.State()), core.State(), order)
      ensures NoneDue(old(core.armed), now) ==>
                loopError.None? && ring == old(ring) && inflight == old(inflight) && order == []
      ensures loopError.None? ==> core.armed == old(core.armed) - ExpiredOn(old(core.armed), now, {fd})
      ensures if loopError.None? then healthy == old(healthy) && stopRequested == old(stopRequested)
              else !healthy && stopRequested
      ensures loopError.Some? ==> loopError.value == fault != 0
      ensures old(ring).cq <= ring.cq
    {
      hide Woke, LowerBound, PollsOk, Represents, TokensOk;
      ghost var s0 := core.State();
      NoneDueHere(core.armed, now, fd);
      var r := ExpireRegistration(fd, Read, now, fault);
      order := if r then [Key(fd, Read)] else [];
      if loopError.Some? { return; }
      ghost var s1, a := core.State(), order;
      var w := ExpireRegistration(fd, Write, now, fault);
      ghost var b := if w then [Key(fd, Write)] else [];
      order := a + b;
      TimesOutMore(s0, s1, core.State(), a, b);
      ExpireBoth(s0.armed, now, fd, r, w);
    }

    /** Expire what is due on one slot and erase it if it is no longer needed. */
    method ScanSlot(fd: int, now: Time, fault: int) returns (ghost order: seq<Key>)
      requires Coherent() && RingReady() && PollsOk() && fd in waiters && loopError.None?
      modifies this`waiters, this`pending, this`timed, this`inflight, this`arms, this`ring, this`submissionPending,
               this`loopError, this`stopRequested, this`healthy, core
      ensures Coherent() && RingReady() && PollsOk()
      ensures old(waiters).Keys - {fd} <= waiters.Keys
      ensures TimesOut(old(core.State()), core.State(), order)
      ensures NoneDue(old(core.armed), now) ==>
                loopError.None? && ring == old(ring) && inflight == old(inflight) && order == []
      ensures loopError.None? ==> core.armed == old(core.armed) - ExpiredOn(old(core.armed), now, {fd})
      ensures if loopError.None? then healthy == old(healthy) && stopRequested == old(stopRequested)
              else !healthy && stopRequested
      ensures loopError.Some? ==> loopError.value == fault != 0
      ensures old(ring).cq <= ring.cq
    {
      hide TimesOut, LowerBound, PollsOk, Represents, TokensOk, NoneDue;
      order := ExpireSlot(fd, now, fault);
      if loopError.None? {
        EraseIfEmpty(fd);
      }
    }

    /** Visit every slot; `next` is the earliest deadline that is left. */
    method ScanSlots(now: Time, fault: int) returns (next: Option<Time>, ghost order: seq<Key>)
      requires Coherent() && RingReady() && PollsOk() && loopError.None?
      modifies this`waiters, this`pending, this`timed, this`inflight, this`arms, this`ring, this`submissionPending,
               this`loopError, this`stopRequested, this`healthy, core
      ensures Coherent() && RingReady() && PollsOk()
      ensures TimesOut(old(core.State()), core.State(), order)
      ensures loopError.None? ==> ScanDone(old(core.armed), core.armed, next, now)
      ensures NoneDue(old(core.armed), now) ==>
                loopError.None? && ring == old(ring) && inflight == old(inflight) && order == []
      ensures if loopError.None? then healthy == old(healthy) && stopRequested == old(stopRequested)
              else !healthy && stopRequested
      ensures loopError.Some? ==> loopError.value == fault != 0
      ensures old(ring).cq <= ring.cq
    {
      hide TimesOut, LowerBound, PollsOk, TokensOk, Represents, Scanned, ScanDone, NoneDue, Timed, QueueOk, Numbered;
      ghost var s0 := core.State();
      order, next := [], None;
      TimesOutNothing(s0);
      ScanStart(waiters, core.armed, now);
      var rest := waiters.Keys;
      while rest != {}
        invariant rest <= waiters.Keys && Coherent() && RingReady() && PollsOk() && loopError.None?
        invariant healthy == old(healthy) && stopRequested == old(stopRequested)
        invariant TimesOut(s0, core.State(), order)
        invariant Scanned(s0.armed, core.armed, next, old(waiters).Keys - rest, now)
        invariant old(ring).cq <= ring.cq
        invariant NoneDue(s0.armed, now) ==>
                    ring == old(ring) && inflight == old(inflight) && order == [] && core.armed == s0.armed
        decreases rest
      {
        var fd := AnyOf(rest);
        ghost var s1 := core.State();
        NoneDueHere(s1.armed, now, fd);
        var more := ScanSlot(fd, now, fault);
        TimesOutMore(s0, s1, core.State(), order, more);
        order := order + more;
        if loopError.Some? { return; }
        ScanStep(waiters, s0.armed, s1.armed, core.armed, next, old(waiters).Keys, rest, fd, now);
        next := NextWith(next, waiters, fd);
        rest := rest - {fd};
      }
      ScanEnd(old(waiters), s0.armed, core.armed, next, now);
    }

    method CacheDeadline(next: Option<Time>)
      requires Coherent() && RingReady() && PollsOk() && loopError.None? && Earliest(next, core.armed)
      modifies this`nextDeadline, this`dirty
      ensures Valid() && nextDeadline == next
    {
      EarliestIsLowerBound(next, core.armed);
      nextDeadline := next;
      dirty := false;
    }

    /**
     * Time out every wait whose deadline has passed. The cached deadline may let the loop skip the
     * scan; either way exactly the waits are expired that a scan of all slots would expire.
     */
    method ProcessExpiredWaiters(now: Time, fault: int) returns (ghost order: seq<Key>)
      requires Valid() && loopError.None?
      modifies this`waiters, this`pending, this`timed, this`inflight, this`arms, this`ring, this`submissionPending,
               this`loopError, this`stopRequested, this`healthy, this`nextDeadline, this`dirty, core
      ensures Valid()
      ensures TimesOut(old(core.State()), core.State(), order)
      ensures loopError.None? ==> ExpiryDone(old(core.armed), core.armed, now)
      ensures NoneDue(old(core.armed), now) ==>
                loopError.None? && ring == old(ring) && inflight == old(inflight) && order == []
      ensures loopError.None? && old(healthy) ==> healthy && Earliest(nextDeadline, core.armed)
      ensures loopError.None? ==> stopRequested == old(stopRequested)
      ensures loopError.Some? ==> stopRequested && loopError.value == fault != 0
      ensures old(ring).cq <= ring.cq
    {
      order := [];
      if timed == 0 {
        TimesOutNothing(core.State());
        NothingTimed(core.armed, now);
        CacheDeadline(None);
      } else if !dirty && nextDeadline.Some? && now < nextDeadline.value {
        TimesOutNothing(core.State());
        SkipExpiresNothing(nextDeadline.value, core.armed, now);
      } else {
        order := ScanAndCache(now, fault);
      }
    }

    method ScanAndCache(now: Time, fault: int) returns (ghost order: seq<Key>)
      requires Coherent() && RingReady() && PollsOk() && loopError.None?
      modifies this`waiters, this`pending, this`timed, this`inflight, this`arms, this`ring, this`submissionPending,
               this`loopError, this`stopRequested, this`healthy, this`nextDeadline, this`dirty, core
      ensures Valid()
      ensures TimesOut(old(core.State()), core.State(), order)
      ensures loopError.None? ==> ExpiryDone(old(core.armed), core.armed, now)
      ensures NoneDue(old(core.armed), now) ==>
                loopError.None? && ring == old(ring) && inflight == old(inflight) && order == []
      ensures loopError.None? && old(healthy) ==> healthy && Earliest(nextDeadline, core.armed)
      ensures loopError.None? ==> stopRequested == old(stopRequested)
      ensures loopError.Some? ==> stopRequested && loopError.value == fault != 0
      ensures old(ring).cq <= ring.cq
    {
      hide TimesOut, LowerBound, PollsOk, Represents, TokensOk, NoneDue;
      var next;
      next, order := ScanSlots(now, fault);
      CacheIfDone(next, old(core.armed), now);
    }

    /** A scan that was not cut short leaves an exact cache. */
    method CacheIfDone(next: Option<Time>, ghost all: map<Key, Waiter>, ghost now: Time)
      requires Coherent() && RingReady() && PollsOk() && (loopError.Some? ==> !healthy)
      requires loopError.None? ==> ScanDone(all, core.armed, next, now)
      modifies this`nextDeadline, this`dirty
      ensures Valid()
      ensures loopError.None? ==> ExpiryDone(all, core.armed, now)
      ensures loopError.None? ==> Earliest(nextDeadline, core.armed)
    {
      if loopError.None? {
        CacheDeadline(next);
      }
    }

    /** Enter a wait and its token into the slot, the counters and the deadline cache. */
    method Enter(fd: int, d: Dir, w: Waiter, token: nat)
      modifies this`waiters, this`pending, this`timed, this`nextDeadline, this`dirty
      ensures waiters == old(waiters)[fd := Fill(SlotAt(old(waiters), fd), d, Some(w), token)]
      ensures pending == old(pending) + 1
      ensures timed == old(timed) + if w.deadline.Some? then 1 else 0
      ensures nextDeadline == Earlier(old(nextDeadline), w.deadline) && dirty
    {
      waiters := waiters[fd := Fill(SlotAt(waiters, fd), d, Some(w), token)];
      if w.deadline.Some? {
        timed := timed + 1;
        if nextDeadline.None? || w.deadline.value < nextDeadline.value {
          nextDeadline := w.deadline;
        }
      }
      dirty := true;
      pending := pending + 1;
    }

    /** Note the new token as in flight and queue its poll, or forget the token again. */
    method QueueNewPoll(token: nat, fd: int, d: Dir, fault: int) returns (r: Status)
      requires QueueOk() && token !in inflight && 0 < token
      requires if wrapped then armCount + 1 >= TOKEN_LIMIT - 2
               else token == armCount + 2 && nextToken == token + 1 && PollsAt(token)
      modifies this`inflight, this`arms, this`armCount, this`ring, this`submissionPending
      ensures QueueOk() && PollsOk() && armCount == old(armCount) + 1
      ensures r == Ok ==> inflight == old(inflight)[token := Key(fd, d)]
      ensures r == Ok ==> arms == old(arms)[token := Poll(fd, d, old(armCount))]
      ensures r == Ok ==> ring == Pushed(old(ring), PollAdd(token, Poll(fd, d, old(armCount))))
      ensures r.Err? ==> inflight == old(inflight) && arms == old(arms) && ring == old(ring)
      ensures fd >= 0 && r.Err? ==> r == Err(fault) && fault != 0
      ensures old(ring).cq <= ring.cq
    {
      ghost var poll := Poll(fd, d, armCount);
      if !wrapped {
        NewTokenIsUnseen(ring, inbox, arms, token, token);
        ArmKeeps(ring, inbox, arms, token, Live(), PollAdd(token, poll));
        LaterIsFine(ring, inbox, arms, token, token + 1);
        OwnMore(arms, inflight, wakeToken, wakeFd, token, poll);
        BelowLater(lost, token, token + 1);
        assert BelowAt(lost, token, token);
        assert arms[token := poll].Keys - lost == Live() + {token};
      }
      inflight := inflight[token := Key(fd, d)];
      r := QueuePollAdd(token, fd, d, armCount, fault);
      if r == Ok {
        arms := arms[token := poll];
      } else {
        inflight := inflight - {token};
        assert inflight == old(inflight);
      }
      armCount := armCount + 1;
    }

    /** Blank the registration that was entered into table `t` and count it out again. */
    method Blank(fd: int, d: Dir, deadline: Option<Time>, ghost t: Table)
      requires core.Valid() && Represents(t, core.armed) && TokensOk(t, inflight) && SlotAt(t, fd).Reg(d).None?
      requires LowerBound(nextDeadline, core.armed)
      requires fd in waiters && waiters == t[fd := waiters[fd]]
      requires Fill(waiters[fd], d, None, 0) == Fill(SlotAt(t, fd), d, None, 0)
      requires pending == |core.armed| + 1 && timed == |Timed(core.armed)| + if deadline.Some? then 1 else 0
      modifies this`waiters, this`pending, this`timed, this`dirty
      ensures Coherent() && TokensOk(waiters, inflight) && fd in waiters && dirty
    {
      if deadline.Some? && timed > 0 {
        timed := timed - 1;
      }
      BlankKeeps(t, core.armed, inflight, fd, d);
      UpdateTwice(t, fd, waiters[fd], Fill(SlotAt(t, fd), d, None, 0));
      waiters := waiters[fd := Fill(waiters[fd], d, None, 0)];
      dirty := true;
      if pending > 0 {
        pending := pending - 1;
      }
    }

    /** Take back a wait that was entered into table `t` but whose poll could not be queued. */
    method Withdraw(fd: int, d: Dir, deadline: Option<Time>, ghost t: Table)
      requires core.Valid() && Represents(t, core.armed) && TokensOk(t, inflight) && SlotAt(t, fd).Reg(d).None?
      requires LowerBound(nextDeadline, core.armed)
      requires fd in waiters && waiters == t[fd := waiters[fd]]
      requires Fill(waiters[fd], d, None, 0) == Fill(SlotAt(t, fd), d, None, 0)
      requires pending == |core.armed| + 1 && timed == |Timed(core.armed)| + if deadline.Some? then 1 else 0
      requires Numbered() && QueueOk() && PollsOk()
      requires loopError.Some? ==> !healthy
      modifies this`waiters, this`pending, this`timed, this`dirty
      ensures Valid()
    {
      Blank(fd, d, deadline, t);
      assert RingReady();
      EraseIfEmpty(fd);
    }

    /** The poll of the wait entered into table `t` is queued: its coroutine stays suspended. */
    method Confirm(fd: int, d: Dir, w: Waiter, token: nat, ghost t: Table)
      requires core.Valid() && Represents(t, core.armed) && Key(fd, d) !in core.armed
      requires waiters == t[fd := Fill(SlotAt(t, fd), d, Some(w), token)]
      requires pending == |core.armed| + 1 && timed == |Timed(core.armed)| + if w.deadline.Some? then 1 else 0
      requires LowerBound(nextDeadline, core.armed[Key(fd, d) := w])
      requires w.handle == core.running != NULL_HANDLE
      requires RingReady() && PollsOk() && dirty && (loopError.Some? ==> !healthy)
      modifies core
      ensures Valid()
      ensures Co.CanArm(old(core.State()), Key(fd, d))
      ensures core.State() == Co.Armed(old(core.State()), Key(fd, d), w.deadline, w.timeoutError)
    {
      ArmCounts(core.armed, Key(fd, d), w);
      FillRegistration(t, core.armed, fd, waiters[fd], d);
      core.SuspendOn(Key(fd, d), w.deadline, w.timeoutError);
    }

    /** A token for a new wait: nothing in the ring carries it, and it is the next number until the counter wraps. */
    method TakeToken() returns (token: nat)
      requires RingReady() && PollsOk() && |inflight| < TOKEN_LIMIT - 1
      modifies this`nextToken, this`wrapped
      ensures RingReady() && 0 < token < TOKEN_LIMIT && token !in inflight
      ensures if wrapped then armCount + 1 >= TOKEN_LIMIT - 2
              else token == armCount + 2 && nextToken == token + 1 && PollsAt(token)
      ensures !wrapped ==> !Pending(ring, inbox, token)
    {
      token := AllocateToken();
      if !old(wrapped) {
        NewTokenIsUnseen(ring, inbox, arms, old(nextToken), old(nextToken));
        assert OwnedAt(arms, inflight, wakeToken, old(nextToken));
        FirstIsFree(old(nextToken), token, inflight.Keys);
      }
    }

    /** Take a token and queue its poll, or leave ring and tokens in flight as they were. */
    method OpenPoll(fd: int, d: Dir, fault: int) returns (r: Status, token: nat)
      requires RingReady() && PollsOk() && |inflight| < TOKEN_LIMIT - 1
      modifies this`nextToken, this`wrapped, this`inflight, this`arms, this`armCount, this`ring, this`submissionPending
      ensures QueueOk() && PollsOk() && Numbered() && 0 < token < TOKEN_LIMIT && token !in old(inflight)
      ensures armCount == old(armCount) + 1
      ensures r.Err? ==> inflight == old(inflight) && ring == old(ring)
      ensures r == Ok ==> inflight == old(inflight)[token := Key(fd, d)]
      ensures r == Ok ==> ring == Pushed(old(ring), PollAdd(token, Poll(fd, d, old(armCount))))
      ensures r == Ok && !wrapped ==> !Pending(old(ring), inbox, token)
      ensures fd >= 0 && r.Err? ==> r == Err(fault) && fault != 0
      ensures old(ring).cq <= ring.cq
    {
      token := TakeToken();
      r := QueueNewPoll(token, fd, d, fault);
    }

    /**
     * Take a token for the wait, queue its poll and enter it; nothing can happen in between. `r` tells
     * whether the poll was queued.
     */
    method TryEnter(fd: int, d: Dir, w: Waiter, fault: int) returns (r: Status, token: nat)
      requires RingReady() && PollsOk() && SlotAt(waiters, fd).Reg(d).None? && |inflight| < TOKEN_LIMIT - 1
      modifies this`waiters, this`pending, this`timed, this`nextDeadline, this`dirty, this`nextToken, this`wrapped,
               this`inflight, this`arms, this`armCount, this`ring, this`submissionPending
      ensures dirty && nextDeadline == Earlier(old(nextDeadline), w.deadline)
      ensures pending == old(pending) + 1 && timed == old(timed) + if w.deadline.Some? then 1 else 0
      ensures waiters == old(waiters)[fd := Fill(SlotAt(old(waiters), fd), d, Some(w), token)]
      ensures QueueOk() && PollsOk() && Numbered()
      ensures r == Ok ==> TokensOk(waiters, inflight)
      ensures r.Err? ==> inflight == old(inflight) && ring == old(ring)
      ensures armCount == old(armCount) + 1
      ensures r == Ok ==> ring == Pushed(old(ring), PollAdd(token, Poll(fd, d, old(armCount))))
      ensures r == Ok && !wrapped ==> !Pending(old(ring), inbox, token)
      ensures fd >= 0 && r.Err? ==> r == Err(fault) && fault != 0
      ensures old(ring).cq <= ring.cq
    {
      ghost var before := inflight;
      r, token := OpenPoll(fd, d, fault);
      if r == Ok { FillKeepsTokens(waiters, before, fd, d, w, token); }
      Enter(fd, d, w, token);
    }

    /** Arm a wait, or leave the abstract scheduler and the ring as they were. */
    method Register(fd: int, d: Dir, deadline: Option<Time>, timeoutError: int, fault: int) returns (r: Status)
      requires Valid() && core.running != NULL_HANDLE && Key(fd, d) !in core.armed && |inflight| < TOKEN_LIMIT - 1
      modifies this`waiters, this`pending, this`timed, this`nextDeadline, this`dirty, this`nextToken, this`wrapped,
               this`inflight, this`arms, this`armCount, this`ring, this`submissionPending, core
      ensures Valid()
      ensures r.Err? ==> core.State() == old(core.State()) && ring == old(ring) && inflight == old(inflight)
      ensures r == Ok ==> Co.CanArm(old(core.State()), Key(fd, d))
      ensures r == Ok ==> core.State() == Co.Armed(old(core.State()), Key(fd, d), deadline, timeoutError)
      ensures r == Ok ==> fd in waiters && Polled(old(ring), ring, TokenOf(waiters[fd], d), Poll(fd, d, old(armCount)))
      ensures armCount == old(armCount) + 1
      ensures fd >= 0 && r.Err? ==> r == Err(fault) && fault != 0
      ensures old(ring).cq <= ring.cq
    {
      hide TokensOk, PollsOk, LowerBound, Timed, QueueOk;
      ghost var t := waiters;
      var w := Waiter(core.running, deadline, timeoutError);
      assert RepresentsAt(t, core.armed, fd, d);
      LowerBoundAfterArm(nextDeadline, core.armed, Key(fd, d), w);
      var token;
      r, token := TryEnter(fd, d, w, fault);
      if r == Ok {
        Confirm(fd, d, w, token, t);
      } else {
        Withdraw(fd, d, deadline, t);
      }
    }

    /**
     * `arm_waiter` for the running coroutine `h`: errors leave the abstract scheduler unchanged, a
     * timeout that is not positive is reported without arming, anything else is armed.
     */
    method ArmWaiter(fd: int, h: Handle, d: Dir, timeoutMs: Option<int>, timeoutError: int, now: Time, fault: int)
      returns (r: Status)
      requires Valid() && core.running != NULL_HANDLE && (h != NULL_HANDLE ==> h == core.running)
      requires |inflight| < TOKEN_LIMIT - 1
      modifies this`waiters, this`pending, this`timed, this`nextDeadline, this`dirty, this`nextToken, this`wrapped,
               this`inflight, this`arms, this`armCount, this`ring, this`submissionPending, core
      ensures Valid()
      ensures r.Err? ==> core.State() == old(core.State()) && ring == old(ring) && inflight == old(inflight)
      ensures old(armCount) <= armCount <= old(armCount) + 1
      ensures initError.Some? ==> r == Err(initError.value)
      ensures initError.None? && (fd < 0 || h == NULL_HANDLE) ==> r == Err(EBADF)
      ensures var usable := initError.None? && fd >= 0 && h != NULL_HANDLE;
              var key, spent := Key(fd, d), timeoutMs.Some? && timeoutMs.value <= 0;
              && (usable && spent ==> (
                    && r == Ok && old(core.running) in old(core.frames)
                    && Answered(old(core.State()), core.State(), Err(timeoutError))
                    && core.State() == Co.TimedOutAtOnce(old(core.State()), key, timeoutError)))
              && (usable && !spent && key in old(core.armed) ==> r == Err(EBUSY))
              && (usable && !spent && r == Ok ==> (
                    && Co.CanArm(old(core.State()), key)
                    && Suspended(old(core.State()), core.State(), key, timeoutMs, timeoutError, now)
                    && core.State() == Co.Armed(old(core.State()), key, DeadlineOf(timeoutMs, now), timeoutError)
                    && fd in waiters
                    && Polled(old(ring), ring, TokenOf(waiters[fd], d), Poll(fd, d, old(armCount)))))
              && (usable && !spent && key !in old(core.armed) && r.Err? ==> r == Err(fault) && fault != 0)
      ensures old(ring).cq <= ring.cq
    {
      if initError.Some? { return Err(initError.value); }
      if fd < 0 || h == NULL_HANDLE { return Err(EBADF); }
      if timeoutMs.Some? && timeoutMs.value <= 0 {
        ghost var s := core.State();
        core.TimeOutAtOnce(Key(fd, d), timeoutError);
        SpentIsAnswered(s, Key(fd, d), timeoutError);
        return Ok;
      }
      assert RepresentsAt(waiters, core.armed, fd, d);
      if fd in waiters && waiters[fd].Reg(d).Some? { return Err(EBUSY); }
      ghost var s := core.State();
      r := Register(fd, d, DeadlineOf(timeoutMs, now), timeoutError, fault);
      if r == Ok { ArmedIsSuspended(s, Key(fd, d), timeoutMs, timeoutError, now); }
    }

    /** Queue and submit the wake poll; if only the submit fails, the poll stays queued. */
    method RenewWakePoll(fault: int) returns (r: Status)
      requires RingReady() && PollsOk()
      modifies this`ring, this`submissionPending, this`lost
      ensures RingReady() && PollsOk()
      ensures r == Ok ==> ring.sq == [] && wakeToken in ring.polls && ring.polls[wakeToken] == WakePoll()
      ensures r == Ok ==> lost == old(lost) - {wakeToken}
      ensures wakeToken in lost || Pending(ring, [], wakeToken)
      ensures lost <= old(lost) + {wakeToken}
      ensures r.Err? && wakeFd >= 0 ==> r == Err(fault) && fault != 0
      ensures old(ring).cq <= ring.cq
    {
      ghost var e := PollAdd(wakeToken, WakePoll());
      ghost var live := Live();
      PushedIsPending(ring, e);
      LastIsOutstanding(Pushed(ring, e), e);
      if !wrapped {
        assert ArmAt(arms, nextToken, wakeToken);
        PushKeeps(ring, inbox, arms, nextToken, live, e);
        SubmitKeeps(Pushed(ring, e), inbox, arms, nextToken, live);
      }
      r := QueuePollAdd(wakeToken, wakeFd, Read, 0, fault);
      ghost var queued := r == Ok;
      if r == Ok {
        r := FlushSubmissions(fault);
      }
      NoteRenewal(queued, live);
    }

    /** Record whether the wake poll is to be counted on. */
    ghost method NoteRenewal(renewed: bool, live: set<nat>)
      requires live == Live() && (renewed ==> Pending(ring, [], wakeToken))
      requires if wrapped then armCount >= TOKEN_LIMIT - 2 else nextToken == armCount + 2
      requires !wrapped ==> RingOk(ring, inbox, arms, nextToken) && NoneStranded(ring, inbox, live)
      requires !wrapped ==> Owned(arms, inflight, wakeToken, wakeFd) && Below(lost, nextToken)
      modifies this`lost
      ensures PollsOk() && lost == if renewed then old(lost) - {wakeToken} else old(lost) + {wakeToken}
    {
      lost := if renewed then lost - {wakeToken} else lost + {wakeToken};
      if !wrapped {
        assert wakeToken in arms && ArmAt(arms, nextToken, wakeToken);
        BelowOne(old(lost), wakeToken, nextToken);
        BelowFewer(old(lost) + {wakeToken}, lost, nextToken);
        assert Live() == if renewed then live + {wakeToken} else live - {wakeToken};
        forall t | t in Live() ensures Pending(ring, inbox, t) {
          if t in live { assert Pending(ring, inbox, t); }
        }
      }
    }

    /**
     * The wake poll has fired: drain the wake descriptor and, unless stopping, poll it again. Afterwards
     * the poll is outstanding, or a stop has been requested.
     */
    method Rearm(fault: int)
      requires RingReady() && PollsOk() && loopError.None?
      modifies this`ring, this`submissionPending, this`loopError, this`stopRequested, this`healthy, this`lost
      ensures RingReady() && PollsOk()
      ensures if loopError.None? then healthy == old(healthy) && stopRequested == old(stopRequested)
              else !healthy && stopRequested
      ensures !stopRequested ==> ring.sq == [] && wakeToken in ring.polls && ring.polls[wakeToken] == WakePoll()
      ensures !stopRequested ==> lost == old(lost) - {wakeToken}
      ensures wakeToken in lost || Pending(ring, [], wakeToken)
      ensures lost <= old(lost) + {wakeToken}
      ensures Blames(fault)
      ensures old(ring).cq <= ring.cq
    {
      if stopRequested {
        SkipWakePoll();
        return;
      }
      var r := RenewWakePoll(fault);
      if r.Err? {
        loopError := Some(r.code);
        stopRequested := true;
        healthy := false;
      }
    }

    /** A stopping loop does not poll its wake descriptor again. */
    ghost method SkipWakePoll()
      requires PollsOk()
      modifies this`lost
      ensures PollsOk() && lost == old(lost) + {wakeToken}
    {
      NoteRenewal(false, Live());
    }

    /** The cache is stale if the wait that was released had a deadline. */
    method MarkDirty(timedWait: bool, ghost was: bool)
      requires Coherent() && RingReady() && PollsOk() && (loopError.Some? ==> !healthy)
      requires (healthy ==> was) && (was ==> CacheOk(nextDeadline, dirty || timedWait, core.armed))
      modifies this`dirty
      ensures Valid()
    {
      if timedWait {
        dirty := true;
      }
    }

    /** Release an armed wait that is ready; the deadline cache is stale if it was a timed one. */
    method Serve(fd: int, d: Dir, status: Status)
      requires Valid() && fd in waiters && waiters[fd].Reg(d).Some?
      modifies this`waiters, this`pending, this`timed, this`inflight, this`arms, this`dirty, core
      ensures Valid() && fd in waiters
      ensures inflight == old(inflight) - {TokenOf(old(waiters[fd]), d)}
      ensures Co.CanResolve(old(core.State()), Key(fd, d))
      ensures core.State() == Co.Resolved(old(core.State()), Key(fd, d), status)
    {
      assert RepresentsAt(waiters, core.armed, fd, d);
      ghost var was := CacheOk(nextDeadline, dirty, core.armed);
      DisarmKeepsCache(nextDeadline, dirty, core.armed, Key(fd, d));
      var timedWait := waiters[fd].Reg(d).value.deadline.Some?;
      var _ := Release(fd, d, status);
      MarkDirty(timedWait, was);
    }

    /** The completion belongs to an armed wait: wake it with the outcome of its poll. */
    method Complete(c: Cqe)
      requires Valid() && Meant(c.token, wakeToken, inflight)
      modifies this`waiters, this`pending, this`timed, this`inflight, this`arms, this`dirty, core
      ensures Valid() && Processed(c, wakeToken, old(core.State()), core.State(), old(inflight), inflight)
    {
      var key := inflight[c.token];
      assert HasOwner(waiters, inflight, c.token);
      if key.fd !in waiters {
        assert false;          // the source would return: no slot for an in-flight token
      }
      if waiters[key.fd].Reg(key.dir).None? || TokenOf(waiters[key.fd], key.dir) != c.token {
        assert false;          // the source would return: registration gone or re-armed
      }
      var status := if c.result >= 0 then Ok else Err(-c.result);
      Serve(key.fd, key.dir, status);
      EraseIfEmpty(key.fd);
    }

    /** What a completion stands for: the wake poll, an armed wait, or nothing any more. */
    method Dispatch(c: Cqe, fault: int)
      requires Valid() && loopError.None? && inbox != [] && inbox[0] == c
      modifies this`waiters, this`pending, this`timed, this`inflight, this`arms, this`dirty, this`ring,
               this`submissionPending, this`loopError, this`stopRequested, this`healthy, this`lost, core
      ensures Valid() && (!wrapped ==> c.token in Live() ==> Pending(ring, inbox[1..], c.token))
      ensures Blames(fault) && LostSince(old(lost))
      ensures Processed(c, wakeToken, old(core.State()), core.State(), old(inflight), inflight)
      ensures if loopError.None? then healthy == old(healthy) && stopRequested == old(stopRequested)
              else !healthy && stopRequested
      ensures old(ring).cq <= ring.cq
    {
      hide Processed, LowerBound, PollsOk, TokensOk, Represents;
      if c.token == wakeToken {
        NotProcessed(c, wakeToken, core.State(), inflight);
        Wakeup(fault);
        return;
      }
      Deliver(c);
    }

    /** A completion that is not the wake poll's: resolve the wait it is for, if there is one. */
    method Deliver(c: Cqe)
      requires Valid() && c.token != wakeToken
      modifies this`waiters, this`pending, this`timed, this`inflight, this`arms, this`dirty, core
      ensures Valid() && (!wrapped ==> c.token !in Live())
      ensures Processed(c, wakeToken, old(core.State()), core.State(), old(inflight), inflight)
    {
      hide Processed;
      if c.token != 0 && c.token in inflight {
        Complete(c);
      } else {
        NotProcessed(c, wakeToken, core.State(), inflight);
      }
      assert HasOwner(waiters, inflight, c.token);
      assert !wrapped ==> OwnedAt(arms, inflight, wakeToken, c.token);
    }

    /** The first completion of the inbox is that of the wake poll. */
    method Wakeup(fault: int)
      requires Valid() && loopError.None? && inbox != [] && inbox[0].token == wakeToken
      modifies this`ring, this`submissionPending, this`loopError, this`stopRequested, this`healthy, this`lost
      ensures Valid() && (wakeToken in Live() ==> Pending(ring, inbox[1..], wakeToken))
      ensures Blames(fault) && LostSince(old(lost))
      ensures if loopError.None? then healthy == old(healthy) && stopRequested == old(stopRequested)
              else !healthy && stopRequested
      ensures old(ring).cq <= ring.cq
    {
      Rearm(fault);
    }

    ghost method PopCompletion()
      requires Valid() && inbox != []
      requires !wrapped ==> inbox[0].token in Live() ==> Pending(ring, inbox[1..], inbox[0].token)
      modifies this`inbox
      ensures Valid() && inbox == old(inbox)[1..]
    {
      if !wrapped { ForgetKeeps(ring, inbox, arms, nextToken, Live()); }
      inbox := inbox[1..];
    }

    /**
     * Process the first completion of the inbox. A completion whose token is no longer in flight
     * changes nothing, and until the token counter wraps a completion only ever resumes the wait
     * whose own arming queued that poll. The coroutine is told success, or the errno the poll failed with.
     */
    method ProcessCompletion(c: Cqe, fault: int)
      requires Valid() && loopError.None? && inbox != [] && inbox[0] == c
      modifies this`waiters, this`pending, this`timed, this`inflight, this`arms, this`dirty, this`ring,
               this`submissionPending, this`loopError, this`stopRequested, this`healthy, this`inbox, this`lost, core
      ensures Valid() && inbox == old(inbox)[1..]
      ensures Processed(c, wakeToken, old(core.State()), core.State(), old(inflight), inflight)
      ensures Meant(c.token, wakeToken, old(inflight)) && !wrapped ==>
                c.token in old(arms) && old(arms)[c.token] == c.poll && Key(c.poll.fd, c.poll.dir) == old(inflight)[c.token]
      ensures if loopError.None? then healthy == old(healthy) && stopRequested == old(stopRequested)
              else !healthy && stopRequested
      ensures Blames(fault) && LostSince(old(lost))
      ensures old(ring).cq <= ring.cq
    {
      hide Processed, LowerBound, NoneStranded;
      assert !wrapped ==> CqeAt(arms, nextToken, inbox, 0) && OwnedAt(arms, inflight, wakeToken, c.token);
      Dispatch(c, fault);
      PopCompletion();
    }

    /** A poll fires in the kernel at a moment of its own choosing. */
    method KernelFires(token: nat, result: int)
      requires Valid()
      modifies this`ring
      ensures Valid() && ring == if token in old(ring).polls then Fired(old(ring), token, result) else old(ring)
    {
      if token in ring.polls {
        if !wrapped { FireKeeps(ring, inbox, arms, nextToken, Live(), token, result); }
        ring := Fired(ring, token, result);
      }
    }

    /** How long to block: never beyond an armed deadline, for ever only if there is none, and not in vain. */
    method ChooseTimeout(now: Time) returns (limit: Option<int>)
      requires Valid()
      ensures BlocksNoLongerThan(limit, core.armed, now) && BlocksUntil(limit, nextDeadline, now)
    {
      BoundedBlocking(nextDeadline, core.armed, now);
      LimitIsThatOfTheDeadline(nextDeadline, now);
      limit := UringLimit(nextDeadline, now);
    }

    /** `reactor::wait` collects up to 64 completions. It is only entered with nothing unsubmitted. */
    method Wait(n: nat, limit: Option<int>, ghost now: Time) returns (completions: seq<Cqe>)
      requires Valid() && inbox == [] && ring.sq == [] && BlocksNoLongerThan(limit, core.armed, now)
      requires BlocksUntil(limit, nextDeadline, now)
      modifies this`ring, this`inbox
      ensures Valid() && inbox == completions && Collected(old(ring), n, completions)
      ensures completions + ring.cq == old(ring).cq && ring == old(ring).(cq := ring.cq)
    {
      var k := if n < MAX_COMPLETIONS then n else MAX_COMPLETIONS;
      if k > |ring.cq| { k := |ring.cq|; }
      completions := ring.cq[..k];
      Collect(k);
    }

    /** The first k completions move into the batch. */
    method Collect(k: nat)
      requires Valid() && inbox == [] && k <= |ring.cq|
      modifies this`ring, this`inbox
      ensures Valid() && inbox == old(ring).cq[..k] && ring == old(ring).(cq := old(ring).cq[k..])
    {
      if !wrapped { CollectKeeps(ring, arms, nextToken, Live(), k); }
      inbox := ring.cq[..k];
      ring := ring.(cq := ring.cq[k..]);
    }

    method Stop()
      modifies this`stopRequested
      ensures stopRequested
    {
      stopRequested := true;
    }

    /**
     * The running coroutine waits for a descriptor. Only with all tokens in flight, which takes as many waits,
     * would the search for a token not end; the model then makes no call.
     */
    method WaitOn(a: Action, ghost terms: Terms)
      requires Valid() && core.running != NULL_HANDLE && a.WaitFor? && TermsOk(terms, 1)
      modifies this`waiters, this`pending, this`timed, this`nextDeadline, this`dirty, this`nextToken, this`wrapped,
               this`inflight, this`arms, this`armCount, this`ring, this`submissionPending, core
      ensures Valid() && Performed(old(core.State()), core.State(), a, terms)
      ensures armCount <= old(armCount) + 1
      ensures old(ring).cq <= ring.cq
    {
      hide Suspended, Answered, Polled, LowerBound;
      if terms.sure && !wrapped { TokensAreLeft(arms, inflight, wakeToken, wakeFd, ring, inbox, nextToken); }
      if |inflight| < TOKEN_LIMIT - 1 {
        var _ := ArmWaiter(a.fd, core.running, a.dir, a.timeoutMs, a.timeoutError, a.now, a.fault);
      } else if initError.None? && a.fd >= 0 && Spent(a.timeoutMs) {
        core.TimeOutAtOnce(Key(a.fd, a.dir), a.timeoutError);
      }
    }

    /** On these terms the loop takes the next n waits: before the token counter wraps it refuses none by itself. */
    ghost predicate TermsOk(terms: Terms, n: nat)
      reads this`armCount
    {
      terms.usable == initError.None? && terms.own < 0 && (terms.sure ==> armCount + n < TOKEN_LIMIT - 1)
    }

    /** One call of the running coroutine into the runtime; a call it could not make is skipped. */
    method Perform(a: Action, ghost terms: Terms)
      requires Valid() && core.running != NULL_HANDLE && TermsOk(terms, 1)
      modifies this`waiters, this`pending, this`timed, this`nextDeadline, this`dirty, this`nextToken, this`wrapped,
               this`inflight, this`arms, this`armCount, this`ring, this`submissionPending, this`stopRequested, core
      ensures Valid() && Performed(old(core.State()), core.State(), a, terms)
      ensures armCount <= old(armCount) + 1
      ensures stopRequested == (old(stopRequested) || a.StopLoop?)
      ensures old(ring).cq <= ring.cq
    {
      match a {
        case WaitFor(_, _, _, _, _, _) =>
          WaitOn(a, terms);
        case StopLoop =>
          Stop();
        case _ =>
          core.Act(a, terms);
      }
    }

    /** The running coroutine makes the calls of its script until it suspends; it makes `n` of them. */
    method RunScript(script: seq<Action>, ghost terms: Terms) returns (ghost n: nat)
      requires Valid() && core.running != NULL_HANDLE && TermsOk(terms, |script|)
      modifies this`waiters, this`pending, this`timed, this`nextDeadline, this`dirty, this`nextToken, this`wrapped,
               this`inflight, this`arms, this`armCount, this`ring, this`submissionPending, this`stopRequested, core
      ensures Valid() && Leads(old(core.State()), core.State(), 0)
      ensures n <= |script| && After(old(core.State()), core.State(), script, n, terms)
      ensures core.running != NULL_HANDLE ==> n == |script|
      ensures armCount <= old(armCount) + |script|
      ensures stopRequested == (old(stopRequested) || StopLoop in script[..n])
      ensures old(ring).cq <= ring.cq
    {
      hide Leads, Performed, LowerBound;
      ghost var s0 := core.State();
      LeadsSelf(s0);
      var i := 0;
      while i < |script| && core.running != NULL_HANDLE
        invariant i <= |script| && armCount <= old(armCount) + i
        invariant Valid() && Leads(s0, core.State(), 0)
        invariant After(s0, core.State(), script, i, terms) && old(ring).cq <= ring.cq
        invariant stopRequested == (old(stopRequested) || StopLoop in script[..i])
      {
        ghost var s1 := core.State();
        Perform(script[i], terms);
        PerformedLeads(s1, core.State(), script[i], terms);
        LeadsOn(s0, s1, core.State(), 0, 0);
        AfterMore(s0, s1, core.State(), script, i, terms);
        OneMoreCall(script, i, StopLoop);
        i := i + 1;
      }
      n := i;
    }

    /** The terms for the next n calls. */
    ghost function Offers(n: nat): Terms
      reads this`armCount
    {
      Terms(initError.None?, armCount + n < TOKEN_LIMIT - 1, -1)
    }

    /** Resume the front of the queue and let it run until it suspends or returns. */
    method ResumeNext(script: seq<Action>) returns (ghost n: nat)
      requires Valid() && core.running == NULL_HANDLE && core.ready != []
      modifies this`waiters, this`pending, this`timed, this`nextDeadline, this`dirty, this`nextToken, this`wrapped,
               this`inflight, this`arms, this`armCount, this`ring, this`submissionPending, this`stopRequested, core
      ensures Valid() && core.running == NULL_HANDLE
      ensures Co.CanResume(old(core.State())) && Leads(Co.Resumed(old(core.State())), core.State(), 0)
      ensures Ran(Co.Resumed(old(core.State())), core.State(), script, n, old(Offers(|script|))) && n <= |script|
      ensures armCount <= old(armCount) + |script|
      ensures stopRequested == (old(stopRequested) || StopLoop in script[..n])
      ensures old(ring).cq <= ring.cq
    {
      hide Leads, After, LowerBound;
      ghost var terms := Offers(|script|);
      var status := core.ResumeFront();
      ghost var s0 := core.State();
      n := RunScript(script, terms);
      ghost var s1 := core.State();
      if core.running != NULL_HANDLE {
        core.FinishTurn(s0);
      }
      AllOrSuspended(s0, s1, core.State(), script, n, terms);
    }

    /** What the environment does during one turn: polls fire and threads call stop(). */
    method LetTimePass(t: Turn)
      requires Valid()
      modifies this`ring, this`stopRequested
      ensures Valid() && stopRequested == (old(stopRequested) || t.stop) && ring == AfterFires(old(ring), t.fires)
      ensures old(ring).cq <= ring.cq
    {
      for i := 0 to |t.fires|
        invariant Valid() && stopRequested == old(stopRequested) && ring == AfterFires(old(ring), t.fires[..i])
      {
        assert t.fires[..i + 1][..i] == t.fires[..i];
        KernelFires(t.fires[i].0, t.fires[i].1);
      }
      assert t.fires[..|t.fires|] == t.fires;
      if t.stop {
        Stop();
      }
    }

    /** Resume the front of the queue and reap finished roots; `ran` is what the coroutine left behind. */
    method ResumeAndReap(script: seq<Action>) returns (ghost ran: Co.Sys, ghost n: nat)
      requires Valid() && core.running == NULL_HANDLE && core.ready != []
      modifies this`waiters, this`pending, this`timed, this`nextDeadline, this`dirty, this`nextToken, this`wrapped,
               this`inflight, this`arms, this`armCount, this`ring, this`submissionPending, this`stopRequested, core
      ensures Valid() && core.running == NULL_HANDLE && core.RootsReaped()
      ensures Co.CanResume(old(core.State())) && Leads(Co.Resumed(old(core.State())), core.State(), 0)
      ensures Ran(Co.Resumed(old(core.State())), ran, script, n, old(Offers(|script|))) && n <= |script|
      ensures core.armed == ran.armed && core.ready == ran.ready
      ensures armCount <= old(armCount) + |script|
      ensures stopRequested == (old(stopRequested) || StopLoop in script[..n])
      ensures old(ring).cq <= ring.cq
    {
      hide Leads, Ran, LowerBound;
      ghost var s0 := core.State();
      var stale := core.FrontIsStale();
      if stale {
        assert false;          // the loop would skip a finished coroutine; there is none to skip
      }
      n := ResumeNext(script);
      ran := core.State();
      Reap();
      LeadsOn(Co.Resumed(s0), ran, core.State(), 0, 0);
    }

    /** Meanwhile time passes; expire what has become due. */
    method ExpireInTurn(t: Turn)
      requires Valid() && loopError.None?
      modifies this`waiters, this`pending, this`timed, this`inflight, this`arms, this`ring, this`submissionPending,
               this`loopError, this`stopRequested, this`healthy, this`nextDeadline, this`dirty, core
      ensures Valid() && core.running == old(core.running)
      ensures loopError.Some? ==> stopRequested && FailsIn(t, loopError.value)
      ensures loopError.None? ==> stopRequested == (old(stopRequested) || t.stop)
      ensures Leads(old(core.State()), core.State(), 0) && old(core.ready) <= core.ready
      ensures loopError.None? ==>
                && ExpiryDone(old(core.armed), core.armed, t.now) && NoneDue(core.armed, t.now)
                && AllTimedOut(old(core.State()), core.State(), t.now)
      ensures KeepsHealth(old(healthy))
      ensures old(ring).cq <= ring.cq
    {
      LetTimePass(t);
      ghost var s := core.State();
      var order := ProcessExpiredWaiters(t.now, t.submitFault);
      TimesOutLeads(s, core.State(), order);
      if loopError.None? {
        DueAreTold(s, core.State(), order, t.now);
        NoneDueAnyMore(s.armed, core.armed, t.now);
      }
    }

    /**
     * One turn of the inner loop of run(): the front of the queue runs its script, then what is due by now
     * times out. `ran` is what the coroutine left behind.
     */
    method ResumeAndExpire(t: Turn) returns (ghost ran: Co.Sys, ghost n: nat)
      requires Valid() && core.running == NULL_HANDLE && core.ready != [] && loopError.None?
      modifies this`waiters, this`pending, this`timed, this`nextDeadline, this`dirty, this`nextToken, this`wrapped,
               this`inflight, this`arms, this`armCount, this`ring, this`submissionPending, this`stopRequested,
               this`loopError, this`healthy, core
      ensures Valid() && core.running == NULL_HANDLE
      ensures loopError.Some? ==> stopRequested && FailsIn(t, loopError.value)
      ensures Co.CanResume(old(core.State())) && Leads(Co.Resumed(old(core.State())), core.State(), 0)
      ensures Ran(Co.Resumed(old(core.State())), ran, t.script, n, old(Offers(|t.script|))) && ran.ready <= core.ready
      ensures loopError.None? ==> ExpiryDone(ran.armed, core.armed, t.now) && NoneDue(core.armed, t.now)
      ensures loopError.None? ==> stopRequested == (old(stopRequested) || t.stop || StopLoop in t.script[..n])
      ensures loopError.None? && stopRequested ==> old(stopRequested) || Asks(t)
      ensures KeepsHealth(old(healthy))
      ensures armCount <= old(armCount) + |t.script|
      ensures old(ring).cq <= ring.cq
    {
      hide Leads, Ran, LowerBound, ExpiryDone, NoneDue, PollsOk, TokensOk, Represents, AllTimedOut, FailsIn;
      ghost var s0 := core.State();
      ran, n := ResumeAndReap(t.script);
      ghost var s1 := core.State();
      ExpireInTurn(t);
      LeadsOn(Co.Resumed(s0), s1, core.State(), 0, 0);
      if StopLoop in t.script[..n] { PartOfScript(t.script, n, StopLoop); }
    }

    /** The same, seen from the queue: one coroutine was resumed. */
    method ResumeTurn(t: Turn)
      requires Valid() && core.running == NULL_HANDLE && core.ready != [] && loopError.None?
      modifies this`waiters, this`pending, this`timed, this`nextDeadline, this`dirty, this`nextToken, this`wrapped,
               this`inflight, this`arms, this`armCount, this`ring, this`submissionPending, this`stopRequested,
               this`loopError, this`healthy, core
      ensures Valid() && core.running == NULL_HANDLE
      ensures loopError.Some? ==> stopRequested && FailsIn(t, loopError.value)
      ensures Drained(old(core.State()), core.State(), 0, 1)
      ensures loopError.None? ==> NoneDue(core.armed, t.now)
      ensures t.stop ==> stopRequested
      ensures loopError.None? && stopRequested ==> old(stopRequested) || Asks(t)
      ensures KeepsHealth(old(healthy))
      ensures armCount <= old(armCount) + |t.script|
      ensures old(ring).cq <= ring.cq
    {
      hide Leads, Ran, LowerBound, ExpiryDone, NoneDue;
      ghost var s := core.State();
      var _, _ := ResumeAndExpire(t);
      ResumeLeads(s, core.State(), 0);
    }

    method Reap()
      requires Valid()
      modifies core
      ensures Valid() && Leads(old(core.State()), core.State(), 0) && core.RootsReaped()
      ensures core.ready == old(core.ready) && core.running == old(core.running) && core.armed == old(core.armed)
      ensures core.active == old(core.active)
    {
      hide Leads;
      core.ReapRoots();
    }

    /** The stop flag is set only by an error, or if a turn from i to j asked for it. */
    ghost predicate StopsFor(was: bool, env: seq<Turn>, i: nat, j: nat)
      reads this`loopError, this`stopRequested
    {
      stopRequested && loopError.None? ==> was || AskedIn(env, i, j)
    }

    /**
     * The inner loop of run(): resume what is queued, one coroutine a turn, until nothing is left or the loop
     * has to end. After a turn in which stop() is called it ends at once. `at` is the last turn taken.
     */
    method DrainReadyQueue(env: seq<Turn>, from: nat) returns (next: nat, ghost at: nat)
      requires Valid() && core.running == NULL_HANDLE && loopError.None? && 0 < from <= |env|
      requires NoneDue(core.armed, env[from - 1].now)
      modifies this`waiters, this`pending, this`timed, this`nextDeadline, this`dirty, this`nextToken, this`wrapped,
               this`inflight, this`arms, this`armCount, this`ring, this`submissionPending, this`stopRequested,
               this`loopError, this`healthy, core
      ensures Valid() && core.running == NULL_HANDLE && from <= next <= |env|
      ensures loopError.Some? ==> stopRequested
      ensures ErrorFrom(env)
      ensures core.ready == [] || stopRequested || next == |env|
      ensures Drained(old(core.State()), core.State(), from, next)
      ensures old(core.ready) != [] && !old(stopRequested) && from < |env| ==> next > from
      ensures old(core.ready) == [] ==> next == from
      ensures next == from ==> ring == old(ring) && inflight == old(inflight)
      ensures next == from ==> stopRequested == old(stopRequested) && loopError.None?
      ensures at + 1 == next && (loopError.None? ==> NoneDue(core.armed, env[at].now))
      ensures StopsFor(old(stopRequested), env, from, next)
      ensures Quiet(env, from, at)
      ensures KeepsHealth(old(healthy))
      ensures armCount <= old(armCount) + CallsIn(env, from, next)
      ensures old(ring).cq <= ring.cq
    {
      hide Leads, NoneDue, LowerBound, PollsOk, Represents, FailsIn;
      next, at := from, from - 1;
      ghost var s0 := core.State();
      LeadsSelf(s0);
      while core.ready != [] && !stopRequested && next < |env|
        invariant Valid() && core.running == NULL_HANDLE && from <= next <= |env|
        invariant loopError.Some? ==> stopRequested
        invariant KeepsHealth(old(healthy))
        invariant armCount <= old(armCount) + CallsIn(env, from, next)
        invariant ErrorFrom(env)
        invariant Drained(s0, core.State(), from, next)
        invariant next == from ==> ring == old(ring) && inflight == old(inflight)
        invariant next == from ==> stopRequested == old(stopRequested) && loopError.None?
        invariant at + 1 == next && (loopError.None? ==> NoneDue(core.armed, env[at].now))
        invariant StopsFor(old(stopRequested), env, from, next)
        invariant Quiet(env, from, at) && old(ring).cq <= ring.cq
        invariant next > from && env[at].stop ==> stopRequested
        decreases |env| - next
      {
        ghost var s := core.State();
        QuietMore(env, from, at);
        ResumeTurn(env[next]);
        at := next;
        DrainedMore(s0, s, core.State(), from, next);
        AskedMore(env, from, next, next + 1);
        next := next + 1;
      }
    }

    /** Process completion i of a batch; `order` and `statuses` tell who was told what before, the results by then. */
    method ServeCompletion(cs: seq<Cqe>, i: nat, fault: int, ghost s: Co.Sys, ghost held: Inflight,
                           ghost order: seq<Key>, ghost statuses: seq<Status>)
      returns (ghost told: seq<Key>, ghost outcomes: seq<Status>)
      requires Valid() && loopError.None? && i < |cs| && inbox == cs[i..]
      requires Woke(s, core.State(), order, statuses) && Answers(cs, i, held, inflight, wakeToken, order, statuses)
      modifies this`waiters, this`pending, this`timed, this`inflight, this`arms, this`dirty, this`ring,
               this`submissionPending, this`loopError, this`stopRequested, this`healthy, this`inbox, this`lost, core
      ensures Valid() && inbox == cs[i + 1..]
      ensures if loopError.None? then healthy == old(healthy) && stopRequested == old(stopRequested) else stopRequested
      ensures Woke(s, core.State(), told, outcomes) && Answers(cs, i + 1, held, inflight, wakeToken, told, outcomes)
      ensures Blames(fault) && LostSince(old(lost))
      ensures old(ring).cq <= ring.cq
    {
      hide Woke, Answers, LowerBound, PollsOk, Represents, Processed;
      ghost var before, tokens := core.State(), inflight;
      assert cs[i..][0] == cs[i] && cs[i..][1..] == cs[i + 1..];
      ProcessCompletion(cs[i], fault);
      ghost var more, news := Resolves(cs[i], wakeToken, tokens), Outcomes(cs[i], wakeToken, tokens);
      ProcessedWakes(cs[i], wakeToken, before, core.State(), tokens, inflight);
      told, outcomes := order + more, statuses + news;
      WokeMore(s, before, core.State(), order, statuses, more, news);
      AnswersMore(cs, i, held, tokens, inflight, wakeToken, order, statuses, before, core.State());
    }

    /** Process a batch, up to the first loop error: without one, every completion has told its wait the outcome. */
    method ServeBatch(completions: seq<Cqe>, fault: int)
      requires Valid() && loopError.None? && inbox == completions
      modifies this`waiters, this`pending, this`timed, this`inflight, this`arms, this`dirty, this`ring,
               this`submissionPending, this`loopError, this`stopRequested, this`healthy, this`inbox, this`lost, core
      ensures Valid() && core.running == old(core.running)
      ensures loopError.Some? ==> stopRequested
      ensures loopError.None? ==> inbox == [] && stopRequested == old(stopRequested)
      ensures loopError.None? ==> Serves(old(core.State()), core.State(), old(inflight), completions, wakeToken)
      ensures Blames(fault) && LostSince(old(lost))
      ensures Leads(old(core.State()), core.State(), 0)
      ensures KeepsHealth(old(healthy))
      ensures old(ring).cq <= ring.cq
    {
      hide Leads, Woke, Answers, LowerBound, PollsOk, Represents, Serves, TokensOk;
      ghost var s0, held, table := core.State(), inflight, waiters;
      ghost var order: seq<Key>, statuses: seq<Status> := [], [];
      WokeNothing(s0);
      AnswersNothing(completions, held, wakeToken);
      var i := 0;
      while i < |completions| && loopError.None?
        invariant Valid() && i <= |completions|
        invariant loopError.Some? ==> stopRequested
        invariant KeepsHealth(old(healthy))
        invariant loopError.None? ==> inbox == completions[i..] && stopRequested == old(stopRequested)
        invariant Blames(fault) && LostSince(old(lost))
        invariant Woke(s0, core.State(), order, statuses) && old(ring).cq <= ring.cq
        invariant Answers(completions, i, held, inflight, wakeToken, order, statuses)
      {
        order, statuses := ServeCompletion(completions, i, fault, s0, held, order, statuses);
        i := i + 1;
      }
      WokeLeads(s0, core.State(), order, statuses);
      SameRunning(s0, core.State(), order, statuses);
      if loopError.None? {
        AnsweredAreServed(s0, core.State(), table, held, inflight, completions, wakeToken, order, statuses);
      }
    }

    /**
     * Submit everything, block for as long as the cached deadline allows, process the completions: every one
     * collected whose token is in flight ends its wait with the outcome of the poll.
     */
    method BlockAndServe(t: Turn) returns (r: Status, ghost completions: seq<Cqe>)
      requires Valid() && loopError.None? && inbox == []
      modifies this`waiters, this`pending, this`timed, this`inflight, this`arms, this`dirty, this`ring,
               this`submissionPending, this`loopError, this`stopRequested, this`healthy, this`inbox, this`lost, core
      ensures Valid() && core.running == old(core.running)
      ensures loopError.Some? ==> stopRequested
      ensures loopError.None? ==> inbox == [] && stopRequested == old(stopRequested)
      ensures r.Err? ==> FailsIn(t, r.code) && core.State() == old(core.State()) && loopError.None?
      ensures t.submitFault == 0 && t.waitError.None? ==> r == Ok
      ensures t.waitError.Some? ==> r.Err?
      ensures r == Ok ==> Collected(Submitted(old(ring)), t.collect, completions)
      ensures r == Ok && loopError.None? ==>
                Serves(old(core.State()), core.State(), old(inflight), completions, wakeToken)
      ensures BlamesTurn(t) && LostSince(old(lost))
      ensures Leads(old(core.State()), core.State(), 0)
      ensures KeepsHealth(old(healthy))
      ensures r == Ok ==> KeptBack(Submitted(old(ring)), completions, ring)
    {
      hide Leads, LowerBound, PollsOk, Represents, Serves, TokensOk, BlocksNoLongerThan;
      LeadsSelf(core.State());
      completions := [];
      var limit := ChooseTimeout(t.now);
      r := FlushBeforeWait(t.submitFault);
      if r.Err? { return; }
      if t.waitError.Some? { return Err(t.waitError.value), completions; }
      var batch := Wait(t.collect, limit, t.now);
      completions := batch;
      ServeBatch(batch, t.submitFault);
    }

    method FlushBeforeWait(fault: int) returns (r: Status)
      requires Valid()
      modifies this`ring, this`submissionPending
      ensures Valid() && (r == Ok ==> ring == Submitted(old(ring)) && ring.sq == []) && (r.Err? ==> r.code == fault != 0)
    {
      if !wrapped { SubmitKeeps(ring, inbox, arms, nextToken, Live()); }
      r := FlushSubmissions(fault);
    }

    /** The first half of an iteration: expire what is due, then resume what is queued. */
    method ExpireAndDrain(env: seq<Turn>, from: nat) returns (next: nat, ghost at: nat)
      requires Valid() && core.running == NULL_HANDLE && from < |env| && loopError.None?
      modifies this`waiters, this`pending, this`timed, this`nextDeadline, this`dirty, this`nextToken, this`wrapped,
               this`inflight, this`arms, this`armCount, this`ring, this`submissionPending, this`stopRequested,
               this`loopError, this`healthy, core
      ensures Valid() && core.running == NULL_HANDLE && from < next <= |env|
      ensures loopError.Some? ==> stopRequested
      ensures ErrorFrom(env)
      ensures core.ready == [] || stopRequested || next == |env|
      ensures Leads(old(core.State()), core.State(), next - from - 1)
      ensures at + 1 == next && (loopError.None? ==> NoneDue(core.armed, env[at].now))
      ensures loopError.None? ==> AllTimedOut(old(core.State()), core.State(), env[from].now)
      ensures old(core.ready) == [] && NoneDue(old(core.armed), env[from].now) ==>
                core.State() == old(core.State()) && ring == old(ring) && inflight == old(inflight) && next == from + 1 &&
                stopRequested == old(stopRequested)
      ensures StopsFor(old(stopRequested), env, from, next)
      ensures KeepsHealth(old(healthy))
      ensures armCount <= old(armCount) + CallsIn(env, from, next)
      ensures old(ring).cq <= ring.cq
    {
      hide Leads, LowerBound, PollsOk, Represents, TokensOk, NoneDue, AllTimedOut, FailsIn;
      ghost var s0 := core.State();
      ExpireFirst(env[from]);
      ghost var s1 := core.State();
      next, at := from + 1, from;
      if !stopRequested {
        next, at := DrainReadyQueue(env, next);
        CallsSplit(env, from, from + 1, next);
        AskedMore(env, from, from + 1, next);
        LeadsOn(s0, s1, core.State(), 0, next - from - 1);
        if loopError.None? { TimedOutForGood(s0, s1, core.State(), next - from - 1, env[from].now); }
      }
    }

    /** At the head of an iteration what is due times out. */
    method ExpireFirst(t: Turn)
      requires Valid() && loopError.None?
      modifies this`waiters, this`pending, this`timed, this`inflight, this`arms, this`ring, this`submissionPending,
               this`loopError, this`stopRequested, this`healthy, this`nextDeadline, this`dirty, core
      ensures Valid() && core.running == old(core.running)
      ensures loopError.Some? ==> stopRequested && FailsIn(t, loopError.value)
      ensures loopError.None? ==> stopRequested == old(stopRequested)
      ensures Leads(old(core.State()), core.State(), 0)
      ensures loopError.None? ==> NoneDue(core.armed, t.now) && AllTimedOut(old(core.State()), core.State(), t.now)
      ensures NoneDue(old(core.armed), t.now) ==>
                loopError.None? && core.State() == old(core.State()) && ring == old(ring) && inflight == old(inflight)
      ensures KeepsHealth(old(healthy))
      ensures old(ring).cq <= ring.cq
    {
      hide LowerBound, PollsOk, Represents, TokensOk;
      ghost var s := core.State();
      var order := ProcessExpiredWaiters(t.now, t.submitFault);
      TimesOutLeads(s, core.State(), order);
      if order == [] { NobodyTimesOut(s, core.State()); }
      if loopError.None? {
        DueAreTold(s, core.State(), order, t.now);
        NoneDueAnyMore(s.armed, core.armed, t.now);
      }
    }

    /** The second half, with nothing queued and a waiter armed: block and serve. */
    method BlockTurn(t: Turn) returns (verdict: Verdict, ghost completions: seq<Cqe>)
      requires Valid() && core.running == NULL_HANDLE && loopError.None? && inbox == []
      modifies this`waiters, this`pending, this`timed, this`inflight, this`arms, this`dirty, this`ring,
               this`submissionPending, this`loopError, this`stopRequested, this`healthy, this`inbox, this`lost, core
      ensures Valid() && core.running == NULL_HANDLE
      ensures loopError.Some? ==> stopRequested
      ensures BlamesTurn(t) && LostSince(old(lost))
      ensures loopError.None? ==> inbox == [] && stopRequested == (old(stopRequested) || t.stop)
      ensures verdict == Again || (verdict.Return? && verdict.out.Failed? && FailsIn(t, verdict.out.code))
      ensures verdict != Again ==> core.State() == old(core.State()) && loopError.None?
      ensures t.submitFault == 0 && t.waitError.None? ==> verdict == Again
      ensures verdict == Again ==> t.waitError.None? && Collected(Submitted(old(ring)), t.collect, completions)
      ensures verdict == Again && loopError.None? ==>
                Serves(old(core.State()), core.State(), old(inflight), completions, wakeToken)
      ensures Leads(old(core.State()), core.State(), 0)
      ensures KeepsHealth(old(healthy))
      ensures verdict == Again ==> KeptBack(Submitted(old(ring)), completions, ring)
    {
      hide Leads, LowerBound, PollsOk, Represents, Serves, TokensOk, Collected;
      var r;
      r, completions := BlockAndServe(t);
      LetTimePass(t);
      verdict := if r.Err? then Return(Failed(r.code)) else Again;
    }

    /** Leave if the work is done, else block; the wait has a turn of its own, with a clock reading of its own. */
    method IdleTurn(env: seq<Turn>, from: nat, ghost at: nat)
      returns (next: nat, verdict: Verdict, ghost completions: seq<Cqe>)
      requires Valid() && core.running == NULL_HANDLE && core.ready == [] && loopError.None? && inbox == []
      requires at + 1 == from <= |env| && NoneDue(core.armed, env[at].now)
      modifies this`waiters, this`pending, this`timed, this`inflight, this`arms, this`dirty, this`ring,
               this`submissionPending, this`loopError, this`stopRequested, this`healthy, this`inbox, this`lost, core
      ensures Valid() && core.running == NULL_HANDLE && from <= next <= |env| && next <= from + 1
      ensures InRun(env) && LostSince(old(lost))
      ensures Concludes(env, next, verdict)
      ensures loopError.None? ==> NoneDue(core.armed, env[at].now)
      ensures verdict != Again ==> core.State() == old(core.State()) && loopError.None?
      ensures verdict == Again ==>
                && next == from + 1
                && WokeUp(Idle(at, old(core.State()), old(inflight), old(ring), completions), env, core.State(), wakeToken,
                          loopError.Some?)
      ensures old(core.armed) != map[] && from < |env| && env[from].submitFault == 0 && env[from].waitError.None? ==>
                verdict == Again
      ensures Leads(old(core.State()), core.State(), 0)
      ensures StopsFor(old(stopRequested), env, from, next)
      ensures KeepsHealth(old(healthy))
      ensures verdict == Again ==> KeptBack(Submitted(old(ring)), completions, ring)
    {
      hide Leads, LowerBound, PollsOk, Represents, Serves, TokensOk, Collected, NoneDue;
      LeadsSelf(core.State());
      next, completions := from, [];
      var done := core.NothingLeft(pending);
      if done { return next, Leave, completions; }
      if from == |env| { return next, Return(Paused), completions; }
      ghost var s, held := core.State(), inflight;
      verdict, completions := BlockTurn(env[from]);
      if verdict == Again && loopError.None? { StillNoneDue(s, core.State(), held, completions, wakeToken, env[at].now); }
      next := from + 1;
      AskedMore(env, from, from, next);
    }

    /**
     * One iteration of the loop of run(): what is due times out, what is queued is resumed in order, and an idle
     * loop waits and wakes whoever has a completion; `lap` tells so.
     */
    method Iterate(env: seq<Turn>, from: nat) returns (next: nat, verdict: Verdict, ghost lap: Lap)
      requires Valid() && core.running == NULL_HANDLE && from < |env| && loopError.None? && inbox == []
      modifies this`waiters, this`pending, this`timed, this`nextDeadline, this`dirty, this`nextToken, this`wrapped,
               this`inflight, this`arms, this`armCount, this`ring, this`submissionPending, this`stopRequested,
               this`loopError, this`healthy, this`inbox, this`lost, core
      ensures Valid() && core.running == NULL_HANDLE && from < next <= |env|
      ensures InRun(env) && LostSince(old(lost))
      ensures Concludes(env, next, verdict)
      ensures LapOk(env, lap, wakeToken)
      ensures lap == Lap(from, old(core.State()), old(inflight), old(ring), lap.idle, verdict, next, core.State(), inflight,
                         ring, loopError.Some?)
      ensures WouldBlock(old(core.State()), env, from) && !old(stopRequested) ==> verdict == Again
      ensures StopsFor(old(stopRequested), env, from, next)
      ensures KeepsHealth(old(healthy))
      ensures armCount <= old(armCount) + CallsIn(env, from, next)
    {
      hide Leads, LowerBound, PollsOk, Represents, TokensOk, NoneDue, AllTimedOut, WokeUp, KeptBack, QueueOk, Timed, CallsIn,
           CacheOk, FailsIn, Numbered;
      ghost var s0, f0, r0 := core.State(), inflight, ring;
      ghost var at, completions;
      next, at := ExpireAndDrain(env, from);
      ghost var s1, f1, r1 := core.State(), inflight, ring;
      next, verdict, completions := WaitOrLeave(env, next, at);
      CallsSplit(env, from, at + 1, next);
      AskedMore(env, from, at + 1, next);
      if loopError.None? { TimedOutForGood(s0, s1, core.State(), 0, env[from].now); }
      lap := Lap(from, s0, f0, r0, Idle(at, s1, f1, r1, completions), verdict, next, core.State(), inflight, ring,
                 loopError.Some?);
    }

    /** The queue is worked off or the loop has to end: leave, run out of turns, or wait. */
    method WaitOrLeave(env: seq<Turn>, from: nat, ghost at: nat)
      returns (next: nat, verdict: Verdict, ghost completions: seq<Cqe>)
      requires Valid() && core.running == NULL_HANDLE && inbox == [] && at + 1 == from <= |env|
      requires core.ready == [] || stopRequested || from == |env|
      requires if loopError.None? then NoneDue(core.armed, env[at].now) else stopRequested && ErrorFrom(env)
      modifies this`waiters, this`pending, this`timed, this`inflight, this`arms, this`dirty, this`ring,
               this`submissionPending, this`loopError, this`stopRequested, this`healthy, this`inbox, this`lost, core
      ensures Valid() && core.running == NULL_HANDLE && from <= next <= |env| && next <= from + 1
      ensures InRun(env) && LostSince(old(lost))
      ensures Concludes(env, next, verdict)
      ensures loopError.None? ==> old(loopError).None? && NoneDue(core.armed, env[at].now)
      ensures verdict == Again ==>
                && next == from + 1
                && WokeUp(Idle(at, old(core.State()), old(inflight), old(ring), completions), env, core.State(), wakeToken,
                          loopError.Some?)
                && KeptBack(Submitted(old(ring)), completions, ring)
      ensures old(stopRequested) ==> verdict == Leave
      ensures (&& old(core.ready) == [] && !old(stopRequested) && old(core.armed) != map[]
               && from < |env| && env[from].submitFault == 0 && env[from].waitError.None?) ==> verdict == Again
      ensures Leads(old(core.State()), core.State(), 0)
      ensures StopsFor(old(stopRequested), env, from, next)
      ensures KeepsHealth(old(healthy))
    {
      hide Leads, LowerBound, PollsOk, Represents, TokensOk, NoneDue, WokeUp, KeptBack, QueueOk, Timed;
      LeadsSelf(core.State());
      next, completions := from, [];
      if stopRequested {
        verdict := Leave;
      } else if core.ready != [] {
        verdict := Return(Paused);
      } else {
        next, verdict, completions := IdleTurn(env, from, at);
      }
    }

    /** After the loop: reap the finished roots and submit what is still queued. */
    method WindUp(fault: int) returns (out: Outcome)
      requires Valid() && (loopError.Some? ==> stopRequested)
      modifies this`ring, this`submissionPending, this`loopError, this`healthy, core
      ensures Valid() && core.running == old(core.running) && core.ready == old(core.ready)
      ensures core.active == old(core.active) && core.armed == old(core.armed) && core.RootsReaped()
      ensures Leads(old(core.State()), core.State(), 0)
      ensures out == if loopError.Some? then Failed(loopError.value) else Finished
      ensures loopError == old(loopError) || (loopError.Some? && loopError.value == fault != 0)
      ensures out == Finished ==> ring.sq == []
      ensures KeepsHealth(old(healthy))
    {
      hide Leads, LowerBound, PollsOk, TokensOk, Represents;
      Reap();
      var r := FlushBeforeWait(fault);
      if r.Err? && loopError.None? {
        loopError := Some(r.code);
        healthy := false;
      }
      out := if loopError.Some? then Failed(loopError.value) else Finished;
    }

    /** run() forgets an earlier stop request, and the error and the batch of an earlier run. */
    method Reset()
      requires Valid()
      modifies this`stopRequested, this`loopError, this`inbox, this`lost
      ensures Valid() && !stopRequested && loopError.None? && inbox == []
      ensures lost == old(lost) + BatchTokens(old(inbox))
    {
      DropInbox();
      stopRequested := false;
      loopError := None;
    }

    ghost method DropInbox()
      requires PollsOk()
      modifies this`inbox, this`lost
      ensures PollsOk() && inbox == [] && lost == old(lost) + BatchTokens(old(inbox))
    {
      if !wrapped { DropBatch(ring, inbox, arms, nextToken, Live()); }
      ghost var live, gone := Live(), BatchTokens(inbox);
      if !wrapped { BelowMore(lost, gone, nextToken); }
      lost, inbox := lost + gone, [];
      assert Live() == live - gone;
    }

    /** The outer loop of run(). */
    method Loop(env: seq<Turn>) returns (i: nat, verdict: Verdict, ghost resumed: nat, ghost laps: seq<Lap>)
      requires Valid() && core.running == NULL_HANDLE && loopError.None? && !stopRequested && inbox == []
      modifies this`waiters, this`pending, this`timed, this`nextDeadline, this`dirty, this`nextToken, this`wrapped,
               this`inflight, this`arms, this`armCount, this`ring, this`submissionPending, this`stopRequested,
               this`loopError, this`healthy, this`inbox, this`lost, core
      ensures Valid() && core.running == NULL_HANDLE && i <= |env| && Leads(old(core.State()), core.State(), resumed)
      ensures InRun(env) && LostSince(old(lost)) && resumed <= i
      ensures Concludes(env, i, verdict) && (verdict == Again ==> stopRequested)
      ensures StopsFor(false, env, 0, i)
      ensures loopError.None? ==> Begins(old(core.State()), old(inflight), old(ring), env, core.State(), wakeToken)
      ensures LapsLead(env, laps, old(core.State()), old(inflight), old(ring), i, core.State(), wakeToken)
      ensures env != [] ==> laps != []
      ensures KeepsHealth(old(healthy))
      ensures armCount <= old(armCount) + CallsIn(env, 0, i)
    {
      hide Leads, LowerBound, PollsOk, Represents, TokensOk, AllTimedOut, Begins, LapOk, LapsLead, QueueOk, Timed;
      ghost var s0, f0, r0 := core.State(), inflight, ring;
      LeadsSelf(s0);
      i, verdict, resumed, laps := 0, Again, 0, [];
      NothingBegun(s0, f0, r0, env, wakeToken);
      while !stopRequested && verdict == Again
        invariant Valid() && core.running == NULL_HANDLE && i <= |env| && Leads(s0, core.State(), resumed)
        invariant InRun(env) && LostSince(old(lost))
        invariant resumed <= i && (i == 0 ==> core.State() == s0 && inflight == f0 && ring == r0 && !stopRequested)
        invariant KeepsHealth(old(healthy))
        invariant armCount <= old(armCount) + CallsIn(env, 0, i)
        invariant StopsFor(false, env, 0, i)
        invariant Concludes(env, i, verdict)
        invariant (i > 0 || env == []) && loopError.None? ==> Begins(s0, f0, r0, env, core.State(), wakeToken)
        invariant i == 0 ==> verdict == Again || env == []
        invariant LapsLead(env, laps, s0, f0, r0, i, core.State(), wakeToken) && (laps == [] <==> i == 0)
        invariant laps != [] && verdict == Again ==>
                    var last := laps[|laps| - 1];
                    && last.verdict == Again && last.failed == loopError.Some?
                    && last.next == i && last.end == core.State() && last.left == inflight && last.after == ring
        decreases |env| - i, verdict == Again
      {
        if i == |env| {
          verdict := Return(Paused);
        } else {
          ghost var s, before := core.State(), i;
          ghost var lap;
          i, verdict, lap := Iterate(env, i);
          CallsSplit(env, 0, before, i);
          AskedMore(env, 0, before, i);
          LapLeads(env, lap, wakeToken);
          if loopError.None? { BeginsOn(s0, f0, r0, env, s, lap, wakeToken); }
          LeadsOn(s0, s, core.State(), resumed, lap.idle.at - before);
          LapsLeadOn(env, laps, lap, s0, f0, r0, before, s, wakeToken);
          resumed, laps := resumed + (lap.idle.at - before), laps + [lap];
        }
      }
    }

    /** run() once the flag and the error are cleared. */
    method RunOn(env: seq<Turn>, lastFault: int)
      returns (out: Outcome, ghost used: nat, ghost resumed: nat, ghost laps: seq<Lap>, ghost end: Co.Sys)
      requires Valid() && core.running == NULL_HANDLE && loopError.None? && !stopRequested && inbox == [] && initError.None?
      modifies this`waiters, this`pending, this`timed, this`nextDeadline, this`dirty, this`nextToken, this`wrapped,
               this`inflight, this`arms, this`armCount, this`ring, this`submissionPending, this`stopRequested,
               this`loopError, this`healthy, this`inbox, this`lost, core
      ensures Valid() && core.running == NULL_HANDLE && Leads(old(core.State()), core.State(), resumed) && resumed <= used
      ensures out == Finished ==> loopError.None? && ring.sq == []
      ensures out.Failed? ==> KernelFails(env, out.code) || out.code == lastFault != 0
      ensures LostSince(old(lost))
      ensures out == Paused ==> used == |env|
      ensures out == Finished && !stopRequested ==> core.ready == [] && core.active == 0 && core.armed == map[]
      ensures out == Finished ==> core.RootsReaped()
      ensures StopsFor(false, env, 0, used)
      ensures LapsLead(env, laps, old(core.State()), old(inflight), old(ring), used, end, wakeToken)
      ensures Leads(end, core.State(), 0) && (env != [] ==> laps != [])
      ensures loopError.None? ==> Begins(old(core.State()), old(inflight), old(ring), env, core.State(), wakeToken)
      ensures KeepsHealth(old(healthy)) && used <= |env| && armCount <= old(armCount) + CallsIn(env, 0, used)
    {
      hide Leads, LowerBound, PollsOk, Represents, TokensOk, Begins, LapsLead;
      ghost var s0, f0, r0 := core.State(), inflight, ring;
      var i, verdict;
      i, verdict, resumed, laps := Loop(env);
      used, end := i, core.State();
      LeadsSelf(end);
      if verdict.Return? {
        out := verdict.out;
      } else {
        out := WindUp(lastFault);
        LeadsOn(s0, end, core.State(), resumed, 0);
        if loopError.None? { BegunForGood(s0, f0, r0, env, end, core.State(), 0, wakeToken); }
      }
    }

    /**
     * run() against any environment. It returns normally only when it was stopped or nothing is
     * left to do, the branch that would report EDEADLK is never taken, and every error it returns is the
     * error of the setup or one that the kernel reported in some turn or in the last submit: without a
     * fault, a run never fails. Unless it is stopped, no poll is lost but those whose completions an
     * earlier run had dropped. `used` counts the turns, `resumed` the coroutines resumed in them; `laps` tells every
     * iteration, up to the state `end` in which the loop is left.
     */
    method Run(env: seq<Turn>, lastFault: int)
      returns (out: Outcome, ghost used: nat, ghost resumed: nat, ghost laps: seq<Lap>, ghost end: Co.Sys)
      requires Valid() && core.running == NULL_HANDLE
      modifies this`waiters, this`pending, this`timed, this`nextDeadline, this`dirty, this`nextToken, this`wrapped,
               this`inflight, this`arms, this`armCount, this`ring, this`submissionPending, this`stopRequested,
               this`loopError, this`healthy, this`inbox, this`lost, core
      ensures Valid() && core.running == NULL_HANDLE && Leads(old(core.State()), core.State(), resumed) && resumed <= used
      ensures initError.Some? ==> out == Failed(initError.value)
      ensures out == Finished ==> loopError.None? && ring.sq == []
      ensures out.Failed? ==> initError == Some(out.code) || KernelFails(env, out.code) || out.code == lastFault != 0
      ensures initError.None? ==> lost <= old(lost) + BatchTokens(old(inbox)) + {wakeToken}
      ensures initError.None? && !stopRequested ==> lost <= old(lost) + BatchTokens(old(inbox))
      ensures out == Paused ==> used == |env|
      ensures out == Finished && !stopRequested ==>
                core.ready == [] && core.active == 0 && core.armed == map[] && core.roots == []
      ensures out == Finished && !stopRequested ==>
                forall h :: h in core.frames ==> core.frames[h].state.NotStarted? || core.frames[h].state.Destroyed?
      ensures initError.None? && loopError.None? && stopRequested ==> AskedIn(env, 0, used)
      ensures initError.None? && loopError.None? ==>
                Begins(old(core.State()), old(inflight), old(ring), env, core.State(), wakeToken)
      ensures initError.None? ==>
                && LapsLead(env, laps, old(core.State()), old(inflight), old(ring), used, end, wakeToken)
                && (env != [] ==> laps != [])
      ensures Leads(end, core.State(), 0)
      ensures KeepsHealth(old(healthy))
      ensures used <= |env| && armCount <= old(armCount) + CallsIn(env, 0, used)
      ensures old(armCount) + CallsIn(env, 0, |env|) < TOKEN_LIMIT - 2 ==> !wrapped
    {
      hide Leads, LowerBound, Represents, TokensOk, Begins, LapsLead;
      if initError.Some? {
        LeadsSelf(core.State());
        return Failed(initError.value), 0, 0, [], core.State();
      }
      Reset();
      out, used, resumed, laps, end := RunOn(env, lastFault);
      CallsSplit(env, 0, used, |env|);
      if out == Finished && !stopRequested { core.NoFrameIsLeft(); }
    }
  }
}
