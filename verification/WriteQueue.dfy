/**
 * `queued_writer`: a queue of byte chunks drained by partial writes, with two watermarks. `Book` is
 * the writer's state together with what it was given and what the kernel has taken.
 */
module WriteQueue {
  import opened Base
  import opened Slices
  import Io = TimedIo

  newtype Byte = x: int | 0 <= x < 256
  type Bytes = seq<Byte>

  const FLUSH_SLICE_MS: nat := 100

  /**
   * `accepted` is every byte ever enqueued and `sent` every byte the writer has counted as written.
   * `claimed` bytes of the front chunk have been taken by the kernel while flush() is suspended and
   * are not counted yet. `largest` is the size of the largest accepted chunk.
   */
  datatype Book = Book(open: bool, low: nat, high: nat,
                       chunks: seq<Bytes>, offset: nat, queued: nat, active: bool,
                       accepted: Bytes, sent: Bytes, claimed: nat, largest: nat)

  // ---------------------------------------------------------------- chunks and an offset into the first

  function Concat(chunks: seq<Bytes>): Bytes
  {
    if chunks == [] then [] else chunks[0] + Concat(chunks[1..])
  }

  lemma {:induction false} ConcatAppend(chunks: seq<Bytes>, last: Bytes)
    ensures Concat(chunks + [last]) == Concat(chunks) + last
  {
    if chunks == [] {
      assert ([] + [last])[1..] == [];
    } else {
      ConcatAppend(chunks[1..], last);
      assert (chunks + [last])[1..] == chunks[1..] + [last];
    }
  }

  /** No chunk is empty, and the first is never written to its end. */
  predicate Shaped(chunks: seq<Bytes>, offset: nat)
  {
    && (forall i :: 0 <= i < |chunks| ==> chunks[i] != [])
    && (if chunks == [] then offset == 0 else offset < |chunks[0]|)
  }

  /** What is left of the first chunk. */
  function First(chunks: seq<Bytes>, offset: nat): Bytes
  {
    if chunks == [] || offset > |chunks[0]| then [] else chunks[0][offset..]
  }

  /** Everything that is left, in order. */
  function Rest(chunks: seq<Bytes>, offset: nat): Bytes
  {
    if chunks == [] then [] else First(chunks, offset) + Concat(chunks[1..])
  }

  lemma AppendShape(chunks: seq<Bytes>, offset: nat, bytes: Bytes)
    requires Shaped(chunks, offset) && bytes != []
    ensures Shaped(chunks + [bytes], offset)
    ensures First(chunks, offset) != [] ==> First(chunks + [bytes], offset) == First(chunks, offset)
  {}

  lemma Associative(a: Bytes, b: Bytes, c: Bytes)
    ensures (a + b) + c == a + (b + c)
  {}

  lemma AppendRest(chunks: seq<Bytes>, offset: nat, bytes: Bytes)
    requires Shaped(chunks, offset)
    ensures Rest(chunks + [bytes], offset) == Rest(chunks, offset) + bytes
  {
    var longer := chunks + [bytes];
    if chunks == [] {
      assert longer[1..] == [];
      assert First(longer, 0) == bytes;
    } else {
      var first, more := First(chunks, offset), Concat(chunks[1..]);
      ConcatAppend(chunks[1..], bytes);
      assert longer[1..] == chunks[1..] + [bytes];
      assert First(longer, offset) == first;
      Associative(first, more, bytes);
    }
  }

  /** The chunks once n more bytes of the first have been written: a chunk written to its end goes. */
  function ChunksAfter(chunks: seq<Bytes>, offset: nat, n: nat): seq<Bytes>
    requires chunks != []
  {
    if offset + n == |chunks[0]| then chunks[1..] else chunks
  }

  function OffsetAfter(chunks: seq<Bytes>, offset: nat, n: nat): nat
    requires chunks != []
  {
    if offset + n == |chunks[0]| then 0 else offset + n
  }

  lemma AdvanceShape(chunks: seq<Bytes>, offset: nat, n: nat)
    requires Shaped(chunks, offset) && 0 < n <= |First(chunks, offset)|
    ensures Shaped(ChunksAfter(chunks, offset, n), OffsetAfter(chunks, offset, n))
  {}

  /** Writing n more bytes of the first chunk takes exactly those from what is left. */
  lemma AdvancePart(chunks: seq<Bytes>, offset: nat, n: nat)
    requires chunks != [] && offset + n <= |chunks[0]|
    ensures Rest(chunks, offset) == First(chunks, offset)[..n] + Rest(chunks, offset + n)
  {
    Split(chunks[0], offset, n);
    Regroup(chunks[0][offset..], chunks[0][offset..][..n], chunks[0][offset + n..], Concat(chunks[1..]));
  }

  /** A chunk written to its end can go. */
  lemma DropWritten(chunks: seq<Bytes>)
    requires chunks != []
    ensures Rest(chunks, |chunks[0]|) == Rest(chunks[1..], 0)
  {
    WholeRest(chunks[1..]);
    assert First(chunks, |chunks[0]|) == [];
  }

  lemma AdvanceRest(chunks: seq<Bytes>, offset: nat, n: nat)
    requires Shaped(chunks, offset) && 0 < n <= |First(chunks, offset)|
    ensures Rest(chunks, offset) ==
            First(chunks, offset)[..n] + Rest(ChunksAfter(chunks, offset, n), OffsetAfter(chunks, offset, n))
  {
    AdvancePart(chunks, offset, n);
    assert Rest(ChunksAfter(chunks, offset, n), OffsetAfter(chunks, offset, n)) == Rest(chunks, offset + n) by {
      if offset + n == |chunks[0]| { DropWritten(chunks); }
    }
  }

  lemma Split(c: Bytes, offset: nat, n: nat)
    requires offset + n <= |c|
    ensures c[offset..] == c[offset..][..n] + c[offset + n..]
  {}

  lemma Regroup(whole: Bytes, a: Bytes, b: Bytes, c: Bytes)
    requires whole == a + b
    ensures whole + c == a + (b + c)
  {}

  lemma WholeRest(chunks: seq<Bytes>)
    ensures Rest(chunks, 0) == Concat(chunks)
  {
    if chunks != [] { assert chunks[0][0..] == chunks[0]; }
  }

  // ---------------------------------------------------------------- what a book has to satisfy

  /** The bytes still to be written, in order. */
  function Pending(b: Book): Bytes { Rest(b.chunks, b.offset) }

  /** The span flush() offers to the kernel. */
  function Front(b: Book): Bytes { First(b.chunks, b.offset) }

  /** Accepted = sent ++ pending, and the byte count is that of what is pending. */
  predicate Conserved(b: Book)
  {
    b.accepted == b.sent + Pending(b) && b.queued == |Pending(b)| && b.claimed <= |Front(b)|
  }

  /**
   * Active only above the low mark, or at it where the two marks are one; inactive only below the high mark,
   * or not above the low one.
   */
  predicate Hysteresis(b: Book)
  {
    if b.active then b.queued > b.low || b.queued == b.low == b.high else b.queued < b.high || b.queued <= b.low
  }

  predicate Marked(b: Book)
  {
    1 <= b.low <= b.high && Hysteresis(b) && b.queued <= b.high + b.largest
  }

  predicate BookOk(b: Book)
  {
    Shaped(b.chunks, b.offset) && Conserved(b) && Marked(b)
  }

  /** What the kernel has really been given. */
  function OnTheWire(b: Book): Bytes
    requires Conserved(b)
  {
    b.accepted[..|b.sent| + b.claimed]
  }

  // ---------------------------------------------------------------- the operations

  function NewBook(open: bool, low: nat, high: nat): Book
  {
    var l := if low == 0 then 1 else low;
    Book(open, l, if high < l then l else high, [], 0, 0, false, [], [], 0, 0)
  }

  predicate Refuses(b: Book, bytes: Bytes) { !b.open || (bytes != [] && b.active && b.queued >= b.low) }

  function Enqueued(b: Book, bytes: Bytes): Book
  {
    if Refuses(b, bytes) || bytes == [] then b
    else
      var queued := b.queued + |bytes|;
      b.(chunks := b.chunks + [bytes], queued := queued, active := b.active || queued >= b.high,
         accepted := b.accepted + bytes, largest := if |bytes| > b.largest then |bytes| else b.largest)
  }

  /** The kernel takes the first n bytes it is offered. */
  function Claimed(b: Book, n: nat): Book { if n <= |Front(b)| then b.(claimed := n) else b }

  /** flush() counts what the kernel took. */
  function Settled(b: Book): Book
  {
    if b.claimed == 0 || b.claimed > |Front(b)| || b.claimed > b.queued then b
    else
      var queued := b.queued - b.claimed;
      b.(chunks := ChunksAfter(b.chunks, b.offset, b.claimed), offset := OffsetAfter(b.chunks, b.offset, b.claimed),
         queued := queued, active := b.active && queued > b.low,
         sent := b.sent + Front(b)[..b.claimed], claimed := 0)
  }

  lemma TakeOfLonger(a: Bytes, b: Bytes, n: nat)
    requires n <= |a|
    ensures (a + b)[..n] == a[..n]
  {}

  lemma EnqueueConserves(b: Book, bytes: Bytes)
    requires Shaped(b.chunks, b.offset) && Conserved(b) && !Refuses(b, bytes) && bytes != []
    ensures var c := Enqueued(b, bytes);
            && Shaped(c.chunks, c.offset) && Conserved(c) && Pending(c) == Pending(b) + bytes
            && (Front(b) != [] ==> Front(c) == Front(b)) && OnTheWire(c) == OnTheWire(b)
  {
    AppendShape(b.chunks, b.offset, bytes);
    AppendRest(b.chunks, b.offset, bytes);
    Associative(b.sent, Pending(b), bytes);
    TakeOfLonger(b.accepted, bytes, |b.sent| + b.claimed);
  }

  lemma EnqueueMarks(b: Book, bytes: Bytes)
    requires Marked(b)
    ensures Marked(Enqueued(b, bytes))
  {}

  lemma EnqueueKeeps(b: Book, bytes: Bytes)
    requires BookOk(b)
    ensures var c := Enqueued(b, bytes);
            && BookOk(c) && Pending(c) == Pending(b) + (if Refuses(b, bytes) then [] else bytes)
            && (Front(b) != [] ==> Front(c) == Front(b)) && OnTheWire(c) == OnTheWire(b)
  {
    EnqueueMarks(b, bytes);
    if !Refuses(b, bytes) && bytes != [] { EnqueueConserves(b, bytes); }
  }

  lemma SettleConserves(b: Book)
    requires Shaped(b.chunks, b.offset) && Conserved(b) && b.claimed > 0
    ensures var c := Settled(b);
            && Shaped(c.chunks, c.offset) && Conserved(c) && c.claimed == 0 && c.accepted == b.accepted
            && c.sent == OnTheWire(b) && c.queued == b.queued - b.claimed
  {
    AdvanceShape(b.chunks, b.offset, b.claimed);
    AdvanceRest(b.chunks, b.offset, b.claimed);
    var span, c := Front(b)[..b.claimed], Settled(b);
    Associative(b.sent, span, Pending(c));
    TakeOfLonger(b.sent + span, Pending(c), |b.sent| + b.claimed);
    assert (b.sent + span)[..|b.sent| + b.claimed] == b.sent + span;
  }

  lemma SettleMarks(b: Book)
    requires Marked(b)
    ensures Marked(Settled(b))
  {}

  lemma SettleKeeps(b: Book)
    requires BookOk(b)
    ensures var c := Settled(b);
            && BookOk(c) && c.claimed == 0 && c.accepted == b.accepted
            && c.sent == OnTheWire(b) == OnTheWire(c) && c.queued == b.queued - b.claimed
  {
    SettleMarks(b);
    if b.claimed > 0 { SettleConserves(b); }
  }

  // ---------------------------------------------------------------- every run of operations

  datatype Op = Offer(bytes: Bytes) | Claim(n: nat) | Settle

  function Apply(b: Book, op: Op): Book
  {
    match op
    case Offer(bytes) => Enqueued(b, bytes)
    case Claim(n) => if b.claimed == 0 then Claimed(b, n) else b
    case Settle => Settled(b)
  }

  function Exec(b: Book, ops: seq<Op>): Book
    decreases |ops|
  {
    if ops == [] then b else Exec(Apply(b, ops[0]), ops[1..])
  }

  lemma ApplyKeeps(b: Book, op: Op)
    requires BookOk(b)
    ensures BookOk(Apply(b, op)) && b.accepted <= Apply(b, op).accepted && OnTheWire(b) <= OnTheWire(Apply(b, op))
  {
    match op
    case Offer(bytes) => EnqueueKeeps(b, bytes);
    case Claim(n) =>
    case Settle => SettleKeeps(b);
  }

  /**
   * Byte conservation over every run: at every suspension what was accepted is what was sent followed
   * by what is pending, what the kernel got is a prefix of what was accepted, nothing is unsent or
   * unaccepted again, and the watermark rules hold.
   */
  lemma {:induction false} Conservation(b: Book, ops: seq<Op>)
    requires BookOk(b)
    ensures var c := Exec(b, ops);
            BookOk(c) && b.accepted <= c.accepted && OnTheWire(b) <= OnTheWire(c) <= c.accepted
    decreases |ops|
  {
    if ops != [] {
      ApplyKeeps(b, ops[0]);
      Conservation(Apply(b, ops[0]), ops[1..]);
    }
  }

  lemma NewIsOk(open: bool, low: nat, high: nat)
    ensures BookOk(NewBook(open, low, high))
  {}

  /** On a valid stream a non-empty chunk is refused if and only if backpressure is active. */
  lemma RefusedIffActive(b: Book, bytes: Bytes)
    requires BookOk(b) && b.open && bytes != []
    ensures Refuses(b, bytes) <==> b.active
    ensures Enqueued(b, bytes).accepted == b.accepted <==> b.active
  {}

  /**
   * Backpressure starts with an accepted chunk if and only if that reaches the high mark, and ends with a counted write
   * if and only if that comes down to the low mark; nothing else switches it. Only a chunk that is accepted where the two
   * marks are one leaves it on at the low mark.
   */
  lemma SwitchesAtTheMarks(b: Book, op: Op)
    requires BookOk(b)
    ensures var c := Apply(b, op);
            && c.low == b.low && c.high == b.high
            && (op.Offer? && c.accepted != b.accepted ==> !b.active && (c.active <==> c.queued >= b.high))
            && (c.sent != b.sent && b.active ==> (!c.active <==> c.queued <= b.low))
            && (c.sent != b.sent && !b.active ==> !c.active)
            && (c.accepted == b.accepted && c.sent == b.sent ==> c.active == b.active && c.queued == b.queued)
            && (c.active && c.queued <= b.low && c.queued != b.queued ==> op.Offer? && b.low == b.high)
  {
    if op.Settle? && b.claimed > 0 { SettleConserves(b); }
  }

  /** Over every run: backpressure is on at or below the low mark only where the two marks are one. */
  lemma OnAtTheLowMark(open: bool, low: nat, high: nat, ops: seq<Op>)
    ensures var c := Exec(NewBook(open, low, high), ops);
            c.active && c.queued <= c.low ==> c.low == c.high == c.queued
  {
    NewIsOk(open, low, high);
    Conservation(NewBook(open, low, high), ops);
  }

  // ---------------------------------------------------------------- flush

  /**
   * One round of flush(): was the token cancelled, what did the clock say, what did other coroutines
   * enqueue before and after the kernel took the bytes, and how did the timed write go - the clock
   * when it began and its own rounds.
   */
  datatype Turn = Turn(cancelled: bool, now: Time, before: seq<Bytes>, began: Time, rounds: seq<Io.Turn>, after: seq<Bytes>)

  /**
   * GaveUp is ETIMEDOUT because of a deadline, flush()'s own or that of one write, and `at` is the clock
   * reading behind it. Paused: the rounds given are used up and flush() is still suspended.
   */
  datatype FlushResult = Flushed | Failed(code: int) | GaveUp(at: Time) | Paused

  function Offered(b: Book, chunks: seq<Bytes>): Book
    decreases |chunks|
  {
    if chunks == [] then b else Offered(Enqueued(b, chunks[0]), chunks[1..])
  }

  /** `async_write_some_with_timeout` for one slice. */
  function WriteResult(t: Turn, deadline: Time): Io.Result
    requires t.now < deadline
  {
    Io.TimedRun(t.began + Slice(deadline - t.now, FLUSH_SLICE_MS) * NS_PER_MS, t.rounds)
  }

  /** A write never reports more than it was offered. */
  function Written(span: Bytes, w: Io.Result): nat
  {
    if !w.Transferred? then 0 else if w.n < |span| then w.n else |span|
  }

  /** The book when the coroutine of flush() continues after a write that ended in `w`. */
  function AfterWrite(b: Book, t: Turn, w: Io.Result): Book
  {
    var asked := Offered(b, t.before);
    Offered(Claimed(asked, Written(Front(asked), w)), t.after)
  }

  /** flush() as a function of everything that happens to it. */
  function FlushRun(b: Book, deadline: Time, turns: seq<Turn>): (Book, FlushResult)
    decreases |turns|
  {
    if b.queued == 0 then (b, Flushed)
    else if turns == [] then (b, Paused)
    else if turns[0].cancelled then (b, Failed(ECANCELED))
    else if turns[0].now >= deadline then (b, GaveUp(turns[0].now))
    else
      var w := WriteResult(turns[0], deadline);
      var c := AfterWrite(b, turns[0], w);
      match w
      case Transferred(n) => if n == 0 then (c, Failed(EPIPE)) else FlushRun(Settled(c), deadline, turns[1..])
      case Failed(code) => (c, Failed(code))
      case Cancelled => (c, Failed(ECANCELED))
      case TimedOut(at) => (c, GaveUp(at))
      case Invalid => (c, Failed(EINVAL))
      case Paused => (c, Paused)
  }

  lemma {:induction false} OffersKeep(b: Book, chunks: seq<Bytes>)
    requires BookOk(b)
    ensures var c := Offered(b, chunks);
            && BookOk(c) && c.sent == b.sent && c.claimed == b.claimed && b.accepted <= c.accepted
            && OnTheWire(c) == OnTheWire(b) && (Front(b) != [] ==> Front(c) == Front(b))
    decreases |chunks|
  {
    if chunks != [] {
      EnqueueKeeps(b, chunks[0]);
      OffersKeep(Enqueued(b, chunks[0]), chunks[1..]);
    }
  }

  lemma FrontIsPending(b: Book)
    requires BookOk(b)
    ensures Front(b) == [] <==> b.queued == 0
    ensures b.queued == 0 ==> b.chunks == [] && b.offset == 0 && !b.active && b.sent == b.accepted
  {
    if b.chunks != [] { assert |Pending(b)| >= |Front(b)| > 0; }
  }

  lemma ClaimKeeps(b: Book, n: nat)
    requires BookOk(b) && n <= |Front(b)|
    ensures BookOk(Claimed(b, n))
  {}

  lemma WriteKeeps(b: Book, t: Turn, w: Io.Result)
    requires BookOk(b) && b.claimed == 0 && b.queued > 0
    ensures var c := AfterWrite(b, t, w);
            && BookOk(c) && c.sent == b.sent && b.accepted <= c.accepted
            && c.claimed == Written(Front(b), w) && Front(b) != []
  {
    FrontIsPending(b);
    OffersKeep(b, t.before);
    var asked := Offered(b, t.before);
    var n := Written(Front(asked), w);
    ClaimKeeps(asked, n);
    OffersKeep(Claimed(asked, n), t.after);
  }

  /** What one round does when it does not end the flush. */
  lemma RoundKeeps(b: Book, t: Turn, w: Io.Result)
    requires BookOk(b) && b.claimed == 0 && b.queued > 0 && w.Transferred? && w.n > 0
    ensures var c := Settled(AfterWrite(b, t, w));
            BookOk(c) && c.claimed == 0 && b.sent <= c.sent && b.accepted <= c.accepted
  {
    WriteKeeps(b, t, w);
    var c := AfterWrite(b, t, w);
    SettleKeeps(c);
    assert OnTheWire(c)[..|b.sent|] == b.sent;
  }

  /** A round counts exactly the bytes its write reports, from the front of the queue. */
  lemma RoundCounts(b: Book, t: Turn, w: Io.Result)
    requires BookOk(b) && b.claimed == 0 && b.queued > 0 && w.Transferred? && w.n > 0
    ensures var c, n := Settled(AfterWrite(b, t, w)), if w.n < |Front(b)| then w.n else |Front(b)|;
            c.sent == b.sent + Front(b)[..n] && n > 0
  {
    WriteKeeps(b, t, w);
    SpanStays(b, t, w);
    SettleKeeps(AfterWrite(b, t, w));
  }

  /** What others enqueue meanwhile does not change the span that is being written. */
  lemma SpanStays(b: Book, t: Turn, w: Io.Result)
    requires BookOk(b) && b.claimed == 0 && b.queued > 0
    ensures Front(AfterWrite(b, t, w)) == Front(b)
  {
    FrontIsPending(b);
    OffersKeep(b, t.before);
    var asked := Offered(b, t.before);
    ClaimKeeps(asked, Written(Front(asked), w));
    OffersKeep(Claimed(asked, Written(Front(asked), w)), t.after);
  }

  /** The flush goes on after this round: not cancelled, time left, and the write moved bytes. */
  predicate GoesOn(t: Turn, deadline: Time)
  {
    !t.cancelled && t.now < deadline && WriteResult(t, deadline).Transferred? && WriteResult(t, deadline).n > 0
  }

  /** The flush ends in this round, with an error or for lack of time. */
  predicate EndsAs(t: Turn, deadline: Time, out: FlushResult)
  {
    match out
    case Failed(code) =>
      if t.cancelled then code == ECANCELED
      else t.now < deadline &&
           var w := WriteResult(t, deadline);
           || w == Io.Failed(code)
           || (w == Io.Cancelled && code == ECANCELED)
           || (w == Io.Transferred(0) && code == EPIPE)
    case GaveUp(at) =>
      !t.cancelled && if t.now >= deadline then at == t.now else WriteResult(t, deadline) == Io.TimedOut(at)
    case _ => false
  }

  /** The flush gets to round i: every round before goes on and leaves bytes in the queue. */
  ghost predicate Reached(b: Book, deadline: Time, turns: seq<Turn>, i: nat)
    decreases i
  {
    && i < |turns| && b.queued > 0
    && (i > 0 ==> (
          && GoesOn(turns[0], deadline)
          && Reached(Settled(AfterWrite(b, turns[0], WriteResult(turns[0], deadline))), deadline, turns[1..], i - 1)))
  }

  /** Every failure and its cause: the token, the write's own error, a write of nothing, or the time. */
  lemma {:induction false} FlushEndsAs(b: Book, deadline: Time, turns: seq<Turn>, out: FlushResult)
    requires out.Failed? || out.GaveUp?
    ensures FlushRun(b, deadline, turns).1 == out <==>
            exists i: nat :: Reached(b, deadline, turns, i) && EndsAs(turns[i], deadline, out)
    decreases |turns|
  {
    if b.queued > 0 && turns != [] {
      var t, rest := turns[0], turns[1..];
      if EndsAs(t, deadline, out) { assert Reached(b, deadline, turns, 0); }
      if GoesOn(t, deadline) {
        var c := Settled(AfterWrite(b, t, WriteResult(t, deadline)));
        FlushEndsAs(c, deadline, rest, out);
        if i: nat :| Reached(c, deadline, rest, i) && EndsAs(rest[i], deadline, out) {
          assert Reached(b, deadline, turns, i + 1) && turns[i + 1] == rest[i];
        }
        if i: nat :| Reached(b, deadline, turns, i) && EndsAs(turns[i], deadline, out) {
          if i > 0 { assert Reached(c, deadline, rest, i - 1) && rest[i - 1] == turns[i]; }
        }
      } else if t.now < deadline {
        Io.RunEnds(t.began + Slice(deadline - t.now, FLUSH_SLICE_MS) * NS_PER_MS, t.rounds);
      }
    }
  }

  /**
   * Whatever happens during a flush: every return leaves a book in which accepted = sent ++ pending and
   * no byte is claimed but uncounted, bytes are only ever added to what was sent and accepted, and
   * success means that the queue is empty, the offset is 0, backpressure is off and everything
   * accepted up to that moment has been sent.
   */
  lemma {:induction false} FlushConserves(b: Book, deadline: Time, turns: seq<Turn>)
    requires BookOk(b) && b.claimed == 0
    ensures var (c, out) := FlushRun(b, deadline, turns);
            && BookOk(c) && c.claimed == 0 && b.sent <= c.sent && b.accepted <= c.accepted
            && (out == Flushed ==> c.chunks == [] && c.offset == 0 && !c.active && c.sent == c.accepted)
    decreases |turns|
  {
    FrontIsPending(b);
    if b.queued > 0 && turns != [] && !turns[0].cancelled && turns[0].now < deadline {
      var w := WriteResult(turns[0], deadline);
      if w.Transferred? && w.n > 0 {
        RoundKeeps(b, turns[0], w);
        FlushConserves(Settled(AfterWrite(b, turns[0], w)), deadline, turns[1..]);
      } else {
        WriteKeeps(b, turns[0], w);
      }
    }
  }

  // ---------------------------------------------------------------- how early flush gives up

  /** No clock reading lies before the start, and no write begins before the reading of its round. */
  ghost predicate Causal(start: Time, turns: seq<Turn>)
  {
    forall i :: 0 <= i < |turns| ==> start <= turns[i].now <= turns[i].began
  }

  /** flush() gives up for lack of time with at least `left` of its time still to come. */
  ghost predicate GivesUpEarly(b: Book, start: Time, timeoutMs: nat, turns: seq<Turn>, left: Time)
  {
    var deadline := start + timeoutMs * NS_PER_MS;
    var out := FlushRun(b, deadline, turns).1;
    Causal(start, turns) && out.GaveUp? && out.at + left <= deadline
  }

  /** At `at` a slice has passed that was asked for at a clock reading between start and deadline. */
  ghost predicate SlicePassed(start: Time, deadline: Time, now: Time, at: Time)
  {
    start <= now < deadline && now + Slice(deadline - now, FLUSH_SLICE_MS) * NS_PER_MS <= at
  }

  /** It gives up at its deadline, or once one slice has passed since a clock reading before it. */
  lemma {:induction false} GivesUpAfterASlice(b: Book, start: Time, deadline: Time, turns: seq<Turn>)
    requires Causal(start, turns) && FlushRun(b, deadline, turns).1.GaveUp?
    ensures var at := FlushRun(b, deadline, turns).1.at;
            at >= deadline || exists now :: SlicePassed(start, deadline, now, at)
    decreases |turns|
  {
    var t := turns[0];
    if t.now < deadline {
      var w := WriteResult(t, deadline);
      if w.Transferred? {
        assert Causal(start, turns[1..]);
        GivesUpAfterASlice(Settled(AfterWrite(b, t, w)), start, deadline, turns[1..]);
      } else {
        Io.OwnTimeoutIsNotEarly(t.began + Slice(deadline - t.now, FLUSH_SLICE_MS) * NS_PER_MS, t.rounds);
        assert SlicePassed(start, deadline, t.now, w.at);
      }
    }
  }

  /** With a timeout of one slice it gives up in the last millisecond, with one millisecond not early. */
  lemma ShortFlushIsPatient(b: Book, start: Time, timeoutMs: nat, turns: seq<Turn>)
    requires Causal(start, turns) && FlushRun(b, start + timeoutMs * NS_PER_MS, turns).1.GaveUp?
    ensures var deadline := start + timeoutMs * NS_PER_MS;
            var at := FlushRun(b, deadline, turns).1.at;
            && (timeoutMs <= FLUSH_SLICE_MS ==> deadline < at + NS_PER_MS)
            && (timeoutMs <= 1 ==> deadline <= at)
  {
    var deadline := start + timeoutMs * NS_PER_MS;
    var at := FlushRun(b, deadline, turns).1.at;
    GivesUpAfterASlice(b, start, deadline, turns);
    if at < deadline {
      var now :| SlicePassed(start, deadline, now, at);
      SliceFits(deadline - now, FLUSH_SLICE_MS);
    }
  }

  /** A flush that reads the clock `late` after its start and whose write then stalls for its whole slice. */
  function Stalled(start: Time, timeoutMs: nat, late: nat): Turn
    requires late < timeoutMs * NS_PER_MS
  {
    var now := start + late;
    var end := now + Slice(timeoutMs * NS_PER_MS - late, FLUSH_SLICE_MS) * NS_PER_MS;
    Turn(false, now, [], now, [Io.Turn(false, Io.Refused(EAGAIN), end, Ok)], [])
  }

  lemma StalledGivesUp(b: Book, start: Time, timeoutMs: nat, late: nat)
    requires b.queued > 0 && late < timeoutMs * NS_PER_MS
    ensures var t := Stalled(start, timeoutMs, late);
            && Causal(start, [t])
            && FlushRun(b, start + timeoutMs * NS_PER_MS, [t]).1 == GaveUp(t.rounds[0].now)
  {
    var t := Stalled(start, timeoutMs, late);
    var deadline := start + timeoutMs * NS_PER_MS;
    assert WriteResult(t, deadline) == Io.TimedOut(t.rounds[0].now);
  }

  /**
   * flush() may give up for lack of time with a millisecond or more of its time left, because a single
   * write gives up after its own slice. It never does if and only if nothing is queued or the timeout is
   * at most the 100 ms of a slice. (An ETIMEDOUT of the stream itself is passed on whenever it comes.)
   */
  lemma OnTimeIffOneSlice(b: Book, start: Time, timeoutMs: nat)
    ensures (forall turns :: !GivesUpEarly(b, start, timeoutMs, turns, NS_PER_MS)) <==>
            b.queued == 0 || timeoutMs <= 100
  {
    var deadline := start + timeoutMs * NS_PER_MS;
    if b.queued == 0 || timeoutMs <= FLUSH_SLICE_MS {
      forall turns ensures !GivesUpEarly(b, start, timeoutMs, turns, NS_PER_MS) {
        if Causal(start, turns) && FlushRun(b, deadline, turns).1.GaveUp? {
          ShortFlushIsPatient(b, start, timeoutMs, turns);
        }
      }
    } else {
      StalledGivesUp(b, start, timeoutMs, 0);
      SliceFits(timeoutMs * NS_PER_MS, FLUSH_SLICE_MS);
      assert GivesUpEarly(b, start, timeoutMs, [Stalled(start, timeoutMs, 0)], NS_PER_MS);
    }
  }

  /** It never gives up early at all if and only if nothing is queued or the timeout is at most one millisecond. */
  lemma NeverEarlyIffOneMillisecond(b: Book, start: Time, timeoutMs: nat)
    ensures (forall turns :: !GivesUpEarly(b, start, timeoutMs, turns, 1)) <==> b.queued == 0 || timeoutMs <= 1
  {
    var deadline := start + timeoutMs * NS_PER_MS;
    if b.queued == 0 || timeoutMs <= 1 {
      forall turns ensures !GivesUpEarly(b, start, timeoutMs, turns, 1) {
        if Causal(start, turns) && FlushRun(b, deadline, turns).1.GaveUp? {
          ShortFlushIsPatient(b, start, timeoutMs, turns);
        }
      }
    } else {
      StalledGivesUp(b, start, timeoutMs, 1);
      SliceFits(timeoutMs * NS_PER_MS - 1, FLUSH_SLICE_MS);
      assert GivesUpEarly(b, start, timeoutMs, [Stalled(start, timeoutMs, 1)], 1);
    }
  }

  /** A non-empty chunk offered to an idle writer is accepted, so it is pending afterwards. */
  lemma {:induction false} LateChunksStayPending(b: Book, chunks: seq<Bytes>)
    requires BookOk(b) && b.claimed == 0 && b.queued == 0
    ensures Offered(b, chunks).queued == 0 <==> !b.open || forall i :: 0 <= i < |chunks| ==> chunks[i] == []
    decreases |chunks|
  {
    FrontIsPending(b);
    if chunks != [] {
      var c := Enqueued(b, chunks[0]);
      EnqueueKeeps(b, chunks[0]);
      if chunks[0] == [] || !b.open {
        LateChunksStayPending(b, chunks[1..]);
      } else {
        FrontIsPending(c);
        OffersKeep(c, chunks[1..]);
        FrontIsPending(Offered(c, chunks[1..]));
      }
    }
  }

  class QueuedWriter {
    const open: bool                     // the stream is valid
    const low: nat
    const high: nat
    var queue: seq<Bytes>
    var frontOffset: nat
    var queuedBytes: nat
    var highActive: bool                 // high_watermark_active_
    var writeClosed: bool                // shutdown_write has succeeded
    ghost var accepted: Bytes
    ghost var sent: Bytes
    ghost var claimed: nat
    ghost var largest: nat

    ghost function State(): Book
      reads this
    {
      Book(open, low, high, queue, frontOffset, queuedBytes, highActive, accepted, sent, claimed, largest)
    }

    ghost predicate Valid()
      reads this
    {
      BookOk(State())
    }

    constructor (open: bool, low: nat, high: nat)
      ensures Valid() && State() == NewBook(open, low, high) && !writeClosed
      ensures this.low == (if low == 0 then 1 else low) && this.high == (if high < this.low then this.low else high)
      ensures queue == [] && queuedBytes == 0 && !highActive
    {
      this.open := open;
      var l := if low == 0 then 1 else low;
      this.low := l;
      this.high := if high < l then l else high;
      queue, frontOffset, queuedBytes, highActive, writeClosed := [], 0, 0, false, false;
      accepted, sent, claimed, largest := [], [], 0, 0;
      new;
      NewIsOk(open, low, high);
    }

    /** Append a chunk that is not refused and note whether the high mark is reached. */
    method Append(bytes: Bytes)
      requires !Refuses(State(), bytes) && bytes != []
      modifies this`queue, this`queuedBytes, this`highActive, this`accepted, this`largest
      ensures State() == Enqueued(old(State()), bytes)
    {
      accepted, largest := Enqueued(State(), bytes).accepted, Enqueued(State(), bytes).largest;
      queuedBytes := queuedBytes + |bytes|;
      queue := queue + [bytes];
      if queuedBytes >= high {
        highActive := true;
      }
    }

    /** Accept a chunk or refuse it; on success `backpressure` is the state the producer is told. */
    method Enqueue(bytes: Bytes) returns (r: Status, backpressure: bool)
      requires Valid()
      modifies this`queue, this`queuedBytes, this`highActive, this`accepted, this`largest
      ensures Valid() && State() == Enqueued(old(State()), bytes)
      ensures !open ==> r == Err(EBADF)
      ensures open ==> r == if bytes != [] && old(highActive) then Err(EAGAIN) else Ok
      ensures r == Ok ==> backpressure == highActive && accepted == old(accepted) + bytes
      ensures r == Ok && bytes != [] ==> queuedBytes == old(queuedBytes) + |bytes| && (highActive <==> queuedBytes >= high)
    {
      EnqueueKeeps(State(), bytes);
      assert Hysteresis(State());
      if !open { return Err(EBADF), false; }
      if bytes == [] { return Ok, highActive; }
      if highActive && queuedBytes >= low { return Err(EAGAIN), false; }
      Append(bytes);
      r, backpressure := Ok, highActive;
    }

    /** Other coroutines enqueue while the writer's own coroutine is suspended. */
    method Produce(chunks: seq<Bytes>)
      requires Valid()
      modifies this`queue, this`queuedBytes, this`highActive, this`accepted, this`largest
      ensures Valid() && State() == Offered(old(State()), chunks)
    {
      var i := 0;
      while i < |chunks|
        invariant i <= |chunks| && Valid()
        invariant Offered(State(), chunks[i..]) == Offered(old(State()), chunks)
      {
        assert chunks[i..][1..] == chunks[i + 1..];
        var _, _ := Enqueue(chunks[i]);
        i := i + 1;
      }
    }

    method UpdateBackpressureAfterDrain()
      modifies this`highActive
      ensures highActive == (old(highActive) && queuedBytes > low)
    {
      if highActive && queuedBytes <= low {
        highActive := false;
      }
    }

    /** Count the n bytes of the front chunk that a write took. */
    method Account(n: nat)
      requires Valid() && n == claimed > 0
      modifies this`queue, this`frontOffset, this`queuedBytes, this`highActive, this`sent, this`claimed
      ensures Valid() && State() == Settled(old(State())) && claimed == 0
      ensures queuedBytes == old(queuedBytes) - n && |sent| == |old(sent)| + n
      ensures if old(highActive) then !highActive <==> queuedBytes <= low else !highActive
    {
      ghost var b := State();
      SettleKeeps(b);
      assert b.chunks != [] && n <= |Front(b)| && b.queued >= n;
      sent := Settled(b).sent;
      frontOffset := frontOffset + n;
      queuedBytes := queuedBytes - n;
      claimed := 0;
      if frontOffset == |queue[0]| {
        queue := queue[1..];
        frontOffset := 0;
      }
      UpdateBackpressureAfterDrain();
      assert State() == Settled(b);
    }

    /** The kernel takes the bytes that the write reports. */
    method Take(w: Io.Result) returns (n: nat)
      requires Valid() && claimed == 0 && queuedBytes > 0
      modifies this`claimed
      ensures Valid() && State() == Claimed(old(State()), n) && n == Written(Front(old(State())), w)
    {
      FrontIsPending(State());
      var span := queue[0][frontOffset..];
      n := if !w.Transferred? then 0 else if w.n < |span| then w.n else |span|;
      ClaimKeeps(State(), n);
      claimed := n;
    }

    /** Suspend on a timed write of the front chunk's rest; `w` is what it reports, clamped to n bytes. */
    method WriteFront(t: Turn, deadline: Time) returns (w: Io.Result, n: nat)
      requires Valid() && claimed == 0 && queuedBytes > 0 && t.now < deadline
      modifies this`queue, this`queuedBytes, this`highActive, this`accepted, this`largest, this`claimed
      ensures w == WriteResult(t, deadline)
      ensures Valid() && State() == AfterWrite(old(State()), t, w)
      ensures n == claimed && (n > 0 <==> w.Transferred? && w.n > 0)
    {
      var slice := Slice(deadline - t.now, FLUSH_SLICE_MS);
      var slices, timeouts;
      w, slices, timeouts := Io.TransferWithTimeout(slice, t.began, t.rounds);
      WriteKeeps(State(), t, w);
      OffersKeep(State(), t.before);
      FrontIsPending(State());
      Produce(t.before);
      FrontIsPending(State());
      n := Take(w);
      Produce(t.after);
    }

    /** One round of flush(): `end` is how it ends the flush, if it does. */
    method Round(t: Turn, deadline: Time, ghost turns: seq<Turn>) returns (end: Option<FlushResult>)
      requires Valid() && claimed == 0 && queuedBytes > 0 && turns != [] && turns[0] == t
      modifies this`queue, this`frontOffset, this`queuedBytes, this`highActive,
               this`accepted, this`largest, this`claimed, this`sent
      ensures Valid() && claimed == 0
      ensures FlushRun(old(State()), deadline, turns) ==
              if end.Some? then (State(), end.value) else FlushRun(State(), deadline, turns[1..])
    {
      if t.cancelled { return Some(Failed(ECANCELED)); }
      if t.now >= deadline { return Some(GaveUp(t.now)); }
      var w, n := WriteFront(t, deadline);
      if w.TimedOut? { return Some(GaveUp(w.at)); }
      if w.Paused? { return Some(Paused); }
      if !w.Transferred? { return Some(Failed(Io.Code(w))); }
      if n == 0 { return Some(Failed(EPIPE)); }
      Account(n);
      end := None;
    }

    /** flush(): exactly the function above, so everything proved of it holds of this. */
    method Flush(timeoutMs: int, start: Time, turns: seq<Turn>) returns (out: FlushResult)
      requires Valid() && claimed == 0
      modifies this`queue, this`frontOffset, this`queuedBytes, this`highActive,
               this`accepted, this`largest, this`claimed, this`sent
      ensures Valid() && claimed == 0
      ensures if timeoutMs < 0 then out == Failed(EINVAL) && State() == old(State())
              else (State(), out) == FlushRun(old(State()), start + timeoutMs * NS_PER_MS, turns)
    {
      if timeoutMs < 0 { return Failed(EINVAL); }
      var deadline := start + timeoutMs * NS_PER_MS;
      var i := 0;
      assert turns[0..] == turns;
      while queuedBytes > 0
        invariant Valid() && claimed == 0 && i <= |turns|
        invariant FlushRun(State(), deadline, turns[i..]) == FlushRun(old(State()), deadline, turns)
        decreases |turns| - i
      {
        if i == |turns| { return Paused; }
        assert turns[i..][1..] == turns[i + 1..];
        var end := Round(turns[i], deadline, turns[i..]);
        if end.Some? { return end.value; }
        i := i + 1;
      }
      out := Flushed;
    }

    /** The flush is over; others may enqueue before this coroutine continues and closes the write side. */
    method CloseWriteSide(late: seq<Bytes>, fault: int) returns (r: Status)
      requires Valid() && claimed == 0 && queuedBytes == 0
      modifies this
      ensures Valid() && claimed == 0 && sent == old(sent) && old(accepted) <= accepted
      ensures queuedBytes == 0 <==> !open || forall i :: 0 <= i < |late| ==> late[i] == []
      ensures r == if !open then Err(EBADF) else if fault != 0 then Err(fault) else Ok
      ensures writeClosed == (old(writeClosed) || r == Ok)
    {
      OffersKeep(State(), late);
      LateChunksStayPending(State(), late);
      Produce(late);
      if !open { return Err(EBADF); }
      if fault != 0 { return Err(fault); }
      writeClosed := true;
      r := Ok;
    }

    /**
     * Flush, then close the write side. `flushed` is what had been accepted when the flush returned: all
     * of it is sent. Other coroutines may enqueue before this one continues; the write side is closed
     * with nothing pending if and only if none of them offered a byte.
     */
    method GracefulShutdown(timeoutMs: int, start: Time, turns: seq<Turn>, late: seq<Bytes>, fault: int)
      returns (out: FlushResult, ghost flushed: Bytes)
      requires Valid() && claimed == 0
      modifies this
      ensures Valid() && claimed == 0
      ensures out == Flushed ==> writeClosed && open && fault == 0
      ensures out != Flushed ==> writeClosed == old(writeClosed)
      ensures out == Flushed ==>
                && old(accepted) <= flushed == sent <= accepted
                && (queuedBytes == 0 <==> forall i :: 0 <= i < |late| ==> late[i] == [])
    {
      if timeoutMs >= 0 { FlushConserves(State(), start + timeoutMs * NS_PER_MS, turns); }
      out := Flush(timeoutMs, start, turns);
      flushed := accepted;
      if out == Flushed {
        var r := CloseWriteSide(late, fault);
        if r.Err? { out := Failed(r.code); }
      }
    }
  }
}
